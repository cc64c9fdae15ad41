/**
 * The depth-limited finder of src/worker.rs.
 *
 * `SyncStream` is a shared stream of work items with `get` and `extend`.
 * Its implementation is not part of this model; the class below is the
 * least any implementation provides: `get` hands out some pending item
 * (which one is not fixed) or None when nothing is pending, and `extend`
 * adds items. The sentinel regex is an opaque predicate on entry names.
 */
module Worker {
  import opened Wrappers
  import opened Fs

  /** A directory to scan and its distance from the search root. */
  datatype WorkItem = WorkItem(path: Path, depth: nat)

  /**
   * `WorkTarget::exceeds_depth`: without a limit nothing is too deep;
   * with limit `m`, exactly the depths past `m` are, so depth `m` itself
   * is still scanned.
   */
  function ExceedsDepth(maxDepth: Option<nat>, depth: nat): (r: bool)
    ensures maxDepth.None? ==> !r
    ensures maxDepth.Some? && depth <= maxDepth.value ==> !r
    ensures maxDepth.Some? && depth > maxDepth.value ==> r
  {
    match maxDepth
    case None => false
    case Some(m) => depth > m
  }

  /** What scanning one work item's entries amounts to. */
  datatype FinderOutcome = Found | Children(items: seq<WorkItem>) | NamePanic

  function PrefixedItems(acc: seq<WorkItem>, o: FinderOutcome): FinderOutcome
  {
    if o.Children? then Children(acc + o.items) else o
  }

  /** The child of `item` for entry `e`, one level deeper. */
  function ChildOf(item: WorkItem, e: Entry): (c: WorkItem)
    ensures c.depth == item.depth + 1 && FileName(c.path) == Some(e.name)
    ensures |c.path| == |item.path| + 1 && c.path[..|item.path|] == item.path
  {
    WorkItem(Join(item.path, e.name), item.depth + 1)
  }

  /** Whether entry `e` of `item` is enqueued when the scan gets past it. */
  predicate Keeps(maxDepth: Option<nat>, item: WorkItem, e: Entry): (k: bool)
    ensures k ==> e.metadataIsDir == Some(true) && !ExceedsDepth(maxDepth, ChildOf(item, e).depth)
    ensures e.metadataIsDir != Some(true) || ExceedsDepth(maxDepth, ChildOf(item, e).depth) ==> !k
  {
    e.metadataIsDir == Some(true) && !ExceedsDepth(maxDepth, item.depth + 1)
  }

  /**
   * The entry loop of lines 44-61 of src/worker.rs: a name that is not
   * UTF-8 panics; the first name the sentinel matches ends the scan;
   * otherwise the directory entries within the depth limit become
   * children, in listing order.
   */
  function FinderScan(sentinel: string -> bool, maxDepth: Option<nat>, item: WorkItem, es: seq<Entry>): (o: FinderOutcome)
    ensures o.Children? ==> |o.items| <= |es|
    ensures o.Children? ==> forall c :: c in o.items ==> c.depth == item.depth + 1 && !ExceedsDepth(maxDepth, c.depth)
  {
    if es == [] then Children([])
    else
      match es[0].name
      case Raw(_) => NamePanic
      case Text(s) =>
        if sentinel(s) then Found
        else PrefixedItems(if Keeps(maxDepth, item, es[0]) then [ChildOf(item, es[0])] else [],
                           FinderScan(sentinel, maxDepth, item, es[1..]))
  }

  /** An entry at which the finder's scan stops. */
  predicate FinderStops(sentinel: string -> bool, e: Entry)
  {
    e.name.Raw? || sentinel(e.name.text)
  }

  /** The sub-directories of `item` within the depth limit, in listing order. */
  function Subdirectories(maxDepth: Option<nat>, item: WorkItem, es: seq<Entry>): (cs: seq<WorkItem>)
    ensures |cs| <= |es|
    ensures forall c :: c in cs ==> exists e :: e in es && Keeps(maxDepth, item, e) && c == ChildOf(item, e)
  {
    if es == [] then []
    else (if Keeps(maxDepth, item, es[0]) then [ChildOf(item, es[0])] else []) + Subdirectories(maxDepth, item, es[1..])
  }

  lemma PrefixedItemsAssoc(a: seq<WorkItem>, b: seq<WorkItem>, o: FinderOutcome)
    ensures PrefixedItems(a, PrefixedItems(b, o)) == PrefixedItems(a + b, o)
  {
  }

  /** Without a stopping entry the scan yields exactly the kept sub-directories, in order. */
  lemma {:induction false} FinderWithoutMatch(sentinel: string -> bool, maxDepth: Option<nat>, item: WorkItem, es: seq<Entry>)
    requires forall i :: 0 <= i < |es| ==> !FinderStops(sentinel, es[i])
    ensures FinderScan(sentinel, maxDepth, item, es) == Children(Subdirectories(maxDepth, item, es))
  {
    if es != [] {
      FinderWithoutMatch(sentinel, maxDepth, item, es[1..]);
    }
  }

  /** The first stopping entry decides the scan: a match is found, or the name panics. */
  lemma {:induction false} FinderStopsAtFirst(sentinel: string -> bool, maxDepth: Option<nat>, item: WorkItem, es: seq<Entry>, k: nat)
    requires k < |es| && FinderStops(sentinel, es[k])
    requires forall i :: 0 <= i < k ==> !FinderStops(sentinel, es[i])
    ensures es[k].name.Text? ==> FinderScan(sentinel, maxDepth, item, es) == Found
    ensures es[k].name.Raw? ==> FinderScan(sentinel, maxDepth, item, es) == NamePanic
  {
    if k > 0 {
      FinderStopsAtFirst(sentinel, maxDepth, item, es[1..], k - 1);
    }
  }

  /** A scan finds a match only when some readable name matches the sentinel. */
  lemma {:induction false} FoundHasSentinel(sentinel: string -> bool, maxDepth: Option<nat>, item: WorkItem, es: seq<Entry>)
    requires FinderScan(sentinel, maxDepth, item, es) == Found
    ensures exists e :: e in es && e.name.Text? && sentinel(e.name.text)
  {
    if !(es[0].name.Text? && sentinel(es[0].name.text)) {
      FoundHasSentinel(sentinel, maxDepth, item, es[1..]);
      assert forall e :: e in es[1..] ==> e in es;
    }
  }

  /**
   * Every child is one level deeper than its parent, within the depth
   * limit, and is the path of a directory entry of the parent.
   */
  lemma {:induction false} ChildrenAreSubdirectories(sentinel: string -> bool, maxDepth: Option<nat>, item: WorkItem, es: seq<Entry>)
    requires FinderScan(sentinel, maxDepth, item, es).Children?
    ensures forall c :: c in FinderScan(sentinel, maxDepth, item, es).items ==>
      && c.depth == item.depth + 1
      && !ExceedsDepth(maxDepth, c.depth)
      && exists e :: e in es && e.metadataIsDir == Some(true) && c.path == Join(item.path, e.name)
  {
    if es != [] {
      ChildrenAreSubdirectories(sentinel, maxDepth, item, es[1..]);
      assert forall e :: e in es[1..] ==> e in es;
    }
  }

  /** A directory at (or past) the depth limit is scanned but yields no children. */
  lemma {:induction false} NoChildrenAtLimit(sentinel: string -> bool, m: nat, item: WorkItem, es: seq<Entry>)
    requires item.depth >= m
    requires FinderScan(sentinel, Some(m), item, es).Children?
    ensures FinderScan(sentinel, Some(m), item, es).items == []
  {
    if es != [] {
      NoChildrenAtLimit(sentinel, m, item, es[1..]);
    }
  }

  /** The shared stream of pending work items. */
  class SyncStream {
    var pending: multiset<WorkItem>

    constructor (roots: seq<WorkItem>)
      ensures pending == multiset(roots)
    {
      pending := multiset(roots);
    }

    /** `get`: hand out one pending item, or None when nothing is pending. */
    method Get() returns (item: Option<WorkItem>)
      modifies this
      ensures old(pending) == multiset{} ==> item == None && pending == old(pending)
      ensures old(pending) != multiset{} ==>
                item.Some? && item.value in old(pending) && pending == old(pending) - multiset{item.value}
    {
      if pending == multiset{} {
        item := None;
      } else {
        var w :| w in pending;
        item := Some(w);
        pending := pending - multiset{w};
      }
    }

    /** `extend`: add every item of `items` to the pending ones. */
    method Extend(items: seq<WorkItem>)
      modifies this
      ensures pending == old(pending) + multiset(items)
    {
      pending := pending + multiset(items);
    }
  }

  /** What one pass of the `finder_worker` loop does. */
  datatype StepOutcome = Skipped | Printed(line: Path) | Extended | Panicked

  /** The sentinel pattern, the stream and the depth limit shared by all finder threads. */
  class WorkTarget {
    const sentinelPattern: string -> bool
    const syncStream: SyncStream
    const maxDepth: Option<nat>

    constructor (sentinelPattern: string -> bool, syncStream: SyncStream, maxDepth: Option<nat>)
      ensures this.sentinelPattern == sentinelPattern && this.syncStream == syncStream
      ensures this.maxDepth == maxDepth
    {
      this.sentinelPattern := sentinelPattern;
      this.syncStream := syncStream;
      this.maxDepth := maxDepth;
    }

    /** No pending item lies past the depth limit. */
    predicate DepthBounded()
      reads this, syncStream
    {
      forall w :: w in syncStream.pending ==> !ExceedsDepth(maxDepth, w.depth)
    }

    /**
     * One pass of the `finder_worker` loop on `item`, whose listing is
     * `listing`: an unreadable directory is skipped; a name that is not
     * UTF-8, or a matched directory whose own path is not UTF-8, panics;
     * a match prints the item's own path and enqueues nothing; otherwise
     * the kept sub-directories are enqueued in one extend.
     */
    method ProcessItem(item: WorkItem, listing: Listing) returns (outcome: StepOutcome)
      modifies syncStream
      ensures listing.Unreadable? ==> outcome == Skipped && syncStream.pending == old(syncStream.pending)
      ensures listing.Listed? ==>
        match FinderScan(sentinelPattern, maxDepth, item, OkEntries(listing.entries))
        case Found =>
          && outcome == (if IsUtf8(item.path) then Printed(item.path) else Panicked)
          && syncStream.pending == old(syncStream.pending)
        case Children(cs) => outcome == Extended && syncStream.pending == old(syncStream.pending) + multiset(cs)
        case NamePanic => outcome == Panicked && syncStream.pending == old(syncStream.pending)
      ensures old(DepthBounded()) ==> DepthBounded()
    {
      if listing.Unreadable? {
        return Skipped;
      }
      var dirEntries := OkEntries(listing.entries);
      var candidateSubpaths: seq<WorkItem> := [];
      var foundSentinel := false;
      var i := 0;
      while i < |dirEntries|
        invariant 0 <= i <= |dirEntries|
        invariant syncStream.pending == old(syncStream.pending)
        invariant FinderScan(sentinelPattern, maxDepth, item, dirEntries)
                  == PrefixedItems(candidateSubpaths, FinderScan(sentinelPattern, maxDepth, item, dirEntries[i..]))
      {
        var dirEntry := dirEntries[i];
        assert dirEntries[i..][1..] == dirEntries[i + 1..];
        if dirEntry.name.Raw? {
          return Panicked;
        }
        var fileName := dirEntry.name.text;
        if sentinelPattern(fileName) {
          if !IsUtf8(item.path) {
            return Panicked;
          }
          outcome := Printed(item.path);
          foundSentinel := true;
          break;
        }
        var added := if Keeps(maxDepth, item, dirEntry) then [ChildOf(item, dirEntry)] else [];
        PrefixedItemsAssoc(candidateSubpaths, added, FinderScan(sentinelPattern, maxDepth, item, dirEntries[i + 1..]));
        candidateSubpaths := candidateSubpaths + added;
        i := i + 1;
      }
      if !foundSentinel {
        assert candidateSubpaths + [] == candidateSubpaths;
        ChildrenAreSubdirectories(sentinelPattern, maxDepth, item, dirEntries);
        syncStream.Extend(candidateSubpaths);
        outcome := Extended;
      }
    }
  }
  /** A path the finder prints: a directory with a readable entry the sentinel matches. */
  predicate HoldsSentinel(sentinel: string -> bool, fs: Path -> Listing, dir: Path)
  {
    fs(dir).Listed? && exists e :: e in OkEntries(fs(dir).entries) && e.name.Text? && sentinel(e.name.text)
  }

  /**
   * The `finder_worker` loop of one thread, run alone for at most `fuel`
   * passes over the filesystem `fs`: take items until the stream is empty
   * or the thread panics. Every printed line is a directory holding a
   * sentinel entry, and no item past the depth limit is ever enqueued.
   */
  method FinderWorker(target: WorkTarget, fs: Path -> Listing, fuel: nat) returns (lines: seq<Path>, panicked: bool)
    modifies target.syncStream
    ensures old(target.DepthBounded()) ==> target.DepthBounded()
    ensures forall l :: l in lines ==> HoldsSentinel(target.sentinelPattern, fs, l)
  {
    lines := [];
    panicked := false;
    var steps := 0;
    while steps < fuel
      invariant old(target.DepthBounded()) ==> target.DepthBounded()
      invariant forall l :: l in lines ==> HoldsSentinel(target.sentinelPattern, fs, l)
    {
      var next := target.syncStream.Get();
      if next.None? {
        return;
      }
      var workItem := next.value;
      var outcome := target.ProcessItem(workItem, fs(workItem.path));
      match outcome {
        case Printed(line) =>
          FoundHasSentinel(target.sentinelPattern, target.maxDepth, workItem, OkEntries(fs(workItem.path).entries));
          lines := lines + [line];
        case Panicked =>
          panicked := true;
          return;
        case _ =>
      }
      steps := steps + 1;
    }
  }
}
