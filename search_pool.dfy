/**
 * The shared candidate pool of src/main.rs and the per-directory body of
 * its `worker` loop.
 *
 * Each lock-held critical section is one atomic method of `SearchPool`.
 * The condition-variable wait inside `get_candidate` is split in two:
 * `GetCandidate` is the entry into the call (count the caller as waiting,
 * then test the guard) and `ResumeGet` is the re-test after a wake-up.
 * Either one ends with an item, with a stall, or with "would block".
 */
module SearchPools {
  import opened Wrappers
  import opened Fs

  datatype IoError = InvalidFileName | ReadDirFailed

  /** What one attempt at `get_candidate` ends with. */
  datatype Take = Got(path: Path) | Stalled | WouldBlock

  /**
   * `is_target`: does the last component of `path` name the target?
   * A path without a final normal component, or whose final component is
   * not UTF-8, is an `InvalidData` error.
   */
  function IsTarget(target: string, path: Path): (r: Result<bool, IoError>)
    ensures r.Err? <==> FileName(path).None? || FileName(path).value.Raw?
    ensures r == Ok(true) <==> FileName(path) == Some(Text(target))
  {
    match FileName(path)
    case None => Err(InvalidFileName)
    case Some(name) =>
      match name
      case Raw(_) => Err(InvalidFileName)
      case Text(s) => Ok(s == target)
  }

  /** What scanning one directory's entries amounts to. */
  datatype ScanOutcome = Matched(result: Path) | Extend(children: seq<Path>) | Failed(error: IoError)

  /** Put `acc` in front of the children of an outcome that extends. */
  function Prefixed(acc: seq<Path>, o: ScanOutcome): ScanOutcome
  {
    if o.Extend? then Extend(acc + o.children) else o
  }

  /**
   * The scan of lines 99-113 of src/main.rs over the entries of `dir`:
   * the first entry whose name is the target is the result; an entry whose
   * name cannot be read as a target fails the scan; otherwise the
   * sub-directories, in listing order, are the new candidates.
   */
  function Scan(target: string, dir: Path, es: seq<Entry>): (o: ScanOutcome)
    ensures o.Matched? ==> FileName(o.result) == Some(Text(target))
    ensures o.Matched? ==> |o.result| == |dir| + 1 && o.result[..|dir|] == dir
    ensures o.Failed? ==> o.error == InvalidFileName
    ensures o.Extend? ==> |o.children| <= |es|
  {
    if es == [] then Extend([])
    else
      var sub := Join(dir, es[0].name);
      match IsTarget(target, sub)
      case Err(e) => Failed(e)
      case Ok(true) => Matched(sub)
      case Ok(false) => Prefixed(if es[0].pathIsDir then [sub] else [], Scan(target, dir, es[1..]))
  }

  /** An entry at which the scan stops: a match, or a name that is not UTF-8. */
  predicate Stops(target: string, e: Entry)
  {
    e.name.Raw? || e.name == Text(target)
  }

  /** The sub-directories of `dir` among `es`, in listing order. */
  function Children(dir: Path, es: seq<Entry>): (cs: seq<Path>)
    ensures |cs| <= |es|
    ensures forall c :: c in cs ==> exists e :: e in es && e.pathIsDir && c == Join(dir, e.name)
  {
    if es == [] then []
    else (if es[0].pathIsDir then [Join(dir, es[0].name)] else []) + Children(dir, es[1..])
  }

  lemma PrefixedAssoc(a: seq<Path>, b: seq<Path>, o: ScanOutcome)
    ensures Prefixed(a, Prefixed(b, o)) == Prefixed(a + b, o)
  {
  }

  /** When no entry stops the scan, it extends by exactly the sub-directories, in order. */
  lemma {:induction false} ScanWithoutMatch(target: string, dir: Path, es: seq<Entry>)
    requires forall i :: 0 <= i < |es| ==> !Stops(target, es[i])
    ensures Scan(target, dir, es) == Extend(Children(dir, es))
  {
    if es != [] {
      ScanWithoutMatch(target, dir, es[1..]);
    }
  }

  /**
   * The first entry that stops the scan decides it: the scan records that
   * entry's own path when its name is the target, and fails otherwise.
   */
  lemma {:induction false} ScanStopsAtFirst(target: string, dir: Path, es: seq<Entry>, k: nat)
    requires k < |es| && Stops(target, es[k])
    requires forall i :: 0 <= i < k ==> !Stops(target, es[i])
    ensures es[k].name.Text? ==> Scan(target, dir, es) == Matched(Join(dir, es[k].name))
    ensures es[k].name.Raw? ==> Scan(target, dir, es) == Failed(InvalidFileName)
  {
    if k > 0 {
      ScanStopsAtFirst(target, dir, es[1..], k - 1);
    }
  }

  /**
   * At most one result, and it is the path of an entry named `target`
   * that comes before every other stopping entry.
   */
  lemma {:induction false} MatchedIsFirstTarget(target: string, dir: Path, es: seq<Entry>)
    requires Scan(target, dir, es).Matched?
    ensures exists k ::
              && 0 <= k < |es| && es[k].name == Text(target)
              && Scan(target, dir, es).result == Join(dir, es[k].name)
              && forall i :: 0 <= i < k ==> !Stops(target, es[i])
  {
    var sub := Join(dir, es[0].name);
    if IsTarget(target, sub) == Ok(true) {
      assert es[0].name == Text(target);
    } else {
      MatchedIsFirstTarget(target, dir, es[1..]);
      var k :| 0 <= k < |es| - 1 && es[1..][k].name == Text(target)
        && Scan(target, dir, es[1..]).result == Join(dir, es[1..][k].name)
        && forall i :: 0 <= i < k ==> !Stops(target, es[1..][i]);
      assert forall i :: 1 <= i < k + 1 ==> !Stops(target, es[i]) by {
        forall i | 1 <= i < k + 1 ensures !Stops(target, es[i]) {
          assert es[i] == es[1..][i - 1];
        }
      }
    }
  }

  /** Every candidate a scan adds is a sub-directory of `dir` named by one of its entries. */
  lemma {:induction false} ExtendAddsSubdirectories(target: string, dir: Path, es: seq<Entry>)
    requires Scan(target, dir, es).Extend?
    ensures forall c :: c in Scan(target, dir, es).children ==>
      exists e :: e in es && e.pathIsDir && c == Join(dir, e.name)
  {
    if es != [] {
      ExtendAddsSubdirectories(target, dir, es[1..]);
      assert forall e :: e in es[1..] ==> e in es;
    }
  }

  /** A pool whose every recorded result is a path named by the target. */
  class SearchPool {
    /** The guarded `(waiting_count, Vec<PathBuf>)` pair. */
    var waiting: nat
    var candidates: seq<Path>
    /** The separately guarded results vector. */
    var results: seq<Path>
    const target: string
    /** `num_cpus::get()`, fixed for the run. */
    const threadCount: nat

    /** Every recorded result names the target. */
    predicate ResultsAreTargets()
      reads this
    {
      forall r :: r in results ==> FileName(r) == Some(Text(target))
    }

    /** `SearchPool::new`: the root is the only candidate, nobody waits, nothing found. */
    constructor (searchTarget: string, rootPath: Path, threadCount: nat)
      requires threadCount >= 1
      ensures candidates == [rootPath] && waiting == 0 && results == []
      ensures target == searchTarget && this.threadCount == threadCount
      ensures ResultsAreTargets()
    {
      waiting := 0;
      candidates := [rootPath];
      results := [];
      target := searchTarget;
      this.threadCount := threadCount;
    }

    /**
     * The guard of the wait loop, tested by a caller already counted as
     * waiting: pop the last candidate and stop waiting, or report a stall
     * when nothing is buffered and every thread waits, or block.
     */
    method ResumeGet() returns (t: Take)
      requires waiting >= 1
      modifies this`waiting, this`candidates
      ensures t.Got? <==> old(candidates) != []
      ensures t.Got? ==> (&& t.path == old(candidates)[|old(candidates)| - 1]
                          && candidates == old(candidates)[..|old(candidates)| - 1]
                          && waiting == old(waiting) - 1)
      ensures t.Stalled? <==> old(candidates) == [] && old(waiting) >= threadCount
      ensures !t.Got? ==> candidates == old(candidates) && waiting == old(waiting)
    {
      if |candidates| > 0 {
        waiting := waiting - 1;
        t := Got(candidates[|candidates| - 1]);
        candidates := candidates[..|candidates| - 1];
      } else if waiting >= threadCount {
        t := Stalled;
      } else {
        t := WouldBlock;
      }
    }

    /**
     * `get_candidate` on entry: count the caller as waiting, then test the
     * guard. An item leaves the count where it was; a stall or a block
     * leaves it one higher.
     */
    method GetCandidate() returns (t: Take)
      modifies this`waiting, this`candidates
      ensures t.Got? <==> old(candidates) != []
      ensures t.Got? ==> (&& t.path == old(candidates)[|old(candidates)| - 1]
                          && candidates == old(candidates)[..|old(candidates)| - 1]
                          && waiting == old(waiting))
      ensures t.Stalled? <==> old(candidates) == [] && old(waiting) + 1 >= threadCount
      ensures !t.Got? ==> candidates == old(candidates) && waiting == old(waiting) + 1
    {
      waiting := waiting + 1;
      t := ResumeGet();
    }

    /** `extend_candidates`: append `paths` after the buffered candidates, in order. */
    method ExtendCandidates(paths: seq<Path>)
      modifies this`candidates
      ensures candidates == old(candidates) + paths
    {
      candidates := candidates + paths;
    }

    /** `put_result`: append one path to the results. */
    method PutResult(path: Path)
      modifies this`results
      ensures results == old(results) + [path]
    {
      results := results + [path];
    }

    /**
     * One pass of the `worker` loop for the candidate `path`, whose listing
     * is `listing`: an unreadable directory or an entry name that is not
     * UTF-8 ends the worker with an error and changes nothing; otherwise
     * either the first entry named `target` is recorded and nothing is
     * enqueued, or the sub-directories are enqueued in one extend.
     */
    method ProcessDirectory(path: Path, listing: Listing) returns (status: Result<(), IoError>)
      modifies this`candidates, this`results
      ensures listing.Unreadable? ==>
                status == Err(ReadDirFailed) && candidates == old(candidates) && results == old(results)
      ensures listing.Listed? ==>
        match Scan(target, path, OkEntries(listing.entries))
        case Matched(r) => status == Ok(()) && results == old(results) + [r] && candidates == old(candidates)
        case Extend(cs) => status == Ok(()) && candidates == old(candidates) + cs && results == old(results)
        case Failed(e) => status == Err(e) && candidates == old(candidates) && results == old(results)
      ensures old(ResultsAreTargets()) ==> ResultsAreTargets()
    {
      if listing.Unreadable? {
        return Err(ReadDirFailed);
      }
      var subPaths := OkEntries(listing.entries);
      ghost var outcome := Scan(target, path, subPaths);
      var candidateSubPaths: seq<Path> := [];
      var foundSentinel := false;
      var i := 0;
      while i < |subPaths|
        invariant 0 <= i <= |subPaths|
        invariant candidates == old(candidates) && results == old(results)
        invariant outcome == Prefixed(candidateSubPaths, Scan(target, path, subPaths[i..]))
      {
        var subPath := Join(path, subPaths[i].name);
        assert subPaths[i..][0] == subPaths[i] && subPaths[i..][1..] == subPaths[i + 1..];
        var isTarget := IsTarget(target, subPath);
        if isTarget.Err? {
          assert outcome == Failed(isTarget.error);
          return Err(isTarget.error);
        }
        if isTarget.value {
          assert outcome == Matched(subPath);
          assert FileName(subPath) == Some(Text(target));
          PutResult(subPath);
          foundSentinel := true;
          break;
        }
        var added := if subPaths[i].pathIsDir then [subPath] else [];
        PrefixedAssoc(candidateSubPaths, added, Scan(target, path, subPaths[i + 1..]));
        candidateSubPaths := candidateSubPaths + added;
        i := i + 1;
      }
      if !foundSentinel {
        assert subPaths[i..] == [];
        assert candidateSubPaths + [] == candidateSubPaths;
        assert outcome == Extend(candidateSubPaths);
        ExtendCandidates(candidateSubPaths);
      }
      return Ok(());
    }
  }

  /** How a `worker` thread's loop ends in this sequential model. */
  datatype WorkerEnd = Done | WorkerFailed(error: IoError) | Blocked | OutOfFuel

  /**
   * The `worker` loop of one thread, run alone for at most `fuel` passes
   * over the filesystem `fs`: take candidates until the pool stalls
   * (`Done`), a directory fails (`WorkerFailed`, the `?` of lines 93 and 100), or
   * the thread would have to wait for another thread (`Blocked`).
   */
  method WorkerLoop(pool: SearchPool, fs: Path -> Listing, fuel: nat) returns (end: WorkerEnd)
    modifies pool
    ensures old(pool.ResultsAreTargets()) ==> pool.ResultsAreTargets()
    ensures end == Done ==> pool.candidates == [] && pool.waiting >= pool.threadCount
    ensures end == Blocked ==> pool.candidates == [] && pool.waiting < pool.threadCount
  {
    var steps := 0;
    while steps < fuel
      invariant old(pool.ResultsAreTargets()) ==> pool.ResultsAreTargets()
    {
      var next := pool.GetCandidate();
      match next {
        case Stalled => return Done;
        case WouldBlock => return Blocked;
        case Got(path) =>
          var status := pool.ProcessDirectory(path, fs(path));
          if status.Err? {
            return WorkerFailed(status.error);
          }
      }
      steps := steps + 1;
    }
    return OutOfFuel;
  }
}
