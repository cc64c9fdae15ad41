# pj: parallel search for sentinel directories, modelled in Dafny

`pj` walks a directory tree with a pool of threads. It looks for directories
that hold a "sentinel" entry, an entry whose name equals a target (or, in the
depth-limited finder, matches a pattern). A directory's first sentinel ends
its scan, so nothing below it is searched. This project models the sequential
logic under the threads:

- the candidate pool of `src/main.rs` (`SearchPool`): a waiting count and a
  LIFO buffer of paths under one lock, plus a separately locked results list.
  `get_candidate` reports a stall when the buffer is empty and every thread
  waits. Each lock-held critical section is one atomic method of a Dafny
  class. The condition-variable wait is split into two steps. `GetCandidate`
  counts the caller as waiting and tests the guard. `ResumeGet` tests the
  guard again after a wake-up. Each step ends with an item, a stall or
  "would block";
- the per-directory body of `worker` in `src/main.rs`: stop at the first
  entry named by the target and record that entry's path, or enqueue the
  sub-directories in listing order;
- `VecReader` of `src/sync_reader.rs`: a vector and a cursor that advances
  on every `get`;
- the finder of `src/worker.rs`. `exceeds_depth` is a depth cutoff over an
  optional maximum. The per-item body of `finder_worker` prints the
  directory that holds a matching entry and otherwise enqueues the
  sub-directories within the depth limit.

Files: `fs.dfy` (modules `Wrappers`, `Fs`: paths as component sequences, OS
names that may not be UTF-8, directory entries and listings), `search_pool.dfy`
(module `SearchPools`), `sync_reader.dfy` (module `SyncReader`), `worker.dfy`
(module `Worker`).

The filesystem is a given value. A listing is `Unreadable` or a sequence of
entry results. An entry carries its name and two directory tests.
`pathIsDir` is `Path::is_dir`, which follows symlinks and is false on any
error; `src/main.rs` uses it. `metadataIsDir` is `DirEntry::metadata`, which
does not follow symlinks and can fail; `src/worker.rs` uses it. The regex is
an opaque predicate on names.

`src/worker.rs` uses a `SyncStream` with `get` and `extend`, but
`src/sync_reader.rs` does not define one. `Worker.SyncStream` is the least
such a stream provides. It is a multiset of pending items. `Get` hands out
some pending item, and which one is not fixed. `Extend` adds items.

The two scanners, and the pool, behave as follows:

- `src/main.rs` records the matched entry's own path (line 101), not the
  directory that contains it. `src/worker.rs` prints the containing
  directory (line 50).
- In `src/main.rs`, an unreadable directory or a non-UTF-8 entry name ends
  the worker with an error, through the `?` on lines 93 and 100. It is not
  skipped.
- In `src/worker.rs`, a non-UTF-8 entry name panics (line 48), and so does
  printing a directory whose path is not UTF-8 (line 50). An unreadable
  directory is skipped.
- `get_candidate` pops from the end of the buffer (LIFO).

## Model

| member | source | states |
|---|---|---|
| `Fs.FileName` | src/main.rs:57-59 | `Path::file_name`: a result is the path's last component, which is a normal one; none when the path is empty or ends in a root, `.` or `..` component |
| `Fs.IsUtf8` | src/worker.rs:50 | `Path::to_str` succeeds; a decodable path has a decodable file name |
| `Fs.JoinUtf8` | src/worker.rs:57 | an entry's path decodes exactly when its directory and its name both decode |
| `Fs.Join` | src/worker.rs:57 | an entry's path is its directory followed by the entry's name; its file name is that name |
| `Fs.OkEntries` | src/worker.rs:44 | the entries read without error are exactly the successful items of the listing, never more than there were |
| `Fs.OkEntriesAppend` | src/worker.rs:44 | dropping the failed items distributes over concatenation, so the kept entries stay in listing order with their multiplicity |
| `Fs.OkEntriesAllOk` | src/main.rs:94 | a listing without errors yields exactly its entries, in order |
| `SearchPools.IsTarget` | src/main.rs:56-63 | errors exactly when the path has no final normal component or that component is not UTF-8; true exactly when the final component is the target |
| `SearchPools.Scan` | src/main.rs:99-113 | the entry loop of `worker`: a match is a path one component below the directory whose file name is the target; a failure is the `InvalidData` of `is_target`; an extend adds at most one candidate per entry |
| `SearchPools.Children` | src/main.rs:106-108 | the reference list of sub-directories: each is the path of an entry for which `is_dir` holds, at most one per entry |
| `SearchPools.ScanWithoutMatch` | src/main.rs:97-112 | when no entry is the target and every name is UTF-8, the directory's candidates are exactly its sub-directories, in listing order |
| `SearchPools.ScanStopsAtFirst` | src/main.rs:99-104 | the first entry that is the target or not UTF-8 decides the scan: the matched entry's own path is the one result, or the scan fails with `InvalidData` |
| `SearchPools.MatchedIsFirstTarget` | src/main.rs:99-104 | a recorded result is the path of an entry named by the target, and every entry before it was neither a match nor undecodable |
| `SearchPools.ExtendAddsSubdirectories` | src/main.rs:106-108 | every path a scan enqueues is the path of an entry for which `is_dir` holds |
| `SearchPools.SearchPool.constructor` | src/main.rs:20-27 | the buffer holds exactly the root, the waiting count is 0, the results are empty |
| `SearchPools.SearchPool.ResumeGet` | src/main.rs:33-43 | with a buffered candidate: returns the last one, removes exactly it, and stops waiting; otherwise a stall exactly when the count has reached the thread count, else would block; the buffer is unchanged unless an item is returned |
| `SearchPools.SearchPool.GetCandidate` | src/main.rs:29-44 | returns the last candidate and removes exactly it, leaving the waiting count where it started; returns no item exactly when the buffer is empty; stalls exactly when the incremented count reaches the thread count; the count stays incremented when no item is returned |
| `SearchPools.SearchPool.ExtendCandidates` | src/main.rs:46-50 | the buffer becomes the old buffer followed by the new paths in order; the waiting count and the results are unchanged |
| `SearchPools.SearchPool.PutResult` | src/main.rs:52-54 | appends exactly one path to the results; the candidate state is unchanged |
| `SearchPools.SearchPool.ProcessDirectory` | src/main.rs:91-113 | one directory: an unreadable directory or an undecodable name is an error and changes nothing; otherwise it records the first match and enqueues nothing, or enqueues the sub-directories once; every result names the target |
| `SearchPools.WorkerLoop` | src/main.rs:90-117 | the worker loop keeps every result named by the target; it ends cleanly only at a stall, with an empty buffer and every thread waiting |
| `SyncReader.ItemAt` | src/sync_reader.rs:29 | `Vec::get`: the element at the index when it exists, None exactly when the index is past the end |
| `SyncReader.Delivered` | src/sync_reader.rs:29-31 | `n` successive gets from index `start` yield `n` results, the j-th being the element at `start + j` or None past the end |
| `SyncReader.DrainFromFresh` | src/sync_reader.rs:59-68 | from a fresh reader, successive gets return the items in order, each once, and None after the end |
| `SyncReader.SeenExactlyOnce` | src/sync_reader.rs:59-68 | with pairwise distinct items, each item is returned exactly once by the gets of a drained reader |
| `SyncReader.VecReader.constructor` | src/sync_reader.rs:17-22 | the items are stored unchanged and the index is 0 |
| `SyncReader.VecReader.Get` | src/sync_reader.rs:28-32 | returns the item at the index while it is in range and None past the end; the index advances by exactly one; the items never change |
| `SyncReader.ReadAll` | src/sync_reader.rs:51-55 | one reading thread alone, `get` until None, collects exactly the items, in order |
| `Worker.ExceedsDepth` | src/worker.rs:22-30 | without a limit no depth is too deep; with limit `m` a depth is too deep exactly when it is greater than `m` |
| `Worker.ChildOf` | src/worker.rs:56-59 | a child is one level deeper than its parent, and its path is the parent's path followed by the entry's name |
| `Worker.Keeps` | src/worker.rs:55 | an entry is enqueued exactly when its metadata says directory and its child's depth does not exceed the limit |
| `Worker.FinderScan` | src/worker.rs:44-61 | the entry loop of `finder_worker`: when it yields children, there is at most one per entry, and each is one level deeper than the item and within the depth limit |
| `Worker.Subdirectories` | src/worker.rs:55-59 | the reference list of children: each is the child of an entry that is kept, at most one per entry |
| `Worker.FinderWithoutMatch` | src/worker.rs:44-61 | with no matching or undecodable name, the children are exactly the directory entries within the depth limit, in listing order |
| `Worker.FinderStopsAtFirst` | src/worker.rs:45-53 | the first matching or undecodable name decides the scan: a match is found or the name panics |
| `Worker.FoundHasSentinel` | src/worker.rs:49-53 | a match is found only when some readable entry name matches the sentinel |
| `Worker.ChildrenAreSubdirectories` | src/worker.rs:55-59 | every child has depth parent + 1, is within the limit, and is the path of an entry whose metadata says directory |
| `Worker.NoChildrenAtLimit` | src/worker.rs:55 | a directory at depth `max_depth` (or deeper) is scanned but yields no children |
| `Worker.SyncStream.Get` | src/worker.rs:36 | hands out one pending item and removes it, or None when nothing is pending |
| `Worker.SyncStream.Extend` | src/worker.rs:64 | adds exactly the given items to the pending ones |
| `Worker.WorkTarget.constructor` | src/worker.rs:15-19 | holds the sentinel pattern, the stream and the optional depth limit |
| `Worker.WorkTarget.ProcessItem` | src/worker.rs:37-65 | one work item: unreadable is skipped; otherwise the first match prints the item's own path and enqueues nothing, an undecodable name panics, or the kept children are extended once; no enqueued item exceeds the depth limit |
| `Worker.FinderWorker` | src/worker.rs:36-66 | every printed line is a directory with a readable entry matching the sentinel, and the stream never holds an item past the depth limit |

## Left out

- Threads: spawning, joining, and mapping a panic to an error (src/main.rs:65-87), `Arc`, and the 16-thread test harness (src/sync_reader.rs:41-57). Their point is concurrency. `SyncReader.ReadAll` models one reading thread run alone.
- Condition-variable wait and notify (src/main.rs:34, 41, 49): `notify_one` on a stall, `notify_all` on extend, and wake-up ordering. The wait appears only as the `WouldBlock` outcome and the `ResumeGet` re-check.
- A worker that ends with an error never joins the waiting count, so the other threads cannot reach the stall count. This is a property of the threads together and is not modelled.
- `SearchPools.WorkerLoop`: runs one thread alone, for at most `fuel` passes. When that thread would have to wait for another thread it stops with `Blocked`.
- `Worker.FinderWorker`: runs one thread alone, for at most `fuel` passes. A tree deeper than the fuel is not explored to its end.
- `SyncReader.VecReader.Get`: the index is an unbounded `nat`. The atomic ordering of `fetch_add` and its wrap-around after 2^64 calls are not modelled.
- `SearchPools.SearchPool.GetCandidate`: the waiting count is a `nat`, so `usize` overflow is not modelled. Likewise `Worker.ChildOf` does not model overflow of `depth + 1`.
- `num_cpus::get()` is the constant `threadCount`, at least 1.
- Filesystem calls (`read_dir`, `metadata`, `is_dir`, `DirEntry::path`) are replaced by the given listing of each directory. Symlink resolution appears only as the two directory flags of an entry.
- The regex engine: `is_match` is an opaque predicate on names.
- `main` (src/main.rs:119-147): argument parsing, `current_dir` and printing are not part of this model. The line `println!` writes in `finder_worker` is the `Printed` outcome, which carries the path rather than its text.
- `Worker.SyncStream`: the crate has no implementation of the stream, so its blocking and quiescence behaviour is not modelled. `Get` returns None exactly when nothing is pending.
- UTF-8 decoding of byte strings is not modelled. A `Raw` name stands for bytes that do not decode, and the model does not check that its bytes are invalid UTF-8.
