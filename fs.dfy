/** Option and Result, the two failure-carrying types the Rust code uses. */
module Wrappers {
  datatype Option<+T> = None | Some(value: T)

  datatype Result<+T, +E> = Ok(value: T) | Err(error: E)
}

/**
 * Paths and directory listings as the search observes them.
 *
 * A path is the sequence of its components, as Rust's `Path::components()`
 * yields them, so two paths are equal exactly when their component
 * sequences are. The filesystem itself is not modelled: a directory's
 * listing is given as a value.
 */
module Fs {
  import opened Wrappers

  /**
   * An OS string: either valid UTF-8 text, or bytes that do not decode as
   * UTF-8. UTF-8 validity of byte strings is not defined in this model:
   * it is an assumption of the model that every `Raw` value holds bytes
   * that do not decode, so `OsStr::to_str` fails exactly on `Raw`.
   */
  datatype OsName = Text(text: string) | Raw(bytes: seq<bv8>)

  datatype Component = RootDir | CurDir | ParentDir | Normal(name: OsName)

  type Path = seq<Component>

  /** `Path::file_name`: the last component when it is a normal one. */
  function FileName(p: Path): (r: Option<OsName>)
    ensures r.Some? ==> |p| > 0 && p == p[..|p| - 1] + [Normal(r.value)]
    ensures r.None? ==> p == [] || !p[|p| - 1].Normal?
  {
    if |p| > 0 && p[|p| - 1].Normal? then Some(p[|p| - 1].name) else None
  }

  /** `Path::join` with a single entry name, as `DirEntry::path` builds it. */
  function Join(dir: Path, name: OsName): (p: Path)
    ensures FileName(p) == Some(name)
    ensures |p| == |dir| + 1 && p[..|dir|] == dir
  {
    dir + [Normal(name)]
  }

  /** `Path::to_str` succeeds: every normal component decodes as UTF-8. */
  predicate IsUtf8(p: Path): (b: bool)
    ensures b && FileName(p).Some? ==> FileName(p).value.Text?
  {
    forall i :: 0 <= i < |p| && p[i].Normal? ==> p[i].name.Text?
  }

  /** Joining a name keeps the path decodable exactly when the directory and the name are. */
  lemma JoinUtf8(dir: Path, name: OsName)
    ensures IsUtf8(Join(dir, name)) <==> IsUtf8(dir) && name.Text?
  {
    var p := Join(dir, name);
    assert p[|dir|] == Normal(name);
    if IsUtf8(dir) && name.Text? {
      forall i | 0 <= i < |p| && p[i].Normal? ensures p[i].name.Text? {
        if i < |dir| { assert p[i] == dir[i]; }
      }
    }
    if IsUtf8(p) {
      forall i | 0 <= i < |dir| && dir[i].Normal? ensures dir[i].name.Text? {
        assert p[i] == dir[i];
      }
    }
  }

  /**
   * One entry of a directory listing:
   * `pathIsDir` is what `Path::is_dir` reports for the entry's path
   * (symlinks followed, false on any error);
   * `metadataIsDir` is what `DirEntry::metadata` gives (symlinks not
   * followed): None when reading the metadata fails.
   */
  datatype Entry = Entry(name: OsName, pathIsDir: bool, metadataIsDir: Option<bool>)

  /** An item of the `read_dir` iterator: an entry, or an error reading it. */
  datatype EntryResult = EntryErr | EntryOk(entry: Entry)

  /** The result of `read_dir` on a directory. */
  datatype Listing = Unreadable | Listed(entries: seq<EntryResult>)

  /**
   * The entries that were read without error, in listing order
   * (`filter_map(|e| e.ok())` and `flat_map` over the `Result`s).
   */
  function OkEntries(rs: seq<EntryResult>): (es: seq<Entry>)
    ensures |es| <= |rs|
    ensures forall e :: e in es <==> EntryOk(e) in rs
  {
    if rs == [] then []
    else (if rs[0].EntryOk? then [rs[0].entry] else []) + OkEntries(rs[1..])
  }

  /**
   * Filtering distributes over concatenation, so the readable entries keep
   * the listing's order and multiplicity.
   */
  lemma {:induction false} OkEntriesAppend(a: seq<EntryResult>, b: seq<EntryResult>)
    ensures OkEntries(a + b) == OkEntries(a) + OkEntries(b)
  {
    if a == [] {
      assert a + b == b;
    } else {
      assert (a + b)[0] == a[0];
      assert (a + b)[1..] == a[1..] + b;
      OkEntriesAppend(a[1..], b);
    }
  }

  /** A listing read without any error yields its entries unchanged, in order. */
  lemma {:induction false} OkEntriesAllOk(rs: seq<EntryResult>)
    requires forall i :: 0 <= i < |rs| ==> rs[i].EntryOk?
    ensures |OkEntries(rs)| == |rs|
    ensures forall i :: 0 <= i < |rs| ==> OkEntries(rs)[i] == rs[i].entry
  {
    if rs != [] {
      OkEntriesAllOk(rs[1..]);
      var es := OkEntries(rs);
      assert es == [rs[0].entry] + OkEntries(rs[1..]);
      forall i | 1 <= i < |rs| ensures es[i] == rs[i].entry {
        assert es[i] == OkEntries(rs[1..])[i - 1];
        assert rs[1..][i - 1] == rs[i];
      }
    }
  }
}
