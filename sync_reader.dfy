/**
 * The `VecReader` of src/sync_reader.rs: a vector handed out one element
 * per `get` through a shared index. The atomic `fetch_add` is a plain
 * field update here; each `get` is one atomic step.
 */
module SyncReader {
  import opened Wrappers

  /** `Vec::get`: the element at `i`, or None past the end. */
  function ItemAt<T>(items: seq<T>, i: nat): (r: Option<T>)
    ensures r.Some? <==> i < |items|
    ensures i < |items| ==> r.value == items[i]
  {
    if i < |items| then Some(items[i]) else None
  }

  /** What `n` successive `get`s return from a reader whose index is `start`. */
  function Delivered<T>(items: seq<T>, start: nat, n: nat): (d: seq<Option<T>>)
    ensures |d| == n
    ensures forall j :: 0 <= j < n ==> d[j] == ItemAt(items, start + j)
    decreases n
  {
    if n == 0 then [] else [ItemAt(items, start)] + Delivered(items, start + 1, n - 1)
  }

  /** The values carried by the `Some`s of `os`, in order. */
  function Values<T>(os: seq<Option<T>>): seq<T>
  {
    if os == [] then [] else (if os[0].Some? then [os[0].value] else []) + Values(os[1..])
  }

  lemma {:induction false} DeliveredSplit<T>(items: seq<T>, start: nat, m: nat, n: nat)
    ensures Delivered(items, start, m + n) == Delivered(items, start, m) + Delivered(items, start + m, n)
    decreases m
  {
    if m > 0 {
      DeliveredSplit(items, start + 1, m - 1, n);
    }
  }

  /** From `start` on, the remaining `|items| - start` gets return exactly the remaining items. */
  lemma {:induction false} DeliveredRest<T>(items: seq<T>, start: nat)
    requires start <= |items|
    ensures Values(Delivered(items, start, |items| - start)) == items[start..]
    decreases |items| - start
  {
    if start < |items| {
      DeliveredRest(items, start + 1);
      var d := Delivered(items, start, |items| - start);
      assert d[1..] == Delivered(items, start + 1, |items| - start - 1);
      assert items[start..] == [items[start]] + items[start + 1..];
    }
  }

  /** Once the index is past the end, every further get returns None. */
  lemma {:induction false} DeliveredPastEnd<T>(items: seq<T>, start: nat, n: nat)
    requires start >= |items|
    ensures forall j :: 0 <= j < n ==> Delivered(items, start, n)[j] == None
    decreases n
  {
    if n > 0 {
      DeliveredPastEnd(items, start + 1, n - 1);
    }
  }

  lemma {:induction false} ValuesAppend<T>(a: seq<Option<T>>, b: seq<Option<T>>)
    ensures Values(a + b) == Values(a) + Values(b)
  {
    if a != [] {
      ValuesAppend(a[1..], b);
      var head := if a[0].Some? then [a[0].value] else [];
      assert (a + b)[0] == a[0];
      assert (a + b)[1..] == a[1..] + b;
      assert Values(a + b) == head + Values(a[1..] + b);
      assert Values(a) == head + Values(a[1..]);
      assert head + (Values(a[1..]) + Values(b)) == (head + Values(a[1..])) + Values(b);
    } else {
      assert a + b == b;
    }
  }

  lemma {:induction false} ValuesOfNones<T>(os: seq<Option<T>>)
    requires forall j :: 0 <= j < |os| ==> os[j] == None
    ensures Values(os) == []
  {
    if os != [] {
      ValuesOfNones(os[1..]);
    }
  }

  /**
   * From a fresh reader, any `n >= |items|` successive gets return the
   * items in order, each once, and then only None.
   */
  lemma DrainFromFresh<T>(items: seq<T>, n: nat)
    requires n >= |items|
    ensures Values(Delivered(items, 0, n)) == items
    ensures forall j :: 0 <= j < |items| ==> Delivered(items, 0, n)[j] == Some(items[j])
    ensures forall j :: |items| <= j < n ==> Delivered(items, 0, n)[j] == None
  {
    var d := Delivered(items, 0, n);
    var front := Delivered(items, 0, |items|);
    var back := Delivered(items, |items|, n - |items|);
    DeliveredSplit(items, 0, |items|, n - |items|);
    assert d == front + back;
    DeliveredRest(items, 0);
    assert items[0..] == items;
    DeliveredPastEnd(items, |items|, n - |items|);
    ValuesOfNones(back);
    ValuesAppend(front, back);
    assert Values(d) == items + [];
  }

  /**
   * The test's assertion: when the items are pairwise distinct, each of
   * them is returned exactly once by the gets of a drained reader.
   */
  lemma SeenExactlyOnce<T>(items: seq<T>, n: nat)
    requires n >= |items|
    requires forall i, j :: 0 <= i < j < |items| ==> items[i] != items[j]
    ensures forall k :: 0 <= k < |items| ==> multiset(Values(Delivered(items, 0, n)))[items[k]] == 1
  {
    DrainFromFresh(items, n);
    forall k | 0 <= k < |items|
      ensures multiset(items)[items[k]] == 1
    {
      CountDistinct(items, k);
    }
  }

  lemma {:induction false} CountDistinct<T>(items: seq<T>, k: nat)
    requires k < |items|
    requires forall i, j :: 0 <= i < j < |items| ==> items[i] != items[j]
    ensures multiset(items)[items[k]] == 1
  {
    var x := items[k];
    assert items == items[..k] + [x] + items[k + 1..];
    assert x !in items[..k] by {
      forall i | 0 <= i < k ensures items[..k][i] != x { assert items[..k][i] == items[i]; }
    }
    var rest := items[k + 1..];
    assert x !in rest by {
      forall i | 0 <= i < |rest| ensures rest[i] != x { assert rest[i] == items[k + 1 + i]; }
    }
    assert multiset(items) == multiset(items[..k]) + multiset{x} + multiset(rest);
  }

  /** A reader over an unchanging vector with a shared cursor. */
  class VecReader<T> {
    const items: seq<T>
    var index: nat

    /** `VecReader::new`: store the items unchanged and start at index 0. */
    constructor (items: seq<T>)
      ensures this.items == items && index == 0
    {
      this.items := items;
      index := 0;
    }

    /**
     * `get`: the element at the current index, or None past the end; the
     * index advances by one either way.
     */
    method Get() returns (item: Option<T>)
      modifies this`index
      ensures index == old(index) + 1
      ensures old(index) < |items| ==> item == Some(items[old(index)])
      ensures old(index) >= |items| ==> item == None
    {
      item := ItemAt(items, index);
      index := index + 1;
    }
  }

  /**
   * One reading thread of the test run alone: `get` until None. From a
   * fresh reader it collects exactly the items, in order.
   */
  method ReadAll<T>(reader: VecReader<T>) returns (readValues: seq<T>)
    requires reader.index == 0
    modifies reader
    ensures readValues == reader.items == Values(Delivered(reader.items, 0, reader.index))
    ensures reader.index == |reader.items| + 1
  {
    readValues := [];
    var value := reader.Get();
    while value.Some?
      invariant reader.index == |readValues| + 1 <= |reader.items| + 1
      invariant readValues == reader.items[..|readValues|]
      invariant value.Some? <==> |readValues| < |reader.items|
      invariant value.Some? ==> value.value == reader.items[|readValues|]
      decreases |reader.items| - |readValues|
    {
      readValues := readValues + [value.value];
      value := reader.Get();
    }
    assert reader.items[..|reader.items|] == reader.items;
    DrainFromFresh(reader.items, reader.index);
  }
}
