/**
 * The option-list repair of deleteExtraTops.py (and its copy
 * Sorter/deleteExtraTops.py): collect the `Alex Top` labels the pages use,
 * sorted, and re-add them to the select property in chunks of 100.  The
 * database calls are reduced to the option lists they would send.
 */
module ExtraTops {
  import opened Wrappers
  import opened Pages
  import opened Text

  // ---------------------------------------------------------------------
  // `get_used_alex_top_values`

  /** Some page has the option `v` chosen in its `Alex Top` select. */
  predicate UsedOn(pages: seq<Page>, v: string)
  {
    exists i :: 0 <= i < |pages| && pages[i].alexTop == Choice(v)
  }

  /** Ascending in Python's string order, each string once. */
  predicate StrictlySorted(r: seq<string>)
  {
    forall i, j :: 0 <= i < j < |r| ==> LexLess(r[i], r[j])
  }

  predicate IsLeast(m: string, s: set<string>)
  {
    m in s && forall y :: y in s ==> !LexLess(y, m)
  }

  lemma LeastExists(s: set<string>)
    requires s != {}
    ensures exists m :: IsLeast(m, s)
  {
    var m := Least(s);
    assert IsLeast(m, s);
  }

  lemma LeastUnique(s: set<string>)
    ensures forall a, b :: IsLeast(a, s) && IsLeast(b, s) ==> a == b
  {
    forall a, b | IsLeast(a, s) && IsLeast(b, s) ensures a == b {
      LexTotal(a, b);
    }
  }

  /** `sorted(s)` for a set of strings: its least element, then the rest sorted. */
  function SortedSet(s: set<string>): (r: seq<string>)
    ensures |r| == |s| && StrictlySorted(r)
    ensures forall x :: x in r <==> x in s
    decreases |s|
  {
    if s == {} then []
    else
      LeastExists(s);
      LeastUnique(s);
      var m :| IsLeast(m, s);
      var rest := SortedSet(s - {m});
      assert forall j :: 0 <= j < |rest| ==> LexLess(m, rest[j]) by {
        forall j | 0 <= j < |rest| ensures LexLess(m, rest[j]) {
          assert rest[j] in rest;
          LexTotal(m, rest[j]);
        }
      }
      [m] + rest
  }

  /** Sorting is determined: two ascending lists of the same strings are one list. */
  lemma SameMembersEmpty(a: seq<string>, b: seq<string>)
    requires forall x :: x in a <==> x in b
    ensures a == [] <==> b == []
  {
    if a != [] {
      assert a[0] in a;
    }
    if b != [] {
      assert b[0] in b;
    }
  }

  lemma {:induction false} SortedUnique(a: seq<string>, b: seq<string>)
    requires StrictlySorted(a) && StrictlySorted(b)
    requires forall x :: x in a <==> x in b
    ensures a == b
  {
    SameMembersEmpty(a, b);
    if a != [] {
      assert a[0] in a && b[0] in b;
      assert a[0] == b[0] by {
        if a[0] != b[0] {
          var i :| 0 <= i < |b| && b[i] == a[0];
          var j :| 0 <= j < |a| && a[j] == b[0];
          LexAsymmetric(b[0], b[i]);
        }
      }
      forall x ensures x in a[1..] <==> x in b[1..] {
        if x in a[1..] {
          var i :| 1 <= i < |a| && a[i] == x;
          LexIrreflexive(a[0]);
          assert x in b;
          var j :| 0 <= j < |b| && b[j] == x;
          assert b[1..][j - 1] == x;
        }
        if x in b[1..] {
          var i :| 1 <= i < |b| && b[i] == x;
          LexIrreflexive(b[0]);
          assert x in a;
          var j :| 0 <= j < |a| && a[j] == x;
          assert a[1..][j - 1] == x;
        }
      }
      SortedUnique(a[1..], b[1..]);
      assert a == [a[0]] + a[1..] && b == [b[0]] + b[1..];
    }
  }

  /**
   * `get_used_alex_top_values`: the names of the `Alex Top` options chosen on
   * some page, each once, ascending in string order.  A page whose select
   * is missing or null adds nothing.
   */
  method GetUsedAlexTopValues(pages: seq<Page>) returns (r: seq<string>)
    ensures StrictlySorted(r)
    ensures forall v :: v in r <==> UsedOn(pages, v)
  {
    var used: set<string> := {};
    for i := 0 to |pages|
      invariant forall v :: v in used <==> UsedOn(pages[..i], v)
    {
      if pages[i].alexTop.Choice? {
        used := used + {pages[i].alexTop.name};
      }
      assert forall v :: UsedOn(pages[..i + 1], v) <==> UsedOn(pages[..i], v) || pages[i].alexTop == Choice(v) by {
        forall v ensures UsedOn(pages[..i + 1], v) <==> UsedOn(pages[..i], v) || pages[i].alexTop == Choice(v) {
          if UsedOn(pages[..i + 1], v) {
            var j :| 0 <= j < i + 1 && pages[..i + 1][j].alexTop == Choice(v);
            if j < i {
              assert pages[..i][j] == pages[j];
            }
          }
          if UsedOn(pages[..i], v) {
            var j :| 0 <= j < i && pages[..i][j].alexTop == Choice(v);
            assert pages[..i + 1][j] == pages[j];
          }
          if pages[i].alexTop == Choice(v) {
            assert pages[..i + 1][i] == pages[i];
          }
        }
      }
    }
    assert pages[..|pages|] == pages;
    r := SortedSet(used);
  }

  /** A label used on several pages is listed once, and "10" sorts before "9". */
  lemma UsedValuesExample(pages: seq<Page>, r: seq<string>)
    requires |pages| == 3
    requires pages[0].alexTop == Choice("9") && pages[1].alexTop == Choice("10") && pages[2].alexTop == Choice("9")
    requires StrictlySorted(r) && forall v :: v in r <==> UsedOn(pages, v)
    ensures r == ["10", "9"]
  {
    assert UsedOn(pages, "9") && UsedOn(pages, "10");
    forall x ensures x in r <==> x in ["10", "9"] {
      if UsedOn(pages, x) {
        var i :| 0 <= i < |pages| && pages[i].alexTop == Choice(x);
      }
    }
    assert LexLess("10", "9");
    SortedUnique(r, ["10", "9"]);
  }

  // ---------------------------------------------------------------------
  // `chunked`

  function Min(a: int, b: int): int
  {
    if a < b then a else b
  }

  /** The slices `lst[i:i+size]` for `i` in `range(start, len(lst), size)`, with a positive `size`. */
  function ChunksFrom<T>(lst: seq<T>, size: nat, start: nat): seq<seq<T>>
    requires size > 0
    decreases |lst| - start
  {
    if start >= |lst| then []
    else [lst[start..Min(start + size, |lst|)]] + ChunksFrom(lst, size, start + size)
  }

  /**
   * `chunked(lst, size)`, its generator drained into a list.  `range` with a
   * zero step raises `ValueError`; a negative step counting up from 0 yields
   * nothing.
   */
  function Chunked<T>(lst: seq<T>, size: int): (r: Result<seq<seq<T>>, string>)
    ensures r.Failure? <==> size == 0
    ensures size < 0 ==> r == Success([])
  {
    if size == 0 then Failure("range() arg 3 must not be zero")
    else if size < 0 then Success([])
    else Success(ChunksFrom(lst, size, 0))
  }

  /** The concatenation of a list of lists. */
  function Flatten<T>(xs: seq<seq<T>>): seq<T>
  {
    if xs == [] then [] else xs[0] + Flatten(xs[1..])
  }

  lemma MulSucc(k: int, size: int)
    ensures (k + 1) * size == k * size + size
  {
  }

  lemma MulMonotone(a: nat, b: nat, size: nat)
    requires a <= b
    ensures a * size <= b * size
  {
  }

  /** The bounds `(n - 1) * size < len <= n * size` pin `n` down as ceil(len/size). */
  lemma CeilDiv(len: nat, size: nat, n: nat)
    requires size > 0
    requires n == 0 ==> len == 0
    requires n > 0 ==> (n - 1) * size < len <= n * size
    ensures (len + size - 1) / size == n
  {
    var a := len + size - 1;
    var q := a / size;
    assert q * size <= a < q * size + size;
    MulSucc(q, size);
    if n > 0 {
      MulSucc(n - 1, size);
    }
    if q < n {
      MulMonotone(q + 1, n, size);
    } else if q > n {
      MulMonotone(n + 1, q, size);
      MulSucc(n, size);
    }
  }

  lemma {:induction false} ChunksFlatten<T>(lst: seq<T>, size: nat, start: nat)
    requires size > 0 && start <= |lst|
    ensures Flatten(ChunksFrom(lst, size, start)) == lst[start..]
    decreases |lst| - start
  {
    if start < |lst| {
      var next := start + size;
      var cs, rest := ChunksFrom(lst, size, start), ChunksFrom(lst, size, next);
      assert cs[1..] == rest;
      if next <= |lst| {
        ChunksFlatten(lst, size, next);
        assert lst[start..] == lst[start..next] + lst[next..];
      } else {
        assert rest == [];
      }
    }
  }

  lemma {:induction false} ChunksCount<T>(lst: seq<T>, size: nat, start: nat)
    requires size > 0 && start <= |lst|
    ensures var n := |ChunksFrom(lst, size, start)|;
      && (n == 0 <==> start == |lst|)
      && (n != 0 ==> start + (n - 1) * size < |lst| <= start + n * size)
    decreases |lst| - start
  {
    if start + size <= |lst| {
      var n := |ChunksFrom(lst, size, start + size)|;
      ChunksCount(lst, size, start + size);
      if n != 0 {
        MulSucc(n - 1, size);
        MulSucc(n, size);
      }
    }
  }

  lemma {:induction false} ChunksSlices<T>(lst: seq<T>, size: nat, start: nat)
    requires size > 0 && start <= |lst|
    ensures var cs := ChunksFrom(lst, size, start);
      forall k :: 0 <= k < |cs| ==>
        start + k * size < |lst| && cs[k] == lst[start + k * size .. Min(start + (k + 1) * size, |lst|)]
    decreases |lst| - start
  {
    var cs := ChunksFrom(lst, size, start);
    if start < |lst| {
      var next := start + size;
      var rest := ChunksFrom(lst, size, next);
      if next <= |lst| {
        ChunksSlices(lst, size, next);
      }
      forall k | 0 <= k < |cs|
        ensures start + k * size < |lst| && cs[k] == lst[start + k * size .. Min(start + (k + 1) * size, |lst|)]
      {
        if k > 0 {
          assert cs[k] == rest[k - 1];
          MulSucc(k - 1, size);
          MulSucc(k, size);
        }
      }
    }
  }

  /**
   * What `chunked` yields with a positive size: the chunks put back together
   * are the list; the k-th chunk is the slice starting at `k * size`; and
   * there are ceil(len/size) of them, stated as
   * `(n - 1) * size < len <= n * size`.
   */
  lemma ChunkedFacts<T>(lst: seq<T>, size: int)
    requires size > 0
    ensures Chunked(lst, size).Success?
    ensures var cs := Chunked(lst, size).value;
      && Flatten(cs) == lst
      && (cs == [] <==> lst == [])
      && (cs != [] ==> (|cs| - 1) * size < |lst| <= |cs| * size)
      && forall k :: 0 <= k < |cs| ==> k * size < |lst| && cs[k] == lst[k * size .. Min((k + 1) * size, |lst|)]
  {
    ChunksFlatten(lst, size, 0);
    ChunksCount(lst, size, 0);
    ChunksSlices(lst, size, 0);
  }

  lemma {:induction false} ChunksSizes<T>(lst: seq<T>, size: nat, start: nat)
    requires size > 0 && start <= |lst|
    ensures forall k :: 0 <= k < |ChunksFrom(lst, size, start)| ==>
      0 < |ChunksFrom(lst, size, start)[k]| <= size &&
      (k < |ChunksFrom(lst, size, start)| - 1 ==> |ChunksFrom(lst, size, start)[k]| == size)
    decreases |lst| - start
  {
    if start < |lst| {
      var cs, rest := ChunksFrom(lst, size, start), ChunksFrom(lst, size, start + size);
      assert cs == [lst[start..Min(start + size, |lst|)]] + rest;
      if start + size <= |lst| {
        ChunksSizes(lst, size, start + size);
      }
      assert rest != [] <==> start + size < |lst|;
      forall k | 0 <= k < |cs| ensures 0 < |cs[k]| <= size && (k < |cs| - 1 ==> |cs[k]| == size) {
        if k > 0 {
          assert cs[k] == rest[k - 1];
        }
      }
    }
  }

  /** `chunked` yields ceil(len/size) chunks. */
  lemma ChunkCount<T>(lst: seq<T>, size: int)
    requires size > 0
    ensures Chunked(lst, size).Success?
    ensures |Chunked(lst, size).value| == (|lst| + size - 1) / size
  {
    ChunkedFacts(lst, size);
    CeilDiv(|lst|, size, |Chunked(lst, size).value|);
  }

  /** Every chunk but the last holds exactly `size` items, and the last is non-empty. */
  lemma ChunkSizes<T>(lst: seq<T>, size: int)
    requires size > 0
    ensures Chunked(lst, size).Success?
    ensures var cs := Chunked(lst, size).value;
      && (forall k :: 0 <= k < |cs| - 1 ==> |cs[k]| == size)
      && (forall k :: 0 <= k < |cs| ==> 0 < |cs[k]| <= size)
  {
    ChunksSizes(lst, size, 0);
    assert Chunked(lst, size).value == ChunksFrom(lst, size, 0);
  }

  // ---------------------------------------------------------------------
  // `reset_and_rebuild_select_options`, database calls abstracted

  /** One option of a select property, `{"name": val}`. */
  datatype SelectOption = SelectOption(name: string)

  function Options(values: seq<string>): (r: seq<SelectOption>)
    ensures |r| == |values| && forall i :: 0 <= i < |values| ==> r[i] == SelectOption(values[i])
  {
    seq(|values|, i requires 0 <= i < |values| => SelectOption(values[i]))
  }

  lemma OptionsAppend(a: seq<string>, b: seq<string>)
    ensures Options(a + b) == Options(a) + Options(b)
  {
  }

  /**
   * The option lists the two steps send to the database, in order: first
   * the empty list that clears the property, then after each chunk of 100
   * the cumulative list so far.  After chunk k the list holds the first
   * `min(100k, n)` values as options, in order; the last holds them all.
   */
  method RebuildSelectOptions(values: seq<string>) returns (updates: seq<seq<SelectOption>>)
    ensures |updates| == 1 + (|values| + 99) / 100
    ensures updates[0] == []
    ensures forall k :: 1 <= k < |updates| ==> updates[k] == Options(values[..Min(100 * k, |values|)])
    ensures updates[|updates| - 1] == Options(values)
  {
    updates := [[]];
    ChunkedFacts(values, 100);
    ChunkCount(values, 100);
    var chunks := Chunked(values, 100).value;
    var cumulative: seq<SelectOption> := [];
    for idx := 0 to |chunks|
      invariant |updates| == idx + 1 && updates[0] == []
      invariant cumulative == Options(values[..Min(100 * idx, |values|)])
      invariant forall k :: 1 <= k <= idx ==> updates[k] == Options(values[..Min(100 * k, |values|)])
    {
      var lo, hi := idx * 100, Min((idx + 1) * 100, |values|);
      assert chunks[idx] == values[lo..hi];
      assert lo == Min(100 * idx, |values|) && hi == Min(100 * (idx + 1), |values|);
      assert values[..hi] == values[..lo] + chunks[idx];
      OptionsAppend(values[..lo], chunks[idx]);
      cumulative := cumulative + Options(chunks[idx]);
      updates := updates + [cumulative];
    }
    if |chunks| == 0 {
      assert values == [];
    } else {
      assert values[..Min(100 * |chunks|, |values|)] == values;
    }
  }
}
