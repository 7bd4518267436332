/**
 * The rank normaliser as pure functions over (item, rank) pairs.  The item
 * type is generic, so both versions of the normaliser (src/managers/sorter.py
 * and Sorter/AlbumsSorter.py) are proved against these functions.
 */
module Ranking {
  import opened Wrappers
  import opened Labels
  import opened Text

  /**
   * The `rating` attribute of an album: `None`, an `int` set by the parser or
   * a normaliser stage, or the `str` label the formatting stage puts there.
   */
  datatype Rating = Unrated | Num(n: nat) | Label(text: string)

  /** The integer rank of a rating, `None` when it has none. */
  function RankOf(r: Rating): Option<nat>
  {
    if r.Num? then Some(r.n) else None
  }

  /** `rating or 0`, the sort key of the Sorter/AlbumsSorter.py repair stage. */
  function RatingOrZero(r: Rating): nat
  {
    if r.Num? then r.n else 0
  }

  predicate Distinct<A(==)>(s: seq<A>)
  {
    forall i, j :: 0 <= i < j < |s| ==> s[i] != s[j]
  }

  predicate StrictlyIncreasing(ks: seq<nat>)
  {
    forall i, j :: 0 <= i < j < |ks| ==> ks[i] < ks[j]
  }

  predicate SortedByKey<A>(es: seq<(A, nat)>)
  {
    forall i, j :: 0 <= i < j < |es| ==> es[i].1 <= es[j].1
  }

  function Items<A, K>(es: seq<(A, K)>): seq<A>
  {
    seq(|es|, i requires 0 <= i < |es| => es[i].0)
  }

  function Keys<A>(es: seq<(A, nat)>): seq<nat>
  {
    seq(|es|, i requires 0 <= i < |es| => es[i].1)
  }

  function Zip<A>(xs: seq<A>, ks: seq<nat>): seq<(A, nat)>
    requires |xs| == |ks|
  {
    seq(|xs|, i requires 0 <= i < |xs| => (xs[i], ks[i]))
  }

  lemma ItemsAppend<A, K>(a: seq<(A, K)>, b: seq<(A, K)>)
    ensures Items(a + b) == Items(a) + Items(b)
  {
  }

  lemma ItemsCons<A, K>(e: (A, K), es: seq<(A, K)>)
    ensures Items([e] + es) == [e.0] + Items(es)
  {
  }

  lemma {:induction false} DistinctMultiset<A>(s: seq<A>)
    ensures Distinct(s) <==> forall x :: multiset(s)[x] <= 1
  {
    if s != [] {
      var h, t := s[0], s[1..];
      assert s == [h] + t;
      DistinctMultiset(t);
      if Distinct(s) {
        assert Distinct(t) by {
          forall i, j | 0 <= i < j < |t| ensures t[i] != t[j] {
            assert t[i] == s[i + 1] && t[j] == s[j + 1];
          }
        }
        forall j | 0 <= j < |t| ensures t[j] != h {
          assert t[j] == s[j + 1];
        }
      } else {
        var i, j :| 0 <= i < j < |s| && s[i] == s[j];
        if i == 0 {
          assert s[j] in t;
          assert multiset(s)[h] >= 2;
        } else {
          assert t[i - 1] == t[j - 1];
          assert !Distinct(t);
          var x :| multiset(t)[x] > 1;
          assert multiset(s)[x] >= multiset(t)[x];
        }
      }
    }
  }

  /** A list whose elements are drawn, without repetition, from a repetition-free list has no repetition. */
  lemma MultisetMembers<A>(a: seq<A>, b: seq<A>)
    requires multiset(a) <= multiset(b)
    ensures forall i :: 0 <= i < |a| ==> a[i] in b
  {
    forall i | 0 <= i < |a| ensures a[i] in b {
      assert a[i] in multiset(a);
    }
  }

  lemma DisjointMembers<A>(a: seq<A>, b: seq<A>, c: seq<A>)
    requires multiset(a) <= multiset(b)
    requires forall j, k :: 0 <= j < |b| && 0 <= k < |c| ==> b[j] != c[k]
    ensures forall i :: 0 <= i < |a| ==> a[i] !in c
  {
    MultisetMembers(a, b);
  }

  /** Sorting entries keeps their items apart from any list they were apart from. */
  lemma SortedApart<A>(es: seq<(A, nat)>, c: seq<A>)
    requires forall j, k :: 0 <= j < |es| && 0 <= k < |c| ==> es[j].0 != c[k]
    ensures forall i :: 0 <= i < |es| ==> Items(SortStable(es))[i] !in c
  {
    SortStableCorrect(es);
    forall j, k | 0 <= j < |es| && 0 <= k < |c| ensures Items(es)[j] != c[k] {
    }
    DisjointMembers(Items(SortStable(es)), Items(es), c);
  }

  lemma DistinctSub<A>(a: seq<A>, b: seq<A>)
    requires multiset(a) <= multiset(b) && Distinct(b)
    ensures Distinct(a)
  {
    DistinctMultiset(a);
    DistinctMultiset(b);
    forall x ensures multiset(a)[x] <= 1 {
      assert multiset(a)[x] <= multiset(b)[x];
    }
  }

  // ---------------------------------------------------------------------
  // Python's `sorted(..., key=...)` / `list.sort(key=...)`: a stable sort.

  /** Place `e` before the first entry whose key is at least its own. */
  function Insert<A>(e: (A, nat), es: seq<(A, nat)>): (r: seq<(A, nat)>)
    ensures |r| == |es| + 1
  {
    if es == [] || e.1 <= es[0].1 then [e] + es else [es[0]] + Insert(e, es[1..])
  }

  /** Stable sort by key: entries with equal keys keep their input order. */
  function SortStable<A>(es: seq<(A, nat)>): (r: seq<(A, nat)>)
    ensures |r| == |es|
  {
    if es == [] then [] else Insert(es[0], SortStable(es[1..]))
  }

  /** The entries of `es` whose key is `k`, in order. */
  function WithKey<A>(es: seq<(A, nat)>, k: nat): seq<(A, nat)>
  {
    if es == [] then []
    else if es[0].1 == k then [es[0]] + WithKey(es[1..], k)
    else WithKey(es[1..], k)
  }

  lemma {:induction false} InsertBounds<A>(e: (A, nat), es: seq<(A, nat)>, b: nat)
    requires e.1 >= b && forall j :: 0 <= j < |es| ==> es[j].1 >= b
    ensures |Insert(e, es)| == |es| + 1
    ensures forall j :: 0 <= j < |Insert(e, es)| ==> Insert(e, es)[j].1 >= b
  {
    if es != [] && e.1 > es[0].1 {
      InsertBounds(e, es[1..], b);
    }
  }

  lemma {:induction false} InsertSorted<A>(e: (A, nat), es: seq<(A, nat)>)
    requires SortedByKey(es)
    ensures |Insert(e, es)| == |es| + 1
    ensures SortedByKey(Insert(e, es))
  {
    if es != [] && e.1 > es[0].1 {
      InsertSorted(e, es[1..]);
      InsertBounds(e, es[1..], es[0].1);
    }
  }

  lemma {:induction false} InsertItems<A>(e: (A, nat), es: seq<(A, nat)>)
    ensures multiset(Items(Insert(e, es))) == multiset{e.0} + multiset(Items(es))
  {
    ItemsCons(e, es);
    if es != [] && e.1 > es[0].1 {
      InsertItems(e, es[1..]);
      ItemsCons(es[0], Insert(e, es[1..]));
      ItemsCons(es[0], es[1..]);
      assert es == [es[0]] + es[1..];
    }
  }

  lemma {:induction false} InsertPairs<A>(e: (A, nat), es: seq<(A, nat)>)
    ensures multiset(Insert(e, es)) == multiset{e} + multiset(es)
  {
    if es != [] && e.1 > es[0].1 {
      InsertPairs(e, es[1..]);
      assert es == [es[0]] + es[1..];
    }
  }

  lemma {:induction false} InsertWithKey<A>(e: (A, nat), es: seq<(A, nat)>, k: nat)
    requires SortedByKey(es)
    ensures WithKey(Insert(e, es), k) == if e.1 == k then [e] + WithKey(es, k) else WithKey(es, k)
  {
    if es != [] && e.1 > es[0].1 {
      InsertWithKey(e, es[1..], k);
      var r := Insert(e, es);
      assert r == [es[0]] + Insert(e, es[1..]);
      assert r[1..] == Insert(e, es[1..]);
      if e.1 == k {
        assert WithKey(es, k) == WithKey(es[1..], k);
      }
    } else {
      assert ([e] + es)[1..] == es;
    }
  }

  /**
   * Python's sort contract: the result is ordered by key, holds the same
   * items, and among entries with one key keeps their input order.
   */
  lemma {:induction false} SortStableCorrect<A>(es: seq<(A, nat)>)
    ensures |SortStable(es)| == |es|
    ensures SortedByKey(SortStable(es))
    ensures multiset(SortStable(es)) == multiset(es)
    ensures multiset(Items(SortStable(es))) == multiset(Items(es))
    ensures forall k :: WithKey(SortStable(es), k) == WithKey(es, k)
  {
    if es != [] {
      var rest := SortStable(es[1..]);
      SortStableCorrect(es[1..]);
      InsertSorted(es[0], rest);
      InsertItems(es[0], rest);
      InsertPairs(es[0], rest);
      ItemsCons(es[0], es[1..]);
      assert es == [es[0]] + es[1..];
      forall k ensures WithKey(SortStable(es), k) == WithKey(es, k) {
        InsertWithKey(es[0], rest, k);
      }
    }
  }

  /** Sorting a list that is already in key order changes nothing. */
  lemma {:induction false} SortStableOfSorted<A>(es: seq<(A, nat)>)
    requires SortedByKey(es)
    ensures SortStable(es) == es
  {
    if es != [] {
      SortStableOfSorted(es[1..]);
      assert es == [es[0]] + es[1..];
    }
  }

  // ---------------------------------------------------------------------
  // The duplicate repair of `_ensure_unique_ratings`.

  /**
   * The ranks the repair loop assigns after the first, given the running
   * `last_rating`: a rank not above `last` becomes `last + 1`.
   */
  function BumpAfter(last: nat, ks: seq<nat>): (r: seq<nat>)
    ensures |r| == |ks|
    decreases ks
  {
    if ks == [] then []
    else
      var v := if ks[0] <= last then last + 1 else ks[0];
      [v] + BumpAfter(v, ks[1..])
  }

  /** The repair of a list of ranks: the first is kept, the rest run through `BumpAfter`. */
  function Bump(ks: seq<nat>): (r: seq<nat>)
    ensures |r| == |ks|
  {
    if ks == [] then [] else [ks[0]] + BumpAfter(ks[0], ks[1..])
  }

  function Max(a: nat, b: nat): nat
  {
    if a < b then b else a
  }

  lemma {:induction false} BumpAfterAt(last: nat, ks: seq<nat>, i: nat)
    requires i < |ks|
    ensures |BumpAfter(last, ks)| == |ks|
    ensures BumpAfter(last, ks)[i] == Max(ks[i], (if i == 0 then last else BumpAfter(last, ks)[i - 1]) + 1)
    decreases |ks|
  {
    var v := if ks[0] <= last then last + 1 else ks[0];
    if i > 0 {
      BumpAfterAt(v, ks[1..], i - 1);
      if i > 1 {
        BumpAfterAt(v, ks[1..], i - 2);
      }
    } else if |ks| > 1 {
      BumpAfterAt(v, ks[1..], 0);
    }
  }

  /**
   * The repair rule: the first rank is unchanged and every later one is the
   * larger of its own rank and one more than the repaired rank before it.
   */
  lemma BumpAt(ks: seq<nat>, i: nat)
    requires i < |ks|
    ensures |Bump(ks)| == |ks|
    ensures i == 0 ==> Bump(ks)[i] == ks[0]
    ensures i > 0 ==> Bump(ks)[i] == Max(ks[i], Bump(ks)[i - 1] + 1)
  {
    if i > 0 {
      BumpAfterAt(ks[0], ks[1..], i - 1);
    } else if |ks| > 1 {
      BumpAfterAt(ks[0], ks[1..], 0);
    }
  }

  /** The repaired ranks are pairwise distinct, ascending, and never below the originals. */
  lemma BumpIncreasing(ks: seq<nat>)
    ensures |Bump(ks)| == |ks|
    ensures StrictlyIncreasing(Bump(ks))
    ensures forall i :: 0 <= i < |ks| ==> ks[i] <= Bump(ks)[i]
  {
    var b := Bump(ks);
    forall i | 0 <= i < |ks| ensures ks[i] <= b[i] && (i > 0 ==> b[i - 1] < b[i]) {
      BumpAt(ks, i);
      if i > 0 {
        BumpAt(ks, i - 1);
      }
    }
    AdjacentIncreasing(b);
  }

  lemma {:induction false} AdjacentIncreasing(ks: seq<nat>)
    requires forall i :: 0 < i < |ks| ==> ks[i - 1] < ks[i]
    ensures StrictlyIncreasing(ks)
  {
    if |ks| > 1 {
      var t := ks[..|ks| - 1];
      AdjacentIncreasing(t);
      forall i | 0 <= i < |ks| - 1 ensures ks[i] < ks[|ks| - 1] {
        assert ks[i] == t[i];
        if i < |ks| - 2 {
          assert t[i] < t[|ks| - 2];
        }
      }
    }
  }

  /**
   * The repair disturbs the ranks as little as possible: any ascending list of
   * distinct ranks that keeps every album at or above its own rank is, at
   * every position, at least the repaired rank.
   */
  lemma {:induction false} BumpLeast(ks: seq<nat>, t: seq<nat>, i: nat)
    requires |t| == |ks| && StrictlyIncreasing(t)
    requires forall j :: 0 <= j < |ks| ==> ks[j] <= t[j]
    requires i < |ks|
    ensures Bump(ks)[i] <= t[i]
  {
    BumpAt(ks, i);
    if i > 0 {
      BumpLeast(ks, t, i - 1);
    }
  }

  /** Ranks that are already distinct and ascending pass through the repair unchanged. */
  lemma BumpOfIncreasing(ks: seq<nat>)
    requires StrictlyIncreasing(ks)
    ensures Bump(ks) == ks
  {
    BumpIncreasing(ks);
    forall i | 0 <= i < |ks| ensures Bump(ks)[i] == ks[i] {
      BumpAt(ks, i);
      BumpLeast(ks, ks, i);
    }
  }

  /** Repairing twice is repairing once. */
  lemma BumpIdempotent(ks: seq<nat>)
    ensures Bump(Bump(ks)) == Bump(ks)
  {
    BumpIncreasing(ks);
    BumpOfIncreasing(Bump(ks));
  }

  // ---------------------------------------------------------------------
  // Default ranks, the maximum, and the whole pipeline.

  /** `max(ks, default=0)` */
  function MaxOr0(ks: seq<nat>): (m: nat)
    ensures forall i :: 0 <= i < |ks| ==> ks[i] <= m
    ensures ks != [] ==> exists i :: 0 <= i < |ks| && ks[i] == m
    ensures ks == [] ==> m == 0
  {
    if ks == [] then 0
    else
      var m := MaxOr0(ks[..|ks| - 1]);
      assert forall i :: 0 <= i < |ks| - 1 ==> ks[..|ks| - 1][i] == ks[i];
      if ks[|ks| - 1] < m then m else ks[|ks| - 1]
  }

  /** `_assign_default_ratings`: the i-th entry of `xs` gets rank `start + i`. */
  function Defaults<A>(xs: seq<A>, start: nat): seq<(A, nat)>
  {
    seq(|xs|, i requires 0 <= i < |xs| => (xs[i], start + i))
  }

  /** `[a for a in listened if a.is_rated]`, with each album's rank beside it. */
  function RatedPart<A>(es: seq<(A, Option<nat>)>): (r: seq<(A, nat)>)
    ensures forall j :: 0 <= j < |r| ==> (r[j].0, Some(r[j].1)) in es
  {
    if es == [] then []
    else
      var rest := RatedPart(es[1..]);
      assert forall j :: 0 <= j < |rest| ==> (rest[j].0, Some(rest[j].1)) in es by {
        forall j | 0 <= j < |rest| ensures (rest[j].0, Some(rest[j].1)) in es {
          assert (rest[j].0, Some(rest[j].1)) in es[1..];
        }
      }
      if es[0].1.Some? then [(es[0].0, es[0].1.value)] + rest else rest
  }

  /** `[a for a in listened if not a.is_rated]` */
  function UnratedPart<A>(es: seq<(A, Option<nat>)>): (r: seq<A>)
    ensures forall j :: 0 <= j < |r| ==> (r[j], None) in es
  {
    if es == [] then []
    else
      var rest := UnratedPart(es[1..]);
      assert forall j :: 0 <= j < |rest| ==> (rest[j], None) in es by {
        forall j | 0 <= j < |rest| ensures (rest[j], None) in es {
          assert (rest[j], None) in es[1..];
        }
      }
      if es[0].1.None? then [es[0].0] + rest else rest
  }

  /** Stages 3 of the pipeline: the rated entries sorted by rank, ranks repaired. */
  function Repaired<A>(rated: seq<(A, nat)>): seq<(A, nat)>
  {
    var s := SortStable(rated);
    Zip(Items(s), Bump(Keys(s)))
  }

  /**
   * The normaliser on the listened albums of one fetch, in fetch order, each
   * with its parsed rank: repair the rated ones, give the unrated ones the
   * ranks after the highest, concatenate, and sort by rank.  The result lists
   * each album with its final integer rank, in output order.
   */
  function NormalizeSpec<A>(es: seq<(A, Option<nat>)>): seq<(A, nat)>
  {
    SortStable(Merged(es))
  }

  /** `rated + unrated` after stages 3 and 4: the repaired entries, then the defaulted ones. */
  function Merged<A>(es: seq<(A, Option<nat>)>): seq<(A, nat)>
  {
    var repaired := Repaired(RatedPart(es));
    repaired + Defaults(UnratedPart(es), MaxOr0(Keys(repaired)) + 1)
  }

  /** The label width chosen from the largest rank and the number of albums. */
  function Width(maxRank: nat, count: nat): (w: nat)
    ensures w == 2 || w == 3
    ensures maxRank < 1000 ==> maxRank < Pow10(w)
    ensures count < 1000 ==> count < Pow10(w)
  {
    if maxRank > 99 || count > 99 then 3 else 2
  }

  /** The label width `_compact_ratings` and the compact policy use: from the count alone. */
  function CompactWidth(count: nat): (w: nat)
    ensures w == 2 || w == 3
    ensures count < 1000 ==> count < Pow10(w)
  {
    if count > 99 then 3 else 2
  }

  /** The width the formatting stage uses for a normalised list (unused when it is empty). */
  function PlanWidth<A>(plan: seq<(A, nat)>): nat
  {
    if plan == [] then 2 else Width(plan[|plan| - 1].1, |plan|)
  }

  // ---------------------------------------------------------------------
  // Properties of the pipeline.

  lemma {:induction false} PartsSize<A>(es: seq<(A, Option<nat>)>)
    ensures |RatedPart(es)| + |UnratedPart(es)| == |es|
    ensures multiset(Items(RatedPart(es))) + multiset(UnratedPart(es)) == multiset(Items(es))
  {
    if es != [] {
      PartsSize(es[1..]);
      ItemsCons(es[0], es[1..]);
      assert es == [es[0]] + es[1..];
      if es[0].1.Some? {
        ItemsCons((es[0].0, es[0].1.value), RatedPart(es[1..]));
      }
    }
  }

  /** Splitting a repetition-free list into its rated and unrated parts repeats nothing. */
  lemma PartsDistinct<A>(es: seq<(A, Option<nat>)>)
    requires Distinct(Items(es))
    ensures Distinct(Items(RatedPart(es))) && Distinct(UnratedPart(es))
  {
    PartsSize(es);
    DistinctSub(Items(RatedPart(es)), Items(es));
    DistinctSub(UnratedPart(es), Items(es));
  }

  lemma RepairedFacts<A>(rated: seq<(A, nat)>)
    ensures |Repaired(rated)| == |rated|
    ensures Items(Repaired(rated)) == Items(SortStable(rated))
    ensures Keys(Repaired(rated)) == Bump(Keys(SortStable(rated)))
    ensures StrictlyIncreasing(Keys(Repaired(rated)))
    ensures multiset(Items(Repaired(rated))) == multiset(Items(rated))
  {
    SortStableCorrect(rated);
    BumpIncreasing(Keys(SortStable(rated)));
  }

  lemma IncreasingIsSorted<A>(es: seq<(A, nat)>)
    requires StrictlyIncreasing(Keys(es))
    ensures SortedByKey(es)
  {
    forall i, j | 0 <= i < j < |es| ensures es[i].1 <= es[j].1 {
      assert Keys(es)[i] < Keys(es)[j];
    }
  }

  /**
   * The final sort of `process_albums` is redundant: the repaired rated
   * albums, followed by the unrated ones with their default ranks, are
   * already in strictly ascending rank order.
   */
  lemma NormalizeShape<A>(es: seq<(A, Option<nat>)>)
    ensures NormalizeSpec(es) == Merged(es)
    ensures StrictlyIncreasing(Keys(Merged(es)))
  {
    MergedIncreasing(es);
    IncreasingIsSorted(Merged(es));
    SortStableOfSorted(Merged(es));
  }

  lemma MergedIncreasing<A>(es: seq<(A, Option<nat>)>)
    ensures StrictlyIncreasing(Keys(Merged(es)))
  {
    var rs := SortStable(RatedPart(es));
    var b := Bump(Keys(rs));
    MergedSplit(es, rs, b, UnratedPart(es));
    BumpIncreasing(Keys(rs));
    var m := Merged(es);
    var n := |rs|;
    forall i, j | 0 <= i < j < |m| ensures Keys(m)[i] < Keys(m)[j] {
      if j < n {
        assert b[i] < b[j];
      } else if i < n {
        assert b[i] <= MaxOr0(b);
      }
    }
  }


  /**
   * `Merged` entry by entry: first the stably sorted rated entries with their
   * repaired ranks, then the unrated ones, in fetch order, numbered on from
   * one past the highest repaired rank.
   */
  lemma MergedSplit<A>(es: seq<(A, Option<nat>)>, rs: seq<(A, nat)>, b: seq<nat>, u: seq<A>)
    requires rs == SortStable(RatedPart(es)) && b == Bump(Keys(rs)) && u == UnratedPart(es)
    ensures |Merged(es)| == |rs| + |u|
    ensures Items(Merged(es)) == Items(rs) + u
    ensures forall i :: 0 <= i < |rs| ==> Merged(es)[i].1 == b[i]
    ensures forall i :: |rs| <= i < |Merged(es)| ==> Merged(es)[i].1 == MaxOr0(b) + 1 + (i - |rs|)
  {
    var repaired := Zip(Items(rs), b);
    ZipParts(Items(rs), b);
    var defaults := Defaults(u, MaxOr0(b) + 1);
    DefaultsParts(u, MaxOr0(b) + 1);
    assert Merged(es) == repaired + defaults;
    ItemsAppend(repaired, defaults);
  }

  lemma ZipParts<A>(xs: seq<A>, ks: seq<nat>)
    requires |xs| == |ks|
    ensures Items(Zip(xs, ks)) == xs && Keys(Zip(xs, ks)) == ks
  {
  }

  lemma DefaultsParts<A>(xs: seq<A>, start: nat)
    ensures |Defaults(xs, start)| == |xs| && Items(Defaults(xs, start)) == xs
    ensures forall k :: 0 <= k < |xs| ==> Defaults(xs, start)[k].1 == start + k
  {
  }

  lemma MergedFacts<A>(es: seq<(A, Option<nat>)>)
    ensures var repaired := Repaired(RatedPart(es));
      && |repaired| == |RatedPart(es)|
      && Merged(es)[..|repaired|] == repaired
      && Items(Merged(es)[|repaired|..]) == UnratedPart(es)
      && |Merged(es)| == |es|
      && multiset(Items(Merged(es))) == multiset(Items(es))
  {
    var rs := SortStable(RatedPart(es));
    var b := Bump(Keys(rs));
    var u := UnratedPart(es);
    var repaired := Repaired(RatedPart(es));
    var defaults := Defaults(u, MaxOr0(Keys(repaired)) + 1);
    assert Merged(es) == repaired + defaults;
    assert Merged(es)[..|repaired|] == repaired;
    assert Merged(es)[|repaired|..] == defaults;
    DefaultsParts(u, MaxOr0(Keys(repaired)) + 1);
    MergedSplit(es, rs, b, u);
    assert |rs| == |RatedPart(es)| && |repaired| == |rs|;
    assert multiset(Items(rs)) == multiset(Items(RatedPart(es))) by {
      SortStableCorrect(RatedPart(es));
    }
    PartsSize(es);
  }

  /**
   * What `process_albums` promises about membership and order: every listened
   * album appears exactly once and nothing else does, and the ranks are
   * pairwise distinct and ascending.
   */
  lemma NormalizePermutation<A>(es: seq<(A, Option<nat>)>)
    ensures |NormalizeSpec(es)| == |es|
    ensures multiset(Items(NormalizeSpec(es))) == multiset(Items(es))
    ensures StrictlyIncreasing(Keys(NormalizeSpec(es)))
  {
    NormalizeShape(es);
    MergedFacts(es);
  }

  /** The normalised list draws its albums from the input, without repeating any. */
  lemma NormalizeMembers<A>(es: seq<(A, Option<nat>)>)
    ensures forall i :: 0 <= i < |NormalizeSpec(es)| ==> Items(NormalizeSpec(es))[i] in Items(es)
    ensures Distinct(Items(es)) ==> Distinct(Items(NormalizeSpec(es)))
  {
    NormalizePermutation(es);
    MultisetMembers(Items(NormalizeSpec(es)), Items(es));
    if Distinct(Items(es)) {
      DistinctSub(Items(NormalizeSpec(es)), Items(es));
    }
  }

  /**
   * The rated albums come first, stably sorted by their original rank, each
   * ranked at or above that original rank.
   */
  lemma NormalizeRatedFirst<A>(es: seq<(A, Option<nat>)>)
    ensures var r, rated := NormalizeSpec(es), SortStable(RatedPart(es));
      && |rated| <= |r|
      && Items(r[..|rated|]) == Items(rated)
      && (forall i :: 0 <= i < |rated| ==> rated[i].1 <= r[i].1)
  {
    var repaired := Repaired(RatedPart(es));
    var rated := SortStable(RatedPart(es));
    var r := NormalizeSpec(es);
    NormalizeShape(es);
    MergedFacts(es);
    RepairedFacts(RatedPart(es));
    BumpIncreasing(Keys(rated));
    assert r[..|rated|] == repaired;
    forall i | 0 <= i < |rated| ensures rated[i].1 <= r[i].1 {
      assert Keys(rated)[i] <= Bump(Keys(rated))[i];
      assert Keys(repaired)[i] == r[i].1;
    }
  }

  /** The unrated albums follow the rated ones, in fetch order. */
  lemma NormalizeUnratedInFetchOrder<A>(es: seq<(A, Option<nat>)>)
    ensures var r, nRated := NormalizeSpec(es), |RatedPart(es)|;
      nRated <= |r| && Items(r[nRated..]) == UnratedPart(es)
  {
    NormalizeShape(es);
    MergedFacts(es);
  }

  /**
   * The unrated albums get the ranks just above the highest repaired rank,
   * one apart (1, 2, ... when nothing was rated).
   */
  lemma NormalizeDefaultRanks<A>(es: seq<(A, Option<nat>)>)
    ensures var r, nRated := NormalizeSpec(es), |RatedPart(es)|;
      && nRated <= |r|
      && forall k :: nRated <= k < |r| ==>
           r[k].1 == (if nRated == 0 then 0 else r[nRated - 1].1) + 1 + (k - nRated)
  {
    var rs := SortStable(RatedPart(es));
    var b := Bump(Keys(rs));
    NormalizeShape(es);
    MergedSplit(es, rs, b, UnratedPart(es));
    var n := |rs|;
    var highest := if n == 0 then 0 else Merged(es)[n - 1].1;
    assert MaxOr0(b) == highest by {
      if n > 0 {
        BumpIncreasing(Keys(rs));
        MaxOfIncreasing(b);
      }
    }
  }

  /** Every formerly unrated album ranks above every rated one. */
  lemma NormalizeUnratedAbove<A>(es: seq<(A, Option<nat>)>)
    ensures var r, nRated := NormalizeSpec(es), |RatedPart(es)|;
      forall i, j :: 0 <= i < nRated <= j < |r| ==> r[i].1 < r[j].1
  {
    NormalizePermutation(es);
    PartsSize(es);
    var r := NormalizeSpec(es);
    forall i, j | 0 <= i < |RatedPart(es)| <= j < |r| ensures r[i].1 < r[j].1 {
      assert Keys(r)[i] < Keys(r)[j];
    }
  }

  lemma MaxOfIncreasing(ks: seq<nat>)
    requires ks != [] && StrictlyIncreasing(ks)
    ensures MaxOr0(ks) == ks[|ks| - 1]
  {
    var i :| 0 <= i < |ks| && ks[i] == MaxOr0(ks);
    if i < |ks| - 1 {
      assert ks[i] < ks[|ks| - 1];
    }
  }

  /** No listened album, nothing to rank. */
  lemma NormalizeEmpty<A>(es: seq<(A, Option<nat>)>)
    ensures NormalizeSpec(es) == [] <==> es == []
  {
    NormalizePermutation(es);
  }

  // ---------------------------------------------------------------------
  // The labels written back.

  /**
   * Increasing ranks that all fit in `width` digits render to labels of
   * exactly that width which sort as strings in rank order, which is what
   * the zero padding is for.
   */
  lemma LabelsInOrder(ks: seq<nat>, width: nat)
    requires width >= 1 && StrictlyIncreasing(ks)
    requires forall i :: 0 <= i < |ks| ==> ks[i] < Pow10(width)
    ensures forall i :: 0 <= i < |ks| ==> |Pad(ks[i], width)| == width
    ensures forall i, j :: 0 <= i < j < |ks| ==> LexLess(Pad(ks[i], width), Pad(ks[j], width))
  {
    forall i | 0 <= i < |ks| ensures |Pad(ks[i], width)| == width {
      PadLength(ks[i], width);
    }
    forall i, j | 0 <= i < j < |ks| ensures LexLess(Pad(ks[i], width), Pad(ks[j], width)) {
      PadOrder(ks[i], ks[j], width);
    }
  }

  /**
   * The labels `process_albums` writes: each parses back to its rank, and
   * while the last rank stays below 1000 they all have the chosen width and
   * sort as strings in list order.
   */
  lemma PlanLabels<A>(es: seq<(A, Option<nat>)>)
    ensures var plan := NormalizeSpec(es); var w := PlanWidth(plan);
      && (forall i :: 0 <= i < |plan| ==> IsDigits(Pad(plan[i].1, w)) && DigitsValue(Pad(plan[i].1, w)) == plan[i].1)
      && (plan != [] && plan[|plan| - 1].1 < 1000 ==>
            && (forall i :: 0 <= i < |plan| ==> |Pad(plan[i].1, w)| == w)
            && (forall i, j :: 0 <= i < j < |plan| ==> LexLess(Pad(plan[i].1, w), Pad(plan[j].1, w))))
  {
    NormalizeShape(es);
    IncreasingPlanLabels(NormalizeSpec(es));
  }

  lemma IncreasingPlanLabels<A>(plan: seq<(A, nat)>)
    requires StrictlyIncreasing(Keys(plan))
    ensures var w := PlanWidth(plan);
      && (forall i :: 0 <= i < |plan| ==> IsDigits(Pad(plan[i].1, w)) && DigitsValue(Pad(plan[i].1, w)) == plan[i].1)
      && (plan != [] && plan[|plan| - 1].1 < 1000 ==>
            && (forall i :: 0 <= i < |plan| ==> |Pad(plan[i].1, w)| == w)
            && (forall i, j :: 0 <= i < j < |plan| ==> LexLess(Pad(plan[i].1, w), Pad(plan[j].1, w))))
  {
    var w := PlanWidth(plan);
    forall i | 0 <= i < |plan| ensures IsDigits(Pad(plan[i].1, w)) && DigitsValue(Pad(plan[i].1, w)) == plan[i].1 {
      PadRoundTrip(plan[i].1, w);
    }
    if plan != [] && plan[|plan| - 1].1 < 1000 {
      var ks := Keys(plan);
      RanksFit(ks, w);
      LabelsInOrder(ks, w);
      forall i | 0 <= i < |plan| ensures |Pad(plan[i].1, w)| == w {
        assert ks[i] == plan[i].1;
      }
      forall i, j | 0 <= i < j < |plan| ensures LexLess(Pad(plan[i].1, w), Pad(plan[j].1, w)) {
        assert ks[i] == plan[i].1 && ks[j] == plan[j].1;
      }
    }
  }

  /** Increasing ranks whose last is below 1000 fit in the width chosen from the last rank and the count. */
  lemma RanksFit(ks: seq<nat>, w: nat)
    requires StrictlyIncreasing(ks) && ks != [] && ks[|ks| - 1] < 1000
    requires w == Width(ks[|ks| - 1], |ks|)
    ensures w >= 1 && forall i :: 0 <= i < |ks| ==> ks[i] < Pow10(w)
  {
    assert Pow10(2) == 100 && Pow10(3) == 1000;
    forall i | 0 <= i < |ks| ensures ks[i] < Pow10(w) {
      if i < |ks| - 1 {
        assert ks[i] < ks[|ks| - 1];
      }
    }
  }

  /**
   * The labels `_compact_ratings` writes: the i-th (from 1) parses back to
   * i, and up to 999 albums they all have the chosen width and sort as
   * strings in list order.
   */
  lemma CompactLabels(n: nat)
    ensures forall i :: 1 <= i <= n ==> IsDigits(Pad(i, CompactWidth(n))) && DigitsValue(Pad(i, CompactWidth(n))) == i
    ensures n < 1000 ==> forall i :: 1 <= i <= n ==> |Pad(i, CompactWidth(n))| == CompactWidth(n)
    ensures n < 1000 ==> forall i, j :: 1 <= i < j <= n ==> LexLess(Pad(i, CompactWidth(n)), Pad(j, CompactWidth(n)))
  {
    var w := CompactWidth(n);
    forall i | 1 <= i <= n ensures IsDigits(Pad(i, w)) && DigitsValue(Pad(i, w)) == i {
      PadRoundTrip(i, w);
    }
    if n < 1000 {
      assert Pow10(2) == 100 && Pow10(3) == 1000;
      forall i | 1 <= i <= n ensures |Pad(i, w)| == w {
        PadLength(i, w);
      }
      forall i, j | 1 <= i < j <= n ensures LexLess(Pad(i, w), Pad(j, w)) {
        PadOrder(i, j, w);
      }
    }
  }

  /** The bump repair on [5,5,5], [3,3,4] and [3,3,5], three lists with colliding ranks. */
  lemma BumpExamples()
    ensures Bump([5, 5, 5]) == [5, 6, 7]
    ensures Bump([3, 3, 4]) == [3, 4, 5]
    ensures Bump([3, 3, 5]) == [3, 4, 5]
  {
    assert [3, 3, 5][1..] == [3, 5] && [3, 5][1..] == [5];
    assert [5, 5, 5][1..] == [5, 5] && [5, 5][1..] == [5];
    assert [3, 3, 4][1..] == [3, 4] && [3, 4][1..] == [4];
  }

  /**
   * Two listened albums both rated 3 and one unrated: the second 3 is bumped
   * to 4 and the unrated album follows at 5.
   */
  lemma ScenarioExample()
    ensures NormalizeSpec([("A", Some(3)), ("B", Some(3)), ("C", None)]) == [("A", 3), ("B", 4), ("C", 5)]
  {
    var es: seq<(string, Option<nat>)> := [("A", Some(3)), ("B", Some(3)), ("C", None)];
    var rs := ScenarioParts(es);
    var repaired := ScenarioRepaired(es, rs);
    assert MaxOr0(Keys(repaired)) == 4 by {
      assert Keys(repaired) == [3, 4] && [3, 4][..1] == [3];
    }
    var m := [("A", 3), ("B", 4), ("C", 5)];
    assert Defaults(["C"], 5) == [("C", 5)];
    assert Merged(es) == repaired + [("C", 5)] == m;
    assert SortedByKey(m);
    SortStableOfSorted(m);
  }

  lemma ScenarioRepaired(es: seq<(string, Option<nat>)>, rs: seq<(string, nat)>) returns (repaired: seq<(string, nat)>)
    requires rs == SortStable(RatedPart(es)) == [("A", 3), ("B", 3)]
    ensures repaired == Repaired(RatedPart(es)) == [("A", 3), ("B", 4)]
  {
    assert Keys(rs) == [3, 3] && Items(rs) == ["A", "B"];
    assert Bump([3, 3]) == [3, 4] by {
      assert [3, 3][1..] == [3];
    }
    repaired := Repaired(RatedPart(es));
    assert repaired == Zip(["A", "B"], [3, 4]);
  }

  lemma ScenarioParts(es: seq<(string, Option<nat>)>) returns (rs: seq<(string, nat)>)
    requires es == [("A", Some(3)), ("B", Some(3)), ("C", None)]
    ensures rs == SortStable(RatedPart(es)) == [("A", 3), ("B", 3)] && UnratedPart(es) == ["C"]
  {
    var e2: seq<(string, Option<nat>)> := [("C", None)];
    var e1: seq<(string, Option<nat>)> := [("B", Some(3))] + e2;
    assert es[1..] == e1 && e1[1..] == e2 && e2[1..] == [];
    assert RatedPart(e2) == [] && UnratedPart(e2) == ["C"];
    assert RatedPart(e1) == [("B", 3)] && UnratedPart(e1) == ["C"];
    assert RatedPart(es) == [("A", 3), ("B", 3)] && UnratedPart(es) == ["C"];
    assert [("A", 3), ("B", 3)][1..] == [("B", 3)];
    assert SortStable([("B", 3)]) == [("B", 3)];
    rs := SortStable(RatedPart(es));
  }

  /** The labels of that example: "03", "04", "05", or compacted "01", "02", "03". */
  lemma ScenarioLabels()
    ensures [Pad(3, Width(5, 3)), Pad(4, Width(5, 3)), Pad(5, Width(5, 3))] == ["03", "04", "05"]
    ensures [Pad(1, CompactWidth(3)), Pad(2, CompactWidth(3)), Pad(3, CompactWidth(3))] == ["01", "02", "03"]
  {
    assert Zeros(1) == "0";
    forall d: nat | 1 <= d <= 5 ensures Pad(d, 2) == ['0', ('0' as int + d) as char] {
      assert Decimal(d) == [Digit(d)];
    }
  }
}
