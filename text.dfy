/** Python's ordering of `str` values: lexicographic by code point, a proper prefix sorting first. */
module Text {

  /** `a < b` on Python strings. */
  predicate LexLess(a: string, b: string)
  {
    if |a| == 0 then |b| > 0
    else if |b| == 0 then false
    else if a[0] != b[0] then a[0] < b[0]
    else LexLess(a[1..], b[1..])
  }

  lemma {:induction false} LexIrreflexive(a: string)
    ensures !LexLess(a, a)
  {
    if |a| > 0 {
      LexIrreflexive(a[1..]);
    }
  }

  lemma {:induction false} LexTransitive(a: string, b: string, c: string)
    requires LexLess(a, b) && LexLess(b, c)
    ensures LexLess(a, c)
  {
    if |a| > 0 && a[0] == b[0] && b[0] == c[0] {
      LexTransitive(a[1..], b[1..], c[1..]);
    }
  }

  lemma {:induction false} LexTotal(a: string, b: string)
    ensures a == b || LexLess(a, b) || LexLess(b, a)
  {
    if |a| > 0 && |b| > 0 && a[0] == b[0] {
      LexTotal(a[1..], b[1..]);
      if a[1..] == b[1..] {
        assert a == [a[0]] + a[1..] && b == [b[0]] + b[1..];
      }
    }
  }

  lemma LexAsymmetric(a: string, b: string)
    requires LexLess(a, b)
    ensures !LexLess(b, a)
  {
    if LexLess(b, a) {
      LexTransitive(a, b, a);
      LexIrreflexive(a);
    }
  }

  /** Every finite non-empty set of strings has a least element; `m` is one. */
  lemma {:induction false} Least(s: set<string>) returns (m: string)
    requires s != {}
    ensures m in s && forall y :: y in s ==> !LexLess(y, m)
  {
    var x :| x in s;
    var rest := s - {x};
    if rest == {} {
      m := x;
      forall y | y in s ensures !LexLess(y, m) {
        assert y !in rest;
        LexIrreflexive(x);
      }
    } else {
      var r := Least(rest);
      if LexLess(x, r) {
        m := x;
        forall y | y in s ensures !LexLess(y, m) {
          LeastStep(y, x, r, rest);
        }
      } else {
        m := r;
        forall y | y in s ensures !LexLess(y, m) {
          if y != x {
            assert y in rest;
          }
        }
      }
    }
  }

  lemma LeastStep(y: string, x: string, r: string, rest: set<string>)
    requires LexLess(x, r)
    requires forall z :: z in rest ==> !LexLess(z, r)
    requires y == x || y in rest
    ensures !LexLess(y, x)
  {
    if y == x {
      LexIrreflexive(x);
    } else if LexLess(y, x) {
      LexTransitive(y, x, r);
    }
  }
}
