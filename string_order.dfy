/** Python's ordering of `str` values (code point by code point, a proper prefix first)
    and the `sorted(...)` that `validate_dataframe` applies to its set of missing names. */
module StringOrder {

  /** `a < b` on Python strings. */
  predicate Less(a: string, b: string)
    decreases |a|
  {
    if a == [] then b != []
    else if b == [] then false
    else if a[0] != b[0] then a[0] < b[0]
    else Less(a[1..], b[1..])
  }

  lemma {:induction false} LessIrreflexive(a: string)
    ensures !Less(a, a)
    decreases |a|
  {
    if a != [] {
      LessIrreflexive(a[1..]);
    }
  }

  lemma {:induction false} LessTransitive(a: string, b: string, c: string)
    requires Less(a, b) && Less(b, c)
    ensures Less(a, c)
    decreases |a|
  {
    if a != [] && a[0] == b[0] && b[0] == c[0] {
      LessTransitive(a[1..], b[1..], c[1..]);
    }
  }

  lemma {:induction false} LessTotal(a: string, b: string)
    requires a != b
    ensures Less(a, b) || Less(b, a)
    decreases |a|
  {
    if a != [] && b != [] && a[0] == b[0] {
      assert a == [a[0]] + a[1..] && b == [b[0]] + b[1..];
      LessTotal(a[1..], b[1..]);
    }
  }

  /** Every element is smaller than every later one: sorted and free of duplicates. */
  predicate StrictlySorted(xs: seq<string>)
  {
    forall i, j :: 0 <= i < j < |xs| ==> Less(xs[i], xs[j])
  }

  /** No element occurs twice. */
  predicate Distinct(xs: seq<string>)
  {
    forall i, j :: 0 <= i < j < |xs| ==> xs[i] != xs[j]
  }

  /** Puts `x` into its place in `xs`. */
  function Insert(x: string, xs: seq<string>): (r: seq<string>)
    ensures multiset(r) == multiset(xs) + multiset{x}
    ensures StrictlySorted(xs) && x !in xs ==> StrictlySorted(r)
  {
    if xs == [] then [x]
    else if Less(xs[0], x) then
      var rest := Insert(x, xs[1..]);
      assert xs == [xs[0]] + xs[1..];
      assert StrictlySorted(xs) && x !in xs ==> StrictlySorted([xs[0]] + rest) by {
        if StrictlySorted(xs) && x !in xs {
          forall y | y in rest ensures Less(xs[0], y) {
            assert y in multiset(rest);
            if y != x {
              assert y in xs[1..];
            }
          }
        }
      }
      [xs[0]] + rest
    else
      assert StrictlySorted(xs) && x !in xs ==> StrictlySorted([x] + xs) by {
        if StrictlySorted(xs) && x !in xs {
          LessTotal(x, xs[0]);
          forall j | 0 <= j < |xs| ensures Less(x, xs[j]) {
            if j > 0 {
              LessTransitive(x, xs[0], xs[j]);
            }
          }
        }
      }
      [x] + xs
  }

  /** Python's `sorted(...)` applied to a sequence without duplicates
      (in the model: the elements of a set, taken in some order). */
  function Sort(xs: seq<string>): (r: seq<string>)
    ensures multiset(r) == multiset(xs)
    ensures Distinct(xs) ==> StrictlySorted(r)
  {
    if xs == [] then []
    else
      assert xs == [xs[0]] + xs[1..];
      var rest := Sort(xs[1..]);
      assert Distinct(xs) ==> xs[0] !in rest by {
        if xs[0] in rest {
          assert xs[0] in multiset(xs[1..]);
          var j :| 0 <= j < |xs[1..]| && xs[1..][j] == xs[0];
          assert xs[j + 1] == xs[0];
        }
      }
      Insert(xs[0], rest)
  }

  /** A strictly sorted sequence is determined by its elements: whatever order the
      elements of a set were visited in, sorting them gives one and the same list. */
  lemma {:induction false} SortedUnique(xs: seq<string>, ys: seq<string>)
    requires StrictlySorted(xs) && StrictlySorted(ys)
    requires forall z :: z in xs <==> z in ys
    ensures xs == ys
    decreases |xs|
  {
    if xs != [] {
      assert xs[0] in ys;
    }
    if ys != [] {
      assert ys[0] in xs;
    }
    if xs != [] && ys != [] {
      if xs[0] != ys[0] {
        var i :| 0 <= i < |ys| && ys[i] == xs[0];
        var j :| 0 <= j < |xs| && xs[j] == ys[0];
        assert Less(ys[0], xs[0]);
        assert Less(xs[0], ys[0]);
        LessTransitive(xs[0], ys[0], xs[0]);
        LessIrreflexive(xs[0]);
      }
      assert forall x :: x in xs[1..] ==> x in xs && x != xs[0] by {
        forall x | x in xs[1..] ensures x in xs && x != xs[0] {
          var k :| 1 <= k < |xs| && xs[k] == x;
          if x == xs[0] { LessIrreflexive(x); }
        }
      }
      assert forall y :: y in ys[1..] ==> y in ys && y != ys[0] by {
        forall y | y in ys[1..] ensures y in ys && y != ys[0] {
          var k :| 1 <= k < |ys| && ys[k] == y;
          if y == ys[0] { LessIrreflexive(y); }
        }
      }
      assert forall z :: z in xs[1..] <==> z in ys[1..] by {
        forall x | x in xs[1..] ensures x in ys[1..] {
          assert x in ys;
          var k :| 0 <= k < |ys| && ys[k] == x;
        }
        forall y | y in ys[1..] ensures y in xs[1..] {
          assert y in xs;
          var k :| 0 <= k < |xs| && xs[k] == y;
        }
      }
      SortedUnique(xs[1..], ys[1..]);
      assert xs == [xs[0]] + xs[1..] && ys == [ys[0]] + ys[1..];
    }
  }
}
