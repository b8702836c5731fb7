/** Small facts about strings shared by the scoring engine and the column validator:
    where a string occurs inside another, and the ", " join used in validation messages
    together with the split that undoes it. */
module Text {

  /** One of the ten ASCII digits '0'-'9'. */
  predicate IsAsciiDigit(c: char)
  {
    '0' <= c <= '9'
  }

  /** `t` occurs in `s` starting at index `k`. */
  predicate OccursAt(s: string, t: string, k: int)
  {
    0 <= k && k + |t| <= |s| && s[k..k + |t|] == t
  }

  /** `t` is a substring of `s` (Python's `t in s`). */
  predicate Contains(s: string, t: string)
  {
    exists k :: 0 <= k <= |s| && OccursAt(s, t, k)
  }

  /** Python's `s.endswith(t)`. */
  predicate EndsWith(s: string, t: string)
  {
    |t| <= |s| && s[|s| - |t|..] == t
  }

  /** Whatever stands between a prefix and a suffix is contained in the whole. */
  lemma ContainsMiddle(a: string, t: string, b: string)
    ensures OccursAt(a + t + b, t, |a|)
    ensures Contains(a + t + b, t)
  {
    assert (a + t + b)[|a|..|a| + |t|] == t;
    assert OccursAt(a + t + b, t, |a|);
  }

  /** The parts written one after another, as an f-string writes its pieces. */
  function Concat(parts: seq<string>): string
  {
    if parts == [] then "" else parts[0] + Concat(parts[1..])
  }

  lemma ConcatPair(a: string, b: string)
    ensures Concat([a, b]) == a + b
  {
    assert [a, b][1..] == [b];
    assert [b][1..] == [];
    assert Concat([b]) == b + Concat([]);
    assert b + "" == b;
  }

  lemma {:induction false} ConcatSplit(a: seq<string>, b: seq<string>)
    ensures Concat(a + b) == Concat(a) + Concat(b)
    decreases |a|
  {
    if a == [] {
      assert a + b == b;
    } else {
      assert (a + b)[1..] == a[1..] + b;
      ConcatSplit(a[1..], b);
      assert a[0] + (Concat(a[1..]) + Concat(b)) == (a[0] + Concat(a[1..])) + Concat(b);
    }
  }

  /** The concatenation of `head`, one more part and `tail`. */
  lemma ConcatAround(head: seq<string>, x: string, tail: seq<string>)
    ensures Concat(head + [x] + tail) == Concat(head) + x + Concat(tail)
  {
    ConcatSplit(head + [x], tail);
    ConcatSplit(head, [x]);
    assert [x][1..] == [];
    assert x + "" == x;
  }

  /** Each part can be found in the concatenation, where the parts before it end. */
  lemma ConcatContainsPart(parts: seq<string>, i: nat)
    requires i < |parts|
    ensures OccursAt(Concat(parts), parts[i], |Concat(parts[..i])|)
    ensures Contains(Concat(parts), parts[i])
  {
    ConcatSplit(parts[..i], parts[i..]);
    assert parts[..i] + parts[i..] == parts;
    ContainsMiddle(Concat(parts[..i]), parts[i], Concat(parts[i + 1..]));
    assert parts[i..][1..] == parts[i + 1..];
    assert OccursAt(Concat(parts), parts[i], |Concat(parts[..i])|);
  }

  /** The concatenation ends with the concatenation of any of its last parts. */
  lemma ConcatEndsWith(parts: seq<string>, k: nat)
    requires k <= |parts|
    ensures EndsWith(Concat(parts), Concat(parts[k..]))
  {
    ConcatSplit(parts[..k], parts[k..]);
    assert parts[..k] + parts[k..] == parts;
  }

  /** `xs` joined with ", " between consecutive elements, as Python's `", ".join(xs)`. */
  function Join(xs: seq<string>): string
  {
    if xs == [] then ""
    else if |xs| == 1 then xs[0]
    else xs[0] + ", " + Join(xs[1..])
  }

  /** Splits `s` at every ", ", collecting the current field in `field`;
      the inverse of `Join` on fields without commas. */
  function SplitFrom(s: string, field: string): (r: seq<string>)
    ensures |r| >= 1
    decreases |s|
  {
    if s == [] then [field]
    else if |s| >= 2 && s[0] == ',' && s[1] == ' ' then [field] + SplitFrom(s[2..], "")
    else SplitFrom(s[1..], field + [s[0]])
  }

  function Split(s: string): seq<string>
  {
    SplitFrom(s, "")
  }

  predicate NoComma(s: string)
  {
    forall k :: 0 <= k < |s| ==> s[k] != ','
  }

  /** Reading a comma-free stretch only extends the current field. */
  lemma {:induction false} SplitSkipsField(w: string, rest: string, field: string)
    requires NoComma(w)
    ensures SplitFrom(w + rest, field) == SplitFrom(rest, field + w)
    decreases |w|
  {
    if w == [] {
      assert w + rest == rest;
      assert field + w == field;
    } else {
      var s := w + rest;
      assert s[0] == w[0] && s[0] != ',';
      assert s[1..] == w[1..] + rest;
      SplitSkipsField(w[1..], rest, field + [w[0]]);
      assert field + [w[0]] + w[1..] == field + w;
    }
  }

  /** Splitting a join gives the joined fields back, as long as no field holds a comma. */
  lemma {:induction false} SplitJoin(xs: seq<string>)
    requires xs != []
    requires forall i :: 0 <= i < |xs| ==> NoComma(xs[i])
    ensures Split(Join(xs)) == xs
    decreases |xs|
  {
    if |xs| == 1 {
      SplitSkipsField(xs[0], "", "");
      assert xs[0] + "" == xs[0];
      assert "" + xs[0] == xs[0];
    } else {
      var tail := Join(xs[1..]);
      assert Join(xs) == xs[0] + (", " + tail);
      SplitSkipsField(xs[0], ", " + tail, "");
      assert "" + xs[0] == xs[0];
      var s := ", " + tail;
      assert s[2..] == tail;
      assert SplitFrom(s, xs[0]) == [xs[0]] + SplitFrom(tail, "");
      SplitJoin(xs[1..]);
      assert [xs[0]] + xs[1..] == xs;
    }
  }
}
