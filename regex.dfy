/** Just enough of Python's `re` to state what the redactor's two substitutions do:
    patterns built from bounded or unbounded greedy repetitions of a character class and
    greedy optional groups, matched by backtracking, and `re.sub`'s left-to-right
    replacement of non-overlapping matches.

    Backtracking is modelled by listing every place where a match starting at `i` can end,
    in the order the backtracking matcher tries them; the match Python reports is the first
    entry of that list. */
module Regex {
  import opened Text

  /** The character classes the two redaction patterns use. */
  datatype CharClass =
    | Digit        // \d
    | Separator    // [-.\s]
    | PlusSign     // \+
    | OpenParen    // \(
    | CloseParen   // \)
    | AtSign       // @
    | Dot          // \.
    | EmailLocal   // [a-zA-Z0-9._%+-]
    | EmailDomain  // [a-zA-Z0-9.-]
    | Letter       // [a-zA-Z]

  predicate IsAsciiLetter(c: char)
  {
    'a' <= c <= 'z' || 'A' <= c <= 'Z'
  }

  /** `\s` on the ASCII range: space, \t \n \v \f \r and the separators \x1c-\x1f. */
  predicate IsSpace(c: char)
  {
    c == ' ' || '\t' <= c <= '\r' || '\U{1C}' <= c <= '\U{1F}'
  }

  predicate InClass(k: CharClass, c: char)
  {
    match k
    case Digit => IsAsciiDigit(c)
    case Separator => c == '-' || c == '.' || IsSpace(c)
    case PlusSign => c == '+'
    case OpenParen => c == '('
    case CloseParen => c == ')'
    case AtSign => c == '@'
    case Dot => c == '.'
    case EmailLocal => IsAsciiLetter(c) || IsAsciiDigit(c) || c in "._%+-"
    case EmailDomain => IsAsciiLetter(c) || IsAsciiDigit(c) || c == '.' || c == '-'
    case Letter => IsAsciiLetter(c)
  }

  datatype Bound = AtMost(n: nat) | Unbounded

  /** `cls{min,max}` (greedy), or a greedy optional group `(...)?`. */
  datatype Node =
    | Repeat(cls: CharClass, min: nat, max: Bound)
    | Optional(group: seq<Node>)

  /** Every character of `s[i..j]` belongs to `cls`. */
  predicate AllIn(cls: CharClass, s: string, i: nat, j: nat)
    requires i <= j <= |s|
  {
    forall k :: i <= k < j ==> InClass(cls, s[k])
  }

  /** Every entry of `es` lies in `[lo, hi]`. */
  predicate Within(es: seq<nat>, lo: nat, hi: nat)
  {
    forall k :: 0 <= k < |es| ==> lo <= es[k] <= hi
  }

  /** Length of the longest run of `cls` characters starting at `i`, but no longer than `cap`. */
  function Run(cls: CharClass, s: string, i: nat, cap: nat): (n: nat)
    requires i <= |s|
    ensures i + n <= |s| && n <= cap
    ensures AllIn(cls, s, i, i + n)
    ensures n < cap && i + n < |s| ==> !InClass(cls, s[i + n])
    decreases cap
  {
    if cap == 0 || i == |s| || !InClass(cls, s[i]) then 0
    else 1 + Run(cls, s, i + 1, cap - 1)
  }

  /** `hi, hi - 1, ..., lo`: a greedy repetition gives back one character at a time. */
  function Countdown(hi: nat, lo: nat): (es: seq<nat>)
    ensures Within(es, lo, hi)
    ensures forall e :: lo <= e <= hi ==> e in es
    decreases hi - lo
  {
    if hi < lo then [] else if hi == lo then [lo] else [hi] + Countdown(hi - 1, lo)
  }

  function RepeatEnds(cls: CharClass, min: nat, max: Bound, s: string, i: nat): (es: seq<nat>)
    requires i <= |s|
    ensures Within(es, i + min, |s|)
    ensures forall k :: 0 <= k < |es| ==> AllIn(cls, s, i, es[k])
  {
    var cap := match max case AtMost(n) => n case Unbounded => |s| - i;
    var n := Run(cls, s, i, cap);
    if n < min then [] else Countdown(i + n, i + min)
  }

  /** Every end of a match of `pat` starting at `i`, in backtracking order. */
  function Ends(pat: seq<Node>, s: string, i: nat): (es: seq<nat>)
    requires i <= |s|
    ensures Within(es, i, |s|)
    decreases pat, 1
  {
    if pat == [] then [i] else Then(NodeEnds(pat[0], s, i), pat[1..], s, i)
  }

  function NodeEnds(n: Node, s: string, i: nat): (es: seq<nat>)
    requires i <= |s|
    ensures Within(es, i, |s|)
    decreases n, 0
  {
    match n
    case Repeat(cls, min, max) => RepeatEnds(cls, min, max, s, i)
    case Optional(group) => Ends(group, s, i) + [i]
  }

  /** For each way `es` of matching what came before, in order, every way to go on with `pat`. */
  function Then(es: seq<nat>, pat: seq<Node>, s: string, lo: nat): (r: seq<nat>)
    requires Within(es, lo, |s|)
    ensures Within(r, lo, |s|)
    decreases pat, 2, |es|
  {
    if es == [] then [] else Ends(pat, s, es[0]) + Then(es[1..], pat, s, lo)
  }

  /** Python's `re.sub(pat, repl, s)` from index `i` on: at each position the first match
      found is replaced and scanning resumes after it; otherwise the character is kept. */
  function SubFrom(pat: seq<Node>, repl: string, s: string, i: nat): string
    requires i <= |s|
    decreases |s| - i
  {
    if i == |s| then ""
    else
      var es := Ends(pat, s, i);
      if es != [] && es[0] > i then repl + SubFrom(pat, repl, s, es[0])
      else [s[i]] + SubFrom(pat, repl, s, i + 1)
  }

  function Sub(pat: seq<Node>, repl: string, s: string): string
  {
    SubFrom(pat, repl, s, 0)
  }

  /** `e` is where the match of `pat` found at `i` ends: the end Python's matcher reports. */
  predicate FirstEnd(pat: seq<Node>, s: string, i: nat, e: nat)
    requires i <= |s|
  {
    Ends(pat, s, i) != [] && Ends(pat, s, i)[0] == e
  }

  /** Backtracking reports the first way to go on that succeeds, after all earlier ones failed. */
  lemma {:induction false} ThenFirst(es: seq<nat>, pat: seq<Node>, s: string, lo: nat, k: nat, e: nat)
    requires Within(es, lo, |s|) && k < |es|
    requires forall j :: 0 <= j < k ==> Ends(pat, s, es[j]) == []
    requires FirstEnd(pat, s, es[k], e)
    ensures Then(es, pat, s, lo) != [] && Then(es, pat, s, lo)[0] == e
    decreases k
  {
    if k > 0 {
      assert Ends(pat, s, es[0]) == [];
      assert forall j :: 0 <= j < |es[1..]| ==> es[1..][j] == es[j + 1];
      ThenFirst(es[1..], pat, s, lo, k - 1, e);
    }
  }

  /** With nothing left of the pattern, every end reached so far ends a match. */
  lemma {:induction false} ThenEmptyPattern(es: seq<nat>, s: string, lo: nat)
    requires Within(es, lo, |s|)
    ensures Then(es, [], s, lo) == es
    decreases |es|
  {
    if es != [] {
      ThenEmptyPattern(es[1..], s, lo);
    }
  }

  /** A bounded repetition first tries its whole greedy run: when the rest of the pattern
      matches right after that run, that is the first match. */
  lemma FirstEndGreedy(cls: CharClass, min: nat, cap: nat, pat: seq<Node>, s: string, i: nat, n: nat, e: nat)
    requires i + n <= |s| && min <= n <= cap
    requires AllIn(cls, s, i, i + n)
    requires n == cap || i + n == |s| || !InClass(cls, s[i + n])
    requires FirstEnd(pat, s, i + n, e)
    ensures FirstEnd([Repeat(cls, min, AtMost(cap))] + pat, s, i, e)
  {
    var p := [Repeat(cls, min, AtMost(cap))] + pat;
    assert p[0] == Repeat(cls, min, AtMost(cap)) && p[1..] == pat;
    RunIs(cls, s, i, cap, n);
    assert NodeEnds(p[0], s, i)[0] == i + n;
    FirstEndThen(p, s, i, 0, e);
  }

  /** A one-node pattern ends wherever its node does. */
  lemma EndsSingle(n: Node, s: string, i: nat)
    requires i <= |s|
    ensures Ends([n], s, i) == NodeEnds(n, s, i)
  {
    assert [n][0] == n && [n][1..] == [];
    ThenEmptyPattern(NodeEnds(n, s, i), s, i);
  }

  /** The match of `pat` found at `i` is the first one the rest of the pattern completes,
      taking the ends of the first node in backtracking order. */
  lemma FirstEndThen(pat: seq<Node>, s: string, i: nat, k: nat, e: nat)
    requires i <= |s| && pat != []
    requires k < |NodeEnds(pat[0], s, i)|
    requires forall j :: 0 <= j < k ==> Ends(pat[1..], s, NodeEnds(pat[0], s, i)[j]) == []
    requires FirstEnd(pat[1..], s, NodeEnds(pat[0], s, i)[k], e)
    ensures FirstEnd(pat, s, i, e)
  {
    ThenFirst(NodeEnds(pat[0], s, i), pat[1..], s, i, k, e);
  }

  /** No match starts at `i` when the rest of the pattern fails after every end of the first node. */
  lemma NoMatchThen(pat: seq<Node>, s: string, i: nat)
    requires i <= |s| && pat != []
    requires forall j :: 0 <= j < |NodeEnds(pat[0], s, i)| ==> Ends(pat[1..], s, NodeEnds(pat[0], s, i)[j]) == []
    ensures Ends(pat, s, i) == []
  {
    ThenNone(NodeEnds(pat[0], s, i), pat[1..], s, i);
  }

  /** Number of characters of class `cls` in `s[i..j]`. */
  function CountIn(cls: CharClass, s: string, i: nat, j: nat): nat
    requires i <= j <= |s|
    decreases j - i
  {
    if i == j then 0 else CountIn(cls, s, i, j - 1) + (if InClass(cls, s[j - 1]) then 1 else 0)
  }

  /** Fewest characters of class `cls` that any match of the pattern holds. */
  function MinCount(pat: seq<Node>, cls: CharClass): nat
  {
    if pat == [] then 0
    else (match pat[0] case Repeat(c, min, _) => if c == cls then min else 0 case Optional(_) => 0)
         + MinCount(pat[1..], cls)
  }

  lemma {:induction false} CountInSplit(cls: CharClass, s: string, i: nat, j: nat, k: nat)
    requires i <= j <= k <= |s|
    ensures CountIn(cls, s, i, k) == CountIn(cls, s, i, j) + CountIn(cls, s, j, k)
    decreases k - j
  {
    if j < k {
      CountInSplit(cls, s, i, j, k - 1);
    }
  }

  lemma {:induction false} CountInAll(cls: CharClass, s: string, i: nat, j: nat)
    requires i <= j <= |s|
    requires AllIn(cls, s, i, j)
    ensures CountIn(cls, s, i, j) == j - i
    decreases j - i
  {
    if i < j {
      CountInAll(cls, s, i, j - 1);
    }
  }

  lemma {:induction false} ThenMember(es: seq<nat>, pat: seq<Node>, s: string, lo: nat, e: nat)
    requires Within(es, lo, |s|)
    requires e in Then(es, pat, s, lo)
    ensures exists k :: 0 <= k < |es| && e in Ends(pat, s, es[k])
    decreases |es|
  {
    if e !in Ends(pat, s, es[0]) {
      ThenMember(es[1..], pat, s, lo, e);
      var k :| 0 <= k < |es[1..]| && e in Ends(pat, s, es[1..][k]);
      assert es[1..][k] == es[k + 1];
    }
  }

  /** Every match holds at least `MinCount(pat, cls)` characters of class `cls`. */
  lemma {:induction false} EndsCount(pat: seq<Node>, s: string, i: nat, e: nat, cls: CharClass)
    requires i <= |s|
    requires e in Ends(pat, s, i)
    ensures i <= e <= |s|
    ensures CountIn(cls, s, i, e) >= MinCount(pat, cls)
    decreases |pat|
  {
    if pat != [] {
      var first := NodeEnds(pat[0], s, i);
      ThenMember(first, pat[1..], s, i, e);
      var k :| 0 <= k < |first| && e in Ends(pat[1..], s, first[k]);
      var m := first[k];
      EndsCount(pat[1..], s, m, e, cls);
      CountInSplit(cls, s, i, m, e);
      match pat[0]
      case Repeat(c, min, max) =>
        if c == cls {
          CountInAll(cls, s, i, m);
        }
      case Optional(_) =>
    }
  }

  /** A pattern whose every match needs a character of class `cls` never matches the
      empty string, so the `es[0] > i` test in `SubFrom` never fails for it. */
  lemma MatchesNonEmpty(pat: seq<Node>, s: string, i: nat, e: nat, cls: CharClass)
    requires i <= |s|
    requires MinCount(pat, cls) >= 1
    requires e in Ends(pat, s, i)
    ensures i < e
  {
    EndsCount(pat, s, i, e, cls);
  }

  lemma {:induction false} CountInNone(cls: CharClass, s: string, i: nat, j: nat)
    requires i <= j <= |s|
    requires forall k :: i <= k < j ==> !InClass(cls, s[k])
    ensures CountIn(cls, s, i, j) == 0
    decreases j - i
  {
    if i < j {
      CountInNone(cls, s, i, j - 1);
    }
  }

  /** From `i` on, a text with fewer characters of class `cls` than every match needs is
      copied as it is. */
  lemma {:induction false} SubFromUnchanged(pat: seq<Node>, repl: string, s: string, cls: CharClass, i: nat)
    requires i <= |s|
    requires CountIn(cls, s, i, |s|) < MinCount(pat, cls)
    ensures SubFrom(pat, repl, s, i) == s[i..]
    decreases |s| - i
  {
    if i < |s| {
      var es := Ends(pat, s, i);
      if es != [] {
        EndsCount(pat, s, i, es[0], cls);
        CountInSplit(cls, s, i, es[0], |s|);
      }
      CountInSplit(cls, s, i, i + 1, |s|);
      SubFromUnchanged(pat, repl, s, cls, i + 1);
      assert s[i..] == [s[i]] + s[i + 1..];
    }
  }

  /** Positions where no match starts are copied one by one. */
  lemma {:induction false} SubFromSkip(pat: seq<Node>, repl: string, s: string, i: nat, j: nat)
    requires i <= j <= |s|
    requires forall k :: i <= k < j ==> Ends(pat, s, k) == []
    ensures SubFrom(pat, repl, s, i) == s[i..j] + SubFrom(pat, repl, s, j)
    decreases j - i
  {
    if i < j {
      assert Ends(pat, s, i) == [];
      assert SubFrom(pat, repl, s, i) == [s[i]] + SubFrom(pat, repl, s, i + 1);
      SubFromSkip(pat, repl, s, i + 1, j);
      assert s[i..j] == [s[i]] + s[i + 1..j];
    }
  }

  /** A non-empty match at `i` is replaced, and scanning resumes where it ends. */
  lemma SubFromMatch(pat: seq<Node>, repl: string, s: string, i: nat, e: nat)
    requires i < e && i <= |s|
    requires FirstEnd(pat, s, i, e)
    ensures SubFrom(pat, repl, s, i) == repl + SubFrom(pat, repl, s, e)
  {
  }

  /** `Run` is pinned down by its contract: `n` characters of the class that stop at the
      cap, at the end of the text, or before a character outside the class. */
  lemma {:induction false} RunIs(cls: CharClass, s: string, i: nat, cap: nat, n: nat)
    requires i + n <= |s| && n <= cap
    requires AllIn(cls, s, i, i + n)
    requires n == cap || i + n == |s| || !InClass(cls, s[i + n])
    ensures Run(cls, s, i, cap) == n
    decreases n
  {
    if n > 0 {
      assert InClass(cls, s[i]);
      RunIs(cls, s, i + 1, cap - 1, n - 1);
    }
  }

  /** A stretch of class characters stops before any character outside the class. */
  lemma AllInStops(cls: CharClass, s: string, i: nat, m: nat, j: nat)
    requires i <= m <= |s| && AllIn(cls, s, i, m)
    requires i <= j < |s| && !InClass(cls, s[j])
    ensures m <= j
  {
  }

  /** When the rest of the pattern fails from every end so far, the whole fails. */
  lemma {:induction false} ThenNone(es: seq<nat>, pat: seq<Node>, s: string, lo: nat)
    requires Within(es, lo, |s|)
    requires forall k :: 0 <= k < |es| ==> Ends(pat, s, es[k]) == []
    ensures Then(es, pat, s, lo) == []
    decreases |es|
  {
    if es != [] {
      assert Ends(pat, s, es[0]) == [];
      assert forall k :: 0 <= k < |es[1..]| ==> es[1..][k] == es[k + 1];
      ThenNone(es[1..], pat, s, lo);
    }
  }

  /** No match starts where fewer characters of class `cls` are left than every match needs. */
  lemma NoMatchFewClass(pat: seq<Node>, s: string, i: nat, cls: CharClass)
    requires i <= |s|
    requires CountIn(cls, s, i, |s|) < MinCount(pat, cls)
    ensures Ends(pat, s, i) == []
  {
    var es := Ends(pat, s, i);
    if es != [] {
      EndsCount(pat, s, i, es[0], cls);
      CountInSplit(cls, s, i, es[0], |s|);
    }
  }

  /** A text with fewer characters of class `cls` than every match needs is left unchanged. */
  lemma SubUnchanged(pat: seq<Node>, repl: string, s: string, cls: CharClass)
    requires CountIn(cls, s, 0, |s|) < MinCount(pat, cls)
    ensures Sub(pat, repl, s) == s
  {
    SubFromUnchanged(pat, repl, s, cls, 0);
  }
}
