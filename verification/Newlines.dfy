/** The line-break rewriting that every incoming message goes through before it is shown. */
module Newlines {
  predicate IsBreak(c: char) {
    c == '\r' || c == '\n'
  }

  /** `s` without its leading line-break characters. */
  function DropBreaks(s: string): (r: string)
    ensures |r| <= |s| && s[|s| - |r|..] == r
    ensures forall i :: 0 <= i < |s| - |r| ==> IsBreak(s[i])
    ensures r == "" || !IsBreak(r[0])
  {
    if s != "" && IsBreak(s[0]) then DropBreaks(s[1..]) else s
  }

  /** The first regular expression: each maximal run of CR and LF becomes one LF. */
  function CollapseRuns(s: string): string
    decreases |s|
  {
    if s == "" then ""
    else if IsBreak(s[0]) then "\n" + CollapseRuns(DropBreaks(s[1..]))
    else [s[0]] + CollapseRuns(s[1..])
  }

  /** The second: each LF becomes CR LF. */
  function ExpandLineFeeds(s: string): string {
    if s == "" then ""
    else (if s[0] == '\n' then "\r\n" else [s[0]]) + ExpandLineFeeds(s[1..])
  }

  function Normalise(s: string): string {
    ExpandLineFeeds(CollapseRuns(s))
  }

  /** CR only before LF, LF only after CR, and never two line breaks in a row. */
  predicate WellBroken(s: string) {
    if s == "" then true
    else if !IsBreak(s[0]) then WellBroken(s[1..])
    else
      && |s| >= 2 && s[0] == '\r' && s[1] == '\n'
      && (|s| == 2 || !IsBreak(s[2]))
      && WellBroken(s[2..])
  }

  /** Everything but the line breaks, in order. */
  function Plain(s: string): string {
    if s == "" then "" else (if IsBreak(s[0]) then "" else [s[0]]) + Plain(s[1..])
  }

  lemma NormaliseStep(s: string)
    requires s != ""
    ensures Normalise(s) == if IsBreak(s[0]) then "\r\n" + Normalise(DropBreaks(s)) else [s[0]] + Normalise(s[1..])
  {
    if IsBreak(s[0]) {
      var rest := CollapseRuns(DropBreaks(s[1..]));
      assert ("\n" + rest)[1..] == rest;
      assert DropBreaks(s) == DropBreaks(s[1..]);
    } else {
      assert ([s[0]] + CollapseRuns(s[1..]))[1..] == CollapseRuns(s[1..]);
    }
  }

  lemma {:induction false} PlainDropBreaks(s: string)
    ensures Plain(DropBreaks(s)) == Plain(s)
  {
    if s != "" && IsBreak(s[0]) {
      PlainDropBreaks(s[1..]);
    }
  }

  lemma ConsFacts(c: char, r: string)
    requires !IsBreak(c)
    ensures WellBroken([c] + r) <==> WellBroken(r)
    ensures Plain([c] + r) == [c] + Plain(r)
  {
    assert ([c] + r)[1..] == r;
  }

  lemma BreakFacts(r: string)
    requires r == "" || !IsBreak(r[0])
    ensures WellBroken("\r\n" + r) <==> WellBroken(r)
    ensures Plain("\r\n" + r) == Plain(r)
  {
    var s := "\r\n" + r;
    assert s[2..] == r && s[1..] == "\n" + r && s[1..][1..] == r;
  }

  /** The result is well broken, starts with a break only if the input does, and keeps every other
      character in order. */
  lemma {:induction false} NormaliseIsWellBroken(s: string)
    ensures WellBroken(Normalise(s)) && Plain(Normalise(s)) == Plain(s)
    ensures s != "" ==> Normalise(s) != "" && (IsBreak(Normalise(s)[0]) <==> IsBreak(s[0]))
    decreases |s|
  {
    if s != "" {
      NormaliseStep(s);
      if IsBreak(s[0]) {
        NormaliseIsWellBroken(DropBreaks(s));
        PlainDropBreaks(s);
        BreakFacts(Normalise(DropBreaks(s)));
      } else {
        NormaliseIsWellBroken(s[1..]);
        ConsFacts(s[0], Normalise(s[1..]));
      }
    }
  }

  lemma {:induction false} WellBrokenIsFixed(s: string)
    requires WellBroken(s)
    ensures Normalise(s) == s
    decreases |s|
  {
    if s != "" {
      NormaliseStep(s);
      if IsBreak(s[0]) {
        assert s[1..][1..] == s[2..];
        assert DropBreaks(s[2..]) == s[2..];
        assert DropBreaks(s) == DropBreaks(s[1..]) == DropBreaks(s[1..][1..]);
        WellBrokenIsFixed(s[2..]);
      } else {
        WellBrokenIsFixed(s[1..]);
      }
    }
  }

  /** The fixed points are exactly the well-broken texts. */
  lemma FixedIffWellBroken(s: string)
    ensures Normalise(s) == s <==> WellBroken(s)
  {
    NormaliseIsWellBroken(s);
    if WellBroken(s) {
      WellBrokenIsFixed(s);
    }
  }

  lemma NormaliseIsIdempotent(s: string)
    ensures Normalise(Normalise(s)) == Normalise(s)
  {
    NormaliseIsWellBroken(s);
    FixedIffWellBroken(Normalise(s));
  }

  lemma Cancel(p: string, x: string, y: string, z: string)
    ensures p + x == (p + y) + z <==> x == y + z
  {
    assert (p + y) + z == p + (y + z);
    assert (p + x)[|p|..] == x && (p + (y + z))[|p|..] == y + z;
  }

  predicate CutsRun(a: string, b: string) {
    a != "" && b != "" && IsBreak(a[|a| - 1]) && IsBreak(b[0])
  }

  /** Two pieces can be normalised apart exactly when the cut is not inside a run of line breaks. */
  lemma {:induction false} NormaliseSplits(a: string, b: string)
    ensures Normalise(a + b) == Normalise(a) + Normalise(b) <==> !CutsRun(a, b)
    decreases |a|
  {
    if a == "" {
      assert a + b == b;
    } else {
      var rest := if IsBreak(a[0]) then DropBreaks(a) else a[1..];
      var head := if IsBreak(a[0]) then "\r\n" else [a[0]];
      if IsBreak(a[0]) && rest == "" {
        AllBreaks(a, b);
      } else {
        HeadOfSum(a, b, rest, head);
        SameCut(a, rest, b);
        NormaliseSplits(rest, b);
        Cancel(head, Normalise(rest + b), Normalise(rest), Normalise(b));
      }
    }
  }

  lemma HeadOfSum(a: string, b: string, rest: string, head: string)
    requires a != "" && (IsBreak(a[0]) ==> rest != "")
    requires rest == if IsBreak(a[0]) then DropBreaks(a) else a[1..]
    requires head == if IsBreak(a[0]) then "\r\n" else [a[0]]
    ensures Normalise(a) == head + Normalise(rest)
    ensures Normalise(a + b) == head + Normalise(rest + b)
  {
    TailOfSum(a, b);
    DropBreaksOfSum(a, b);
    NormaliseStep(a);
    NormaliseStep(a + b);
  }

  lemma TailOfSum(a: string, b: string)
    requires a != ""
    ensures (a + b)[0] == a[0] && (a + b)[1..] == a[1..] + b
  {
  }

  lemma SameCut(a: string, rest: string, b: string)
    requires |rest| < |a| && a[|a| - |rest|..] == rest
    requires rest == "" ==> !IsBreak(a[|a| - 1])
    ensures CutsRun(a, b) <==> CutsRun(rest, b)
  {
    if rest != "" {
      assert a[|a| - 1] == rest[|rest| - 1];
    }
  }

  lemma AllBreaks(a: string, b: string)
    requires a != "" && IsBreak(a[0]) && DropBreaks(a) == ""
    ensures Normalise(a + b) == Normalise(a) + Normalise(b) <==> !CutsRun(a, b)
  {
    NormaliseStep(a);
    NormaliseStep(a + b);
    DropBreaksOfSum(a, b);
    assert Normalise("") == "" && Normalise(a) == "\r\n";
    if b == "" || !IsBreak(b[0]) {
      assert DropBreaks(b) == b;
    } else {
      NormaliseStep(b);
      assert |Normalise(a + b)| != |Normalise(a) + Normalise(b)|;
    }
  }

  lemma {:induction false} DropBreaksOfSum(a: string, b: string)
    ensures DropBreaks(a + b) == if DropBreaks(a) != "" then DropBreaks(a) + b else DropBreaks(b)
  {
    if a == "" {
      assert a + b == b;
    } else if IsBreak(a[0]) {
      assert (a + b)[1..] == a[1..] + b;
      DropBreaksOfSum(a[1..], b);
    }
  }
}
