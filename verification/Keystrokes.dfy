/** The escaping of recorded keystrokes for the keystroke panel. */
module Keystrokes {
  import opened Prelude

  /** One position of a regular expression: a given character, or `.`. */
  datatype Atom = Lit(c: char) | Any

  type Pattern = seq<Atom>

  datatype Rule = Rule(pattern: Pattern, replacement: string)

  const ESC: char := '\U{1b}'
  const DEL: char := '\U{7f}'

  function Lits(s: string): (r: seq<Atom>)
    ensures |r| == |s| && forall i :: 0 <= i < |s| ==> r[i] == Lit(s[i])
  {
    seq(|s|, i requires 0 <= i < |s| => Lit(s[i]))
  }

  function Key(middle: seq<Atom>, last: string, name: string): Rule {
    Rule([Lit(ESC)] + middle + Lits(last), "[" + name + "]")
  }

  function Single(c: char, name: string): Rule {
    Rule([Lit(c)], "[" + name + "]")
  }

  const ARROWS: seq<Rule> := [
    Key([Any], "D", "LEFT ARROW"), Key([Any], "C", "RIGHT ARROW"), Key([Any], "A", "UP ARROW"),
    Key([Any], "B", "DOWN ARROW")]

  const JUMPS: seq<Rule> := [Key([Any], "F", "END"), Key([Any], "H", "HOME")]

  const EDITING: seq<Rule> := [
    Key([], "[3~", "DELETE"), Key([], "[6~", "PAGE DOWN"), Key([], "[5~", "PAGE UP"), Key([], "[2~", "INSERT")]

  const F1_TO_F4: seq<Rule> := [Key([], "OP", "F1"), Key([], "OQ", "F2"), Key([], "OR", "F3"), Key([], "OS", "F4")]

  const F5_TO_F8: seq<Rule> := [
    Key([], "[15~", "F5"), Key([], "[17~", "F6"), Key([], "[18~", "F7"), Key([], "[19~", "F8")]

  const F9_TO_F12: seq<Rule> := [
    Key([], "[20~", "F9"), Key([], "[21~", "F10"), Key([], "[23~", "F11"), Key([], "[24~", "F12")]

  const CHARACTERS: seq<Rule> := [
    Single('\t', "TAB"), Single(ESC, "ESC"), Single('\r', "CARRIAGE RETURN"), Single('\n', "LINE FEED"),
    Single(DEL, "BACKSPACE")]

  /** The replacement list, in order. */
  const REPLACE_LIST: seq<Rule> := ARROWS + JUMPS + EDITING + F1_TO_F4 + F5_TO_F8 + F9_TO_F12 + CHARACTERS

  const SIGNAL_CHARS := "ABCDEFGHIJKLMNOPQRSTUVWXYZ"

  /** Control characters 1 to 25, as CTRL plus a letter. */
  function CtrlRule(i: nat): Rule
    requires 1 <= i < |SIGNAL_CHARS|
  {
    Single(i as char, "CTRL+" + [SIGNAL_CHARS[i - 1]])
  }

  function CtrlRules(n: nat): (r: seq<Rule>)
    requires n < |SIGNAL_CHARS|
    ensures |r| == n && forall i :: 0 <= i < n ==> r[i] == CtrlRule(i + 1)
  {
    if n == 0 then [] else CtrlRules(n - 1) + [CtrlRule(n)]
  }

  const CTRL_LIST: seq<Rule> := CtrlRules(|SIGNAL_CHARS| - 1)

  predicate AtomMatches(a: Atom, c: char) {
    match a
    case Lit(x) => x == c
    case Any => c != '\n' && c != '\r' && c != '\U{2028}' && c != '\U{2029}'
  }

  predicate Matches(s: string, p: Pattern) {
    |p| <= |s| && forall i :: 0 <= i < |p| ==> AtomMatches(p[i], s[i])
  }

  /** A replacement without the global flag: only the leftmost match. */
  function ReplaceFirst(s: string, r: Rule): string {
    if Matches(s, r.pattern) then r.replacement + s[|r.pattern|..]
    else if s == "" then ""
    else [s[0]] + ReplaceFirst(s[1..], r)
  }

  /** The rules one after the other, each on the result of the one before. */
  function ReplaceAll(s: string, rules: seq<Rule>): string {
    if rules == [] then s else ReplaceFirst(ReplaceAll(s, rules[..|rules| - 1]), rules[|rules| - 1])
  }

  predicate IsControl(c: char) {
    c < ' ' && c != '\t' && c != '\n'
  }

  function EscapeChar(c: char): string {
    if IsControl(c) then "[\\" + Decimal(c as int) + "]" else [c]
  }

  /** Every remaining control character by its number in brackets. */
  function EscapeControls(s: string): string {
    if s == "" then "" else EscapeControls(s[..|s| - 1]) + EscapeChar(s[|s| - 1])
  }

  function Processed(s: string): string {
    EscapeControls(ReplaceAll(ReplaceAll(s, REPLACE_LIST), CTRL_LIST))
  }

  predicate NoControls(s: string) {
    forall i :: 0 <= i < |s| ==> !IsControl(s[i])
  }

  lemma EscapeCharHasNoControls(c: char)
    ensures NoControls(EscapeChar(c)) && EscapeChar(c) != ""
  {
    DecimalIsDigits(c as int);
  }

  lemma SplitAt(front: string, rest: string)
    ensures (front + rest)[..|front|] == front && (front + rest)[|front|..] == rest
  {
  }

  /** One character of `s` is dealt with: `data` is the escaped part of `s` followed by the rest. */
  lemma EscapesOne(s: string, done: nat, data: string)
    requires done < |s| && data == EscapeControls(s[..done]) + s[done..]
    ensures var front := EscapeControls(s[..done]);
            && data[|front|] == s[done] && data[..|front|] == front && data[|front| + 1..] == s[done + 1..]
            && EscapeControls(s[..done + 1]) == front + EscapeChar(s[done])
  {
    var front := EscapeControls(s[..done]);
    SplitAt(front, s[done..]);
    assert s[..done + 1][..done] == s[..done];
    assert data[|front| + 1..] == data[|front|..][1..];
  }

  /** The scan at `index`: `done` characters of `s` are escaped, and the last `pad` characters of what
      they became are still ahead. */
  ghost predicate Scanned(s: string, data: string, index: nat, done: nat, pad: nat) {
    && done <= |s| && data == EscapeControls(s[..done]) + s[done..]
    && index + pad == |EscapeControls(s[..done])| && NoControls(EscapeControls(s[..done]))
  }

  lemma ScansOver(s: string, data: string, index: nat, done: nat, pad: nat)
    requires Scanned(s, data, index, done, pad) && pad > 0
    ensures !IsControl(data[index]) && Scanned(s, data, index + 1, done, pad - 1)
  {
    assert data[index] == EscapeControls(s[..done])[index];
  }

  function Splice(data: string, index: nat): string
    requires index < |data|
  {
    data[..index] + EscapeChar(data[index]) + data[index + 1..]
  }

  lemma ScansNext(s: string, data: string, index: nat, done: nat)
    requires Scanned(s, data, index, done, 0) && index < |data|
    ensures done < |s| && (!IsControl(data[index]) ==> Splice(data, index) == data)
    ensures EscapeChar(data[index]) != ""
    ensures Scanned(s, Splice(data, index), index + 1, done + 1, |EscapeChar(data[index])| - 1)
  {
    EscapesOne(s, done, data);
    EscapeCharHasNoControls(data[index]);
    assert !IsControl(data[index]) ==> data == data[..index] + [data[index]] + data[index + 1..];
  }

  /** The scan for control characters, over a string that grows under it. */
  method EscapeLoop(s: string) returns (data: string)
    ensures data == EscapeControls(s) && NoControls(data)
  {
    data := s;
    var index := 0;
    ghost var done: nat, pad: nat := 0, 0;
    while index < |data|
      invariant Scanned(s, data, index, done, pad)
      decreases |s| - done, pad
    {
      if pad > 0 {
        ScansOver(s, data, index, done, pad);
        pad := pad - 1;
      } else {
        ScansNext(s, data, index, done);
        pad := |EscapeChar(data[index])| - 1;
        done := done + 1;
      }
      if IsControl(data[index]) {
        data := Splice(data, index);
      }
      index := index + 1;
    }
    assert s[..done] == s;
  }

  method ReplaceLoop(s: string, rules: seq<Rule>) returns (data: string)
    ensures data == ReplaceAll(s, rules)
  {
    data := s;
    for index := 0 to |rules|
      invariant data == ReplaceAll(s, rules[..index])
    {
      assert rules[..index + 1][..index] == rules[..index];
      data := ReplaceFirst(data, rules[index]);
    }
    assert rules[..|rules|] == rules;
  }

  method CtrlLoop(s: string) returns (data: string)
    ensures data == ReplaceAll(s, CTRL_LIST)
  {
    data := s;
    for index := 1 to |SIGNAL_CHARS|
      invariant data == ReplaceAll(s, CTRL_LIST[..index - 1])
    {
      assert CTRL_LIST[..index][..index - 1] == CTRL_LIST[..index - 1];
      data := ReplaceFirst(data, CtrlRule(index));
    }
    assert CTRL_LIST[..|CTRL_LIST|] == CTRL_LIST;
  }

  /** process_keystrokes. No control character other than tab and line feed survives. */
  method ProcessKeystrokes(inData: string) returns (data: string)
    ensures data == Processed(inData) && NoControls(data)
  {
    data := ReplaceLoop(inData, REPLACE_LIST);
    data := CtrlLoop(data);
    data := EscapeLoop(data);
  }

  // ---------- Exactly which text is left alone ----------

  predicate IsSpecial(c: char) {
    c < ' ' || c == DEL
  }

  function Specials(s: string): nat {
    if s == "" then 0 else Specials(s[..|s| - 1]) + (if IsSpecial(s[|s| - 1]) then 1 else 0)
  }

  lemma {:induction false} SpecialsConcat(a: string, b: string)
    ensures Specials(a + b) == Specials(a) + Specials(b)
    decreases |b|
  {
    if b == "" {
      assert a + b == a;
    } else {
      assert (a + b)[..|a + b| - 1] == a + b[..|b| - 1];
      SpecialsConcat(a, b[..|b| - 1]);
    }
  }

  lemma {:induction false} NoSpecials(s: string)
    ensures Specials(s) == 0 <==> forall i :: 0 <= i < |s| ==> !IsSpecial(s[i])
  {
    if s != "" {
      NoSpecials(s[..|s| - 1]);
    }
  }

  /** A rule needs a special character to match and puts none in its place. */
  predicate ConsumesSpecial(r: Rule) {
    && Specials(r.replacement) == 0
    && r.pattern != [] && r.pattern[0].Lit? && IsSpecial(r.pattern[0].c)
  }

  predicate Occurs(s: string, r: Rule) {
    exists i :: 0 <= i < |s| && Matches(s[i..], r.pattern)
  }

  /** One rule never adds special characters, and removes one if it changes anything. */
  lemma {:induction false} ReplaceFirstConsumes(s: string, r: Rule)
    requires ConsumesSpecial(r)
    ensures Specials(ReplaceFirst(s, r)) < Specials(s) || (ReplaceFirst(s, r) == s && !Occurs(s, r))
  {
    if Matches(s, r.pattern) {
      MatchConsumes(s, r);
    } else if s != "" {
      ReplaceFirstConsumes(s[1..], r);
      SpecialsConcat([s[0]], s[1..]);
      SpecialsConcat([s[0]], ReplaceFirst(s[1..], r));
      assert s == [s[0]] + s[1..];
      OccursLater(s, r);
    }
  }

  /** The leftmost match of a pattern starts at `i`. */
  ghost predicate FirstAt(s: string, p: Pattern, i: nat) {
    i + |p| <= |s| && Matches(s[i..], p) && forall j :: 0 <= j < i ==> !Matches(s[j..], p)
  }

  lemma FirstInRest(s: string, p: Pattern, i: nat)
    requires FirstAt(s, p, i) && 0 < i
    ensures !Matches(s, p) && FirstAt(s[1..], p, i - 1)
  {
    assert s[0..] == s && s[1..][i - 1..] == s[i..];
    forall j | 0 <= j < i - 1
      ensures !Matches(s[1..][j..], p)
    {
      assert s[1..][j..] == s[j + 1..];
    }
  }

  lemma OneFurther(s: string, i: nat, n: nat, name: string)
    requires 0 < i && i + n <= |s|
    ensures [s[0]] + (s[1..][..i - 1] + name + s[1..][i - 1 + n..]) == s[..i] + name + s[i + n..]
  {
  }

  lemma ReplacesHere(s: string, r: Rule)
    requires FirstAt(s, r.pattern, 0)
    ensures ReplaceFirst(s, r) == s[..0] + r.replacement + s[0 + |r.pattern|..]
  {
    assert s[0..] == s && s[..0] + r.replacement == r.replacement;
  }

  lemma ReplacesThere(s: string, r: Rule, i: nat)
    requires 0 < i && i + |r.pattern| <= |s| && !Matches(s, r.pattern)
    requires ReplaceFirst(s[1..], r) == s[1..][..i - 1] + r.replacement + s[1..][i - 1 + |r.pattern|..]
    ensures ReplaceFirst(s, r) == s[..i] + r.replacement + s[i + |r.pattern|..]
  {
    OneFurther(s, i, |r.pattern|, r.replacement);
  }

  /** Only the leftmost match is replaced; the rest of the text stays. */
  lemma {:induction false} ReplacesLeftmost(s: string, r: Rule, i: nat)
    requires FirstAt(s, r.pattern, i)
    ensures ReplaceFirst(s, r) == s[..i] + r.replacement + s[i + |r.pattern|..]
    decreases i
  {
    if i == 0 {
      ReplacesHere(s, r);
    } else {
      FirstInRest(s, r.pattern, i);
      ReplacesLeftmost(s[1..], r, i - 1);
      ReplacesThere(s, r, i);
    }
  }

  lemma MatchConsumes(s: string, r: Rule)
    requires ConsumesSpecial(r) && Matches(s, r.pattern)
    ensures Specials(ReplaceFirst(s, r)) < Specials(s)
  {
    var n := |r.pattern|;
    assert s == [s[0]] + s[1..n] + s[n..];
    SpecialsConcat([s[0]] + s[1..n], s[n..]);
    SpecialsConcat([s[0]], s[1..n]);
    SpecialsConcat(r.replacement, s[n..]);
  }

  lemma OccursLater(s: string, r: Rule)
    requires s != "" && !Matches(s, r.pattern)
    ensures Occurs(s, r) <==> Occurs(s[1..], r)
  {
    assert s[0..] == s;
    forall i | 1 <= i < |s|
      ensures s[i..] == s[1..][i - 1..]
    {
    }
    if Occurs(s[1..], r) {
      var i :| 0 <= i < |s| - 1 && Matches(s[1..][i..], r.pattern);
      assert s[1..][i..] == s[i + 1..];
    }
  }

  predicate AllConsume(rules: seq<Rule>) {
    forall k :: 0 <= k < |rules| ==> ConsumesSpecial(rules[k])
  }

  predicate NoneOccurs(s: string, rules: seq<Rule>) {
    forall k :: 0 <= k < |rules| ==> !Occurs(s, rules[k])
  }

  lemma {:induction false} ReplaceAllConsumes(s: string, rules: seq<Rule>)
    requires AllConsume(rules)
    ensures Specials(ReplaceAll(s, rules)) < Specials(s) || (ReplaceAll(s, rules) == s && NoneOccurs(s, rules))
  {
    if rules != [] {
      var init, last := rules[..|rules| - 1], rules[|rules| - 1];
      ReplaceAllConsumes(s, init);
      ReplaceFirstConsumes(ReplaceAll(s, init), last);
      NoneOccursSnoc(s, rules);
    }
  }

  lemma NoneOccursSnoc(s: string, rules: seq<Rule>)
    requires rules != []
    ensures NoneOccurs(s, rules) <==> NoneOccurs(s, rules[..|rules| - 1]) && !Occurs(s, rules[|rules| - 1])
  {
    assert forall k :: 0 <= k < |rules| - 1 ==> rules[k] == rules[..|rules| - 1][k];
  }

  lemma EscapeCharConsumes(c: char)
    ensures Specials(EscapeChar(c)) == if IsSpecial(c) && !IsControl(c) then 1 else 0
  {
    DecimalIsDigits(c as int);
    NoSpecials(EscapeChar(c));
    assert !IsControl(c) ==> EscapeChar(c)[..0] == "";
  }

  lemma NoControlsSnoc(s: string)
    requires s != ""
    ensures NoControls(s) <==> NoControls(s[..|s| - 1]) && !IsControl(s[|s| - 1])
  {
  }

  lemma {:induction false} EscapeControlsConsumes(s: string)
    ensures Specials(EscapeControls(s)) <= Specials(s)
    ensures Specials(EscapeControls(s)) == Specials(s) ==> NoControls(s)
  {
    if s != "" {
      var init, c := s[..|s| - 1], s[|s| - 1];
      EscapeControlsConsumes(init);
      EscapeCharConsumes(c);
      SpecialsConcat(EscapeControls(init), EscapeChar(c));
      NoControlsSnoc(s);
    }
  }

  lemma {:induction false} EscapeControlsKeeps(s: string)
    requires NoControls(s)
    ensures EscapeControls(s) == s
  {
    if s != "" {
      EscapeControlsKeeps(s[..|s| - 1]);
      assert EscapeChar(s[|s| - 1]) == [s[|s| - 1]];
      assert s == s[..|s| - 1] + [s[|s| - 1]];
    }
  }

  lemma NameIsPlain(name: string)
    requires forall i :: 0 <= i < |name| ==> !IsSpecial(name[i])
    ensures Specials("[" + name + "]") == 0
  {
    NoSpecials("[" + name + "]");
  }

  lemma KeyConsumes(middle: seq<Atom>, last: string, name: string)
    requires forall i :: 0 <= i < |name| ==> !IsSpecial(name[i])
    ensures ConsumesSpecial(Key(middle, last, name))
  {
    NameIsPlain(name);
  }

  lemma SingleConsumes(c: char, name: string)
    requires IsSpecial(c) && forall i :: 0 <= i < |name| ==> !IsSpecial(name[i])
    ensures ConsumesSpecial(Single(c, name))
  {
    NameIsPlain(name);
  }

  lemma ArrowsConsume()
    ensures AllConsume(ARROWS)
  {
    KeyConsumes([Any], "D", "LEFT ARROW");
    KeyConsumes([Any], "C", "RIGHT ARROW");
    KeyConsumes([Any], "A", "UP ARROW");
    KeyConsumes([Any], "B", "DOWN ARROW");
  }

  lemma JumpsConsume()
    ensures AllConsume(JUMPS)
  {
    KeyConsumes([Any], "F", "END");
    KeyConsumes([Any], "H", "HOME");
  }

  lemma EditingConsumes()
    ensures AllConsume(EDITING)
  {
    KeyConsumes([], "[3~", "DELETE");
    KeyConsumes([], "[6~", "PAGE DOWN");
    KeyConsumes([], "[5~", "PAGE UP");
    KeyConsumes([], "[2~", "INSERT");
  }

  lemma F1ToF4Consume()
    ensures AllConsume(F1_TO_F4)
  {
    KeyConsumes([], "OP", "F1");
    KeyConsumes([], "OQ", "F2");
    KeyConsumes([], "OR", "F3");
    KeyConsumes([], "OS", "F4");
  }

  lemma F5ToF8Consume()
    ensures AllConsume(F5_TO_F8)
  {
    KeyConsumes([], "[15~", "F5");
    KeyConsumes([], "[17~", "F6");
    KeyConsumes([], "[18~", "F7");
    KeyConsumes([], "[19~", "F8");
  }

  lemma F9ToF12Consume()
    ensures AllConsume(F9_TO_F12)
  {
    KeyConsumes([], "[20~", "F9");
    KeyConsumes([], "[21~", "F10");
    KeyConsumes([], "[23~", "F11");
    KeyConsumes([], "[24~", "F12");
  }

  lemma CharactersConsume()
    ensures AllConsume(CHARACTERS)
  {
    SingleConsumes('\t', "TAB");
    SingleConsumes(ESC, "ESC");
    SingleConsumes('\r', "CARRIAGE RETURN");
    SingleConsumes('\n', "LINE FEED");
    SingleConsumes(DEL, "BACKSPACE");
  }

  lemma JoinConsumes(a: seq<Rule>, b: seq<Rule>)
    requires AllConsume(a) && AllConsume(b)
    ensures AllConsume(a + b)
  {
  }

  lemma ReplaceListConsumes()
    ensures AllConsume(REPLACE_LIST)
  {
    ArrowsConsume();
    JumpsConsume();
    EditingConsumes();
    F1ToF4Consume();
    F5ToF8Consume();
    F9ToF12Consume();
    CharactersConsume();
    JoinConsumes(ARROWS, JUMPS);
    JoinConsumes(ARROWS + JUMPS, EDITING);
    JoinConsumes(ARROWS + JUMPS + EDITING, F1_TO_F4);
    JoinConsumes(ARROWS + JUMPS + EDITING + F1_TO_F4, F5_TO_F8);
    JoinConsumes(ARROWS + JUMPS + EDITING + F1_TO_F4 + F5_TO_F8, F9_TO_F12);
    JoinConsumes(ARROWS + JUMPS + EDITING + F1_TO_F4 + F5_TO_F8 + F9_TO_F12, CHARACTERS);
  }

  lemma CtrlListConsumes()
    ensures AllConsume(CTRL_LIST)
  {
    forall k | 0 <= k < |CTRL_LIST|
      ensures ConsumesSpecial(CTRL_LIST[k])
    {
      NameIsPlain("CTRL+" + [SIGNAL_CHARS[k]]);
    }
  }

  /** A character below 0x20 or 0x7f is named by some rule or escaped at the end. */
  lemma SpecialsAreCaught(s: string, i: nat)
    requires i < |s| && NoControls(s)
    requires !Occurs(s, REPLACE_LIST[26]) && !Occurs(s, CTRL_LIST[8]) && !Occurs(s, CTRL_LIST[9])
    ensures !IsSpecial(s[i])
  {
    assert !Matches(s[i..], REPLACE_LIST[26].pattern);
    assert !Matches(s[i..], CTRL_LIST[8].pattern) && !Matches(s[i..], CTRL_LIST[9].pattern);
  }

  /** Text passes through unchanged exactly when it has no character below 0x20 and no 0x7f. */
  lemma UnchangedIffPlain(s: string)
    ensures Processed(s) == s <==> forall i :: 0 <= i < |s| ==> !IsSpecial(s[i])
  {
    var named := ReplaceAll(s, REPLACE_LIST);
    var ctrl := ReplaceAll(named, CTRL_LIST);
    ReplaceListConsumes();
    CtrlListConsumes();
    ReplaceAllConsumes(s, REPLACE_LIST);
    ReplaceAllConsumes(named, CTRL_LIST);
    EscapeControlsConsumes(ctrl);
    NoSpecials(s);
    if Specials(s) == 0 {
      EscapeControlsKeeps(s);
    }
    if Processed(s) == s {
      forall i | 0 <= i < |s|
        ensures !IsSpecial(s[i])
      {
        SpecialsAreCaught(s, i);
      }
    }
  }
}
