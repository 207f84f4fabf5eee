/** What the keystroke panel shows for each key: a text that is exactly one key becomes the key's name. */
module KeyNames {
  import opened Keystrokes
  import opened Prelude

  // ---------- One rule at a time ----------

  lemma {:induction false} ReplaceAllJoin(s: string, first: seq<Rule>, second: seq<Rule>)
    ensures ReplaceAll(s, first + second) == ReplaceAll(ReplaceAll(s, first), second)
    decreases |second|
  {
    if second == [] {
      assert first + second == first;
    } else {
      assert (first + second)[..|first + second| - 1] == first + second[..|second| - 1];
      ReplaceAllJoin(s, first, second[..|second| - 1]);
    }
  }

  lemma {:induction false} AbsentRuleKeeps(s: string, r: Rule)
    requires r.pattern != [] && !Occurs(s, r)
    ensures ReplaceFirst(s, r) == s
  {
    if s != "" {
      assert s[0..] == s;
      assert !Matches(s, r.pattern);
      OccursLater(s, r);
      AbsentRuleKeeps(s[1..], r);
    }
  }

  lemma {:induction false} AbsentRulesKeep(s: string, rules: seq<Rule>)
    requires NoneOccurs(s, rules) && AllConsume(rules)
    ensures ReplaceAll(s, rules) == s
  {
    if rules != [] {
      var init, last := rules[..|rules| - 1], rules[|rules| - 1];
      NoneOccursSnoc(s, rules);
      AbsentRulesKeep(s, init);
      assert last == rules[|rules| - 1];
      AbsentRuleKeeps(s, last);
    }
  }

  lemma NothingLeft(s: string, rules: seq<Rule>)
    requires Specials(s) == 0 && AllConsume(rules)
    ensures ReplaceAll(s, rules) == s
  {
    ReplaceAllConsumes(s, rules);
  }

  lemma PlainEndsUp(s: string)
    requires Specials(s) == 0
    ensures EscapeControls(ReplaceAll(s, CTRL_LIST)) == s
  {
    CtrlListConsumes();
    NothingLeft(s, CTRL_LIST);
    NoSpecials(s);
    EscapeControlsKeeps(s);
  }

  /** The list in front of one of its rules, the rule, and the list behind it. */
  ghost predicate Splits(rules: seq<Rule>, before: seq<Rule>, r: Rule, after: seq<Rule>) {
    rules == before + [r] + after && AllConsume(before) && ConsumesSpecial(r) && AllConsume(after)
  }

  /** A text that one rule matches from end to end, and no earlier rule anywhere, becomes that rule's name. */
  lemma NamedInList(s: string, rules: seq<Rule>, before: seq<Rule>, r: Rule, after: seq<Rule>)
    requires Splits(rules, before, r, after)
    requires NoneOccurs(s, before) && Matches(s, r.pattern) && |s| == |r.pattern|
    ensures ReplaceAll(s, rules) == r.replacement && Specials(r.replacement) == 0
  {
    ReplaceAllJoin(s, before + [r], after);
    ReplaceAllJoin(s, before, [r]);
    AbsentRulesKeep(s, before);
    assert [r][..0] == [];
    assert ReplaceAll(s, [r]) == ReplaceFirst(s, r) == r.replacement + "";
    assert r.replacement + "" == r.replacement;
    NothingLeft(r.replacement, after);
  }

  // ---------- Keys that send escape sequences ----------

  lemma KeyMatches(s: string, middle: seq<Atom>, last: string, name: string)
    requires |s| == 1 + |middle| + |last| && s[0] == ESC && s[1 + |middle|..] == last
    requires forall i :: 0 <= i < |middle| ==> AtomMatches(middle[i], s[1 + i])
    ensures var p := Key(middle, last, name).pattern; Matches(s, p) && |s| == |p|
  {
    var p := Key(middle, last, name).pattern;
    forall i | 0 <= i < |p|
      ensures AtomMatches(p[i], s[i])
    {
      if i > |middle| {
        assert p[i] == Lit(last[i - 1 - |middle|]) && s[i] == last[i - 1 - |middle|];
      }
    }
  }

  /** A key's rule occurs nowhere in another key's text if one of its characters is not there. */
  lemma KeyMisses(s: string, middle: seq<Atom>, last: string, name: string, i: nat)
    requires s != "" && i < |last|
    requires ESC !in s[1..] || 1 + |middle| + |last| >= |s|
    requires 1 + |middle| + i >= |s| || s[1 + |middle| + i] != last[i]
    ensures !Occurs(s, Key(middle, last, name))
  {
    var p := Key(middle, last, name).pattern;
    assert p[0] == Lit(ESC) && p[1 + |middle| + i] == Lit(last[i]);
    forall k | 0 <= k < |s|
      ensures !Matches(s[k..], p)
    {
      if k == 0 {
        assert s[0..] == s;
      } else if |p| <= |s| - k {
        assert s[k..][0] == s[1..][k - 1];
      }
    }
  }

  // ---------- The list ----------

  /** What process_keystrokes makes of a text with some replacement list. */
  function Panel(s: string, rules: seq<Rule>): string {
    EscapeControls(ReplaceAll(ReplaceAll(s, rules), CTRL_LIST))
  }

  predicate ArrowsAt(rules: seq<Rule>, i: nat) {
    && |rules| >= i + 4
    && rules[i] == Key([Any], "D", "LEFT ARROW") && rules[i + 1] == Key([Any], "C", "RIGHT ARROW")
    && rules[i + 2] == Key([Any], "A", "UP ARROW") && rules[i + 3] == Key([Any], "B", "DOWN ARROW")
  }

  predicate JumpsAt(rules: seq<Rule>, i: nat) {
    |rules| >= i + 2 && rules[i] == Key([Any], "F", "END") && rules[i + 1] == Key([Any], "H", "HOME")
  }

  predicate EditingAt(rules: seq<Rule>, i: nat) {
    && |rules| >= i + 4
    && rules[i] == Key([], "[3~", "DELETE") && rules[i + 1] == Key([], "[6~", "PAGE DOWN")
    && rules[i + 2] == Key([], "[5~", "PAGE UP") && rules[i + 3] == Key([], "[2~", "INSERT")
  }

  predicate LowFunctionsAt(rules: seq<Rule>, i: nat) {
    && |rules| >= i + 4
    && rules[i] == Key([], "OP", "F1") && rules[i + 1] == Key([], "OQ", "F2")
    && rules[i + 2] == Key([], "OR", "F3") && rules[i + 3] == Key([], "OS", "F4")
  }

  predicate MidFunctionsAt(rules: seq<Rule>, i: nat) {
    && |rules| >= i + 4
    && rules[i] == Key([], "[15~", "F5") && rules[i + 1] == Key([], "[17~", "F6")
    && rules[i + 2] == Key([], "[18~", "F7") && rules[i + 3] == Key([], "[19~", "F8")
  }

  predicate HighFunctionsAt(rules: seq<Rule>, i: nat) {
    && |rules| >= i + 4
    && rules[i] == Key([], "[20~", "F9") && rules[i + 1] == Key([], "[21~", "F10")
    && rules[i + 2] == Key([], "[23~", "F11") && rules[i + 3] == Key([], "[24~", "F12")
  }

  predicate CharactersAt(rules: seq<Rule>, i: nat) {
    && |rules| == i + 5
    && rules[i] == Single('\t', "TAB") && rules[i + 1] == Single(ESC, "ESC")
    && rules[i + 2] == Single('\r', "CARRIAGE RETURN") && rules[i + 3] == Single('\n', "LINE FEED")
    && rules[i + 4] == Single(DEL, "BACKSPACE")
  }

  lemma ListStarts()
    ensures ArrowsAt(REPLACE_LIST, 0) && JumpsAt(REPLACE_LIST, 4) && EditingAt(REPLACE_LIST, 6)
  {
  }

  lemma ListGoesOn()
    ensures LowFunctionsAt(REPLACE_LIST, 10) && MidFunctionsAt(REPLACE_LIST, 14) && HighFunctionsAt(REPLACE_LIST, 18)
  {
  }

  lemma ListEnds()
    ensures CharactersAt(REPLACE_LIST, 22)
  {
  }

  lemma NamedInRules(s: string, rules: seq<Rule>, k: nat)
    requires AllConsume(rules) && k < |rules|
    requires forall j :: 0 <= j < k ==> !Occurs(s, rules[j])
    requires Matches(s, rules[k].pattern) && |s| == |rules[k].pattern|
    ensures ReplaceAll(s, rules) == rules[k].replacement && Specials(rules[k].replacement) == 0
  {
    var before, after := rules[..k], rules[k + 1..];
    assert rules == before + [rules[k]] + after;
    Parts(before, rules[k], after);
    NamedInList(s, rules, before, rules[k], after);
  }

  /** Rule `k` of a list, if no earlier rule occurs. */
  lemma NamedAt(s: string, rules: seq<Rule>, k: nat)
    requires AllConsume(rules) && k < |rules|
    requires forall j :: 0 <= j < k ==> !Occurs(s, rules[j])
    requires Matches(s, rules[k].pattern) && |s| == |rules[k].pattern|
    ensures Panel(s, rules) == rules[k].replacement
  {
    NamedInRules(s, rules, k);
    PlainEndsUp(rules[k].replacement);
  }

  lemma Parts(front: seq<Rule>, r: Rule, rest: seq<Rule>)
    requires AllConsume(front + [r] + rest)
    ensures AllConsume(front) && ConsumesSpecial(r) && AllConsume(rest)
  {
    var all := front + [r] + rest;
    assert forall i :: 0 <= i < |front| ==> front[i] == all[i];
    assert all[|front|] == r;
    assert forall i :: 0 <= i < |rest| ==> rest[i] == all[|front| + 1 + i];
  }

  // ---------- Which rules miss which keys ----------

  /** None of the `n` rules from `i` on occurs. */
  predicate Miss(s: string, rules: seq<Rule>, i: nat, n: nat) {
    i + n <= |rules| && forall j :: i <= j < i + n ==> !Occurs(s, rules[j])
  }

  /** A key's text: ESC first. */
  predicate IsKeyText(s: string) {
    |s| >= 3 && s[0] == ESC && (ESC !in s[1..] || |s| == 3)
  }

  lemma ArrowsMiss(s: string, rules: seq<Rule>, i: nat)
    requires ArrowsAt(rules, i) && IsKeyText(s) && s[2] !in "DCAB"
    ensures Miss(s, rules, i, 4)
  {
    KeyMisses(s, [Any], "D", "LEFT ARROW", 0);
    KeyMisses(s, [Any], "C", "RIGHT ARROW", 0);
    KeyMisses(s, [Any], "A", "UP ARROW", 0);
    KeyMisses(s, [Any], "B", "DOWN ARROW", 0);
  }

  lemma JumpsMiss(s: string, rules: seq<Rule>, i: nat)
    requires JumpsAt(rules, i) && IsKeyText(s) && s[2] !in "FH"
    ensures Miss(s, rules, i, 2)
  {
    KeyMisses(s, [Any], "F", "END", 0);
    KeyMisses(s, [Any], "H", "HOME", 0);
  }

  lemma EditingMisses(s: string, rules: seq<Rule>, i: nat)
    requires EditingAt(rules, i) && IsKeyText(s) && (|s| == 3 || s[3] != '~')
    ensures Miss(s, rules, i, 4)
  {
    KeyMisses(s, [], "[3~", "DELETE", 2);
    KeyMisses(s, [], "[6~", "PAGE DOWN", 2);
    KeyMisses(s, [], "[5~", "PAGE UP", 2);
    KeyMisses(s, [], "[2~", "INSERT", 2);
  }

  lemma LowFunctionsMiss(s: string, rules: seq<Rule>, i: nat)
    requires LowFunctionsAt(rules, i) && IsKeyText(s) && s[1] != 'O'
    ensures Miss(s, rules, i, 4)
  {
    KeyMisses(s, [], "OP", "F1", 0);
    KeyMisses(s, [], "OQ", "F2", 0);
    KeyMisses(s, [], "OR", "F3", 0);
    KeyMisses(s, [], "OS", "F4", 0);
  }

  lemma MidFunctionsMiss(s: string, rules: seq<Rule>, i: nat)
    requires MidFunctionsAt(rules, i) && IsKeyText(s) && s[2] != '1'
    ensures Miss(s, rules, i, 4)
  {
    KeyMisses(s, [], "[15~", "F5", 1);
    KeyMisses(s, [], "[17~", "F6", 1);
    KeyMisses(s, [], "[18~", "F7", 1);
    KeyMisses(s, [], "[19~", "F8", 1);
  }

  // ---------- The keys ----------

  function ArrowName(last: char): string
    requires last in "ABCD"
  {
    match last
    case 'A' => "UP ARROW"
    case 'B' => "DOWN ARROW"
    case 'C' => "RIGHT ARROW"
    case _ => "LEFT ARROW"
  }

  function ArrowPlace(last: char): (k: nat)
    requires last in "ABCD"
    ensures k < 4
  {
    match last
    case 'A' => 2
    case 'B' => 3
    case 'C' => 1
    case _ => 0
  }

  lemma ArrowRule(rules: seq<Rule>, last: char)
    requires ArrowsAt(rules, 0) && last in "ABCD"
    ensures rules[ArrowPlace(last)] == Key([Any], [last], ArrowName(last))
  {
    assert "A" == ['A'] && "B" == ['B'] && "C" == ['C'] && "D" == ['D'];
  }

  lemma ArrowsFrom(s: string, rules: seq<Rule>, c: char, last: char)
    requires ArrowsAt(rules, 0) && last in "ABCD" && s == [ESC, c, last]
    ensures Miss(s, rules, 0, ArrowPlace(last))
  {
    if last != 'D' { KeyMisses(s, [Any], "D", "LEFT ARROW", 0); }
    if last != 'C' { KeyMisses(s, [Any], "C", "RIGHT ARROW", 0); }
    if last != 'A' { KeyMisses(s, [Any], "A", "UP ARROW", 0); }
  }

  /** A key with any character in its middle, if no earlier rule occurs in its text. */
  lemma LooseKeyNamed(s: string, rules: seq<Rule>, k: nat, c: char, last: char, name: string)
    requires AllConsume(rules) && k < |rules| && Miss(s, rules, 0, k) && rules[k] == Key([Any], [last], name)
    requires AtomMatches(Any, c) && s == [ESC, c, last]
    ensures Panel(s, rules) == "[" + name + "]"
  {
    KeyMatches(s, [Any], [last], name);
    NamedAt(s, rules, k);
  }

  /** Whatever character stands in the middle, the last one decides. */
  lemma ArrowKeys(c: char, last: char)
    requires AtomMatches(Any, c) && last in "ABCD"
    ensures Processed([ESC, c, last]) == "[" + ArrowName(last) + "]"
  {
    ListStarts();
    ReplaceListConsumes();
    ArrowRule(REPLACE_LIST, last);
    ArrowsFrom([ESC, c, last], REPLACE_LIST, c, last);
    LooseKeyNamed([ESC, c, last], REPLACE_LIST, ArrowPlace(last), c, last, ArrowName(last));
  }

  lemma EndKey(c: char)
    requires AtomMatches(Any, c)
    ensures Processed([ESC, c, 'F']) == "[END]"
  {
    ListStarts();
    ReplaceListConsumes();
    ArrowsMiss([ESC, c, 'F'], REPLACE_LIST, 0);
    assert "F" == ['F'];
    LooseKeyNamed([ESC, c, 'F'], REPLACE_LIST, 4, c, 'F', "END");
  }

  lemma EndMisses(c: char, rules: seq<Rule>)
    requires ArrowsAt(rules, 0) && JumpsAt(rules, 4)
    ensures Miss([ESC, c, 'H'], rules, 0, 5)
  {
    ArrowsMiss([ESC, c, 'H'], rules, 0);
    KeyMisses([ESC, c, 'H'], [Any], "F", "END", 0);
  }

  lemma HomeKey(c: char)
    requires AtomMatches(Any, c)
    ensures Processed([ESC, c, 'H']) == "[HOME]"
  {
    ListStarts();
    ReplaceListConsumes();
    EndMisses(c, REPLACE_LIST);
    assert "H" == ['H'];
    LooseKeyNamed([ESC, c, 'H'], REPLACE_LIST, 5, c, 'H', "HOME");
  }

  /** A key of the list, if no earlier rule occurs in its text. */
  lemma KeyNamed(s: string, rules: seq<Rule>, k: nat, last: string, name: string)
    requires AllConsume(rules) && k < |rules| && Miss(s, rules, 0, k) && rules[k] == Key([], last, name)
    requires s == [ESC] + last
    ensures Panel(s, rules) == "[" + name + "]"
  {
    KeyMatches(s, [], last, name);
    NamedAt(s, rules, k);
  }

  lemma MissJoin(s: string, rules: seq<Rule>, i: nat, m: nat, n: nat)
    requires Miss(s, rules, i, m) && Miss(s, rules, i + m, n)
    ensures Miss(s, rules, i, m + n)
  {
  }

  function EditingName(n: nat): string
    requires n < 4
  {
    ["DELETE", "PAGE DOWN", "PAGE UP", "INSERT"][n]
  }

  lemma EditingFrom(s: string, rules: seq<Rule>, i: nat, n: nat)
    requires EditingAt(rules, i) && n < 4 && s == [ESC, '[', "3652"[n], '~']
    ensures Miss(s, rules, i, n)
  {
    if n > 0 { KeyMisses(s, [], "[3~", "DELETE", 1); }
    if n > 1 { KeyMisses(s, [], "[6~", "PAGE DOWN", 1); }
    if n > 2 { KeyMisses(s, [], "[5~", "PAGE UP", 1); }
  }

  lemma EditingRule(rules: seq<Rule>, i: nat, n: nat)
    requires EditingAt(rules, i) && n < 4
    ensures rules[i + n] == Key([], ['[', "3652"[n], '~'], EditingName(n))
  {
    assert "[3~" == ['[', '3', '~'] && "[6~" == ['[', '6', '~'];
    assert "[5~" == ['[', '5', '~'] && "[2~" == ['[', '2', '~'];
  }

  lemma EditingIn(rules: seq<Rule>, n: nat)
    requires AllConsume(rules) && EditingAt(rules, 6) && n < 4
    requires Miss([ESC, '[', "3652"[n], '~'], rules, 0, 6)
    ensures Panel([ESC, '[', "3652"[n], '~'], rules) == "[" + EditingName(n) + "]"
  {
    var s := [ESC, '[', "3652"[n], '~'];
    EditingFrom(s, rules, 6, n);
    EditingRule(rules, 6, n);
    MissJoin(s, rules, 0, 6, n);
    KeyNamed(s, rules, 6 + n, ['[', "3652"[n], '~'], EditingName(n));
  }

  lemma ShortKeysMiss(s: string, rules: seq<Rule>)
    requires ArrowsAt(rules, 0) && JumpsAt(rules, 4) && IsKeyText(s) && s[2] !in "DCABFH"
    ensures Miss(s, rules, 0, 6)
  {
    ArrowsMiss(s, rules, 0);
    JumpsMiss(s, rules, 4);
    MissJoin(s, rules, 0, 4, 2);
  }

  lemma EditingKeys(n: nat)
    requires n < 4
    ensures Processed([ESC, '[', "3652"[n], '~']) == "[" + EditingName(n) + "]"
  {
    ListStarts();
    ReplaceListConsumes();
    ShortKeysMiss([ESC, '[', "3652"[n], '~'], REPLACE_LIST);
    EditingIn(REPLACE_LIST, n);
  }

  function FunctionName(n: nat): string
    requires 1 <= n <= 12
  {
    "F" + Decimal(n)
  }

  lemma FunctionNames()
    ensures FunctionName(1) == "F1" && FunctionName(2) == "F2" && FunctionName(3) == "F3" && FunctionName(4) == "F4"
    ensures FunctionName(5) == "F5" && FunctionName(6) == "F6" && FunctionName(7) == "F7" && FunctionName(8) == "F8"
    ensures FunctionName(9) == "F9" && FunctionName(10) == "F10"
    ensures FunctionName(11) == "F11" && FunctionName(12) == "F12"
  {
  }

  /** What the function keys send. */
  function FunctionText(n: nat): string
    requires 1 <= n <= 12
  {
    if n <= 4 then ['O', "PQRS"[n - 1]]
    else if n <= 8 then ['[', '1', "5789"[n - 5], '~']
    else ['[', '2', "0134"[n - 9], '~']
  }

  lemma LowFunctionsFrom(s: string, rules: seq<Rule>, i: nat, n: nat)
    requires LowFunctionsAt(rules, i) && n < 4 && s == [ESC, 'O', "PQRS"[n]]
    ensures Miss(s, rules, i, n)
  {
    if n > 0 { KeyMisses(s, [], "OP", "F1", 1); }
    if n > 1 { KeyMisses(s, [], "OQ", "F2", 1); }
    if n > 2 { KeyMisses(s, [], "OR", "F3", 1); }
  }

  lemma MidFunctionsFrom(s: string, rules: seq<Rule>, i: nat, n: nat)
    requires MidFunctionsAt(rules, i) && n < 4 && s == [ESC, '[', '1', "5789"[n], '~']
    ensures Miss(s, rules, i, n)
  {
    if n > 0 { KeyMisses(s, [], "[15~", "F5", 2); }
    if n > 1 { KeyMisses(s, [], "[17~", "F6", 2); }
    if n > 2 { KeyMisses(s, [], "[18~", "F7", 2); }
  }

  lemma HighFunctionsFrom(s: string, rules: seq<Rule>, i: nat, n: nat)
    requires HighFunctionsAt(rules, i) && n < 4 && s == [ESC, '[', '2', "0134"[n], '~']
    ensures Miss(s, rules, i, n)
  {
    if n > 0 { KeyMisses(s, [], "[20~", "F9", 2); }
    if n > 1 { KeyMisses(s, [], "[21~", "F10", 2); }
    if n > 2 { KeyMisses(s, [], "[23~", "F11", 2); }
  }

  lemma FunctionTextIsPlain(n: nat)
    requires 1 <= n <= 12
    ensures var s := [ESC] + FunctionText(n);
            && IsKeyText(s) && s[2] !in "DCABFH" && (|s| == 3 || s[3] != '~')
            && (n > 4 ==> s[1] != 'O') && (n > 8 ==> s[2] != '1')
  {
  }

  lemma BeforeFunctions(s: string, rules: seq<Rule>)
    requires EditingAt(rules, 6) && IsKeyText(s) && (|s| == 3 || s[3] != '~') && Miss(s, rules, 0, 6)
    ensures Miss(s, rules, 0, 10)
  {
    EditingMisses(s, rules, 6);
    MissJoin(s, rules, 0, 6, 4);
  }

  lemma BeforeMid(s: string, rules: seq<Rule>)
    requires LowFunctionsAt(rules, 10) && IsKeyText(s) && s[1] != 'O' && Miss(s, rules, 0, 10)
    ensures Miss(s, rules, 0, 14)
  {
    LowFunctionsMiss(s, rules, 10);
    MissJoin(s, rules, 0, 10, 4);
  }

  lemma BeforeHigh(s: string, rules: seq<Rule>)
    requires MidFunctionsAt(rules, 14) && IsKeyText(s) && s[2] != '1' && Miss(s, rules, 0, 14)
    ensures Miss(s, rules, 0, 18)
  {
    MidFunctionsMiss(s, rules, 14);
    MissJoin(s, rules, 0, 14, 4);
  }

  lemma LowRule(rules: seq<Rule>, n: nat)
    requires LowFunctionsAt(rules, 10) && 1 <= n <= 4
    ensures rules[9 + n] == Key([], FunctionText(n), FunctionName(n))
  {
    FunctionNames();
    assert "OP" == ['O', 'P'] && "OQ" == ['O', 'Q'] && "OR" == ['O', 'R'] && "OS" == ['O', 'S'];
  }

  lemma MidRule(rules: seq<Rule>, n: nat)
    requires MidFunctionsAt(rules, 14) && 5 <= n <= 8
    ensures rules[9 + n] == Key([], FunctionText(n), FunctionName(n))
  {
    FunctionNames();
    assert "[15~" == ['[', '1', '5', '~'] && "[17~" == ['[', '1', '7', '~'];
    assert "[18~" == ['[', '1', '8', '~'] && "[19~" == ['[', '1', '9', '~'];
  }

  lemma HighRule(rules: seq<Rule>, n: nat)
    requires HighFunctionsAt(rules, 18) && 9 <= n <= 12
    ensures rules[9 + n] == Key([], FunctionText(n), FunctionName(n))
  {
    FunctionNames();
    assert "[20~" == ['[', '2', '0', '~'] && "[21~" == ['[', '2', '1', '~'];
    assert "[23~" == ['[', '2', '3', '~'] && "[24~" == ['[', '2', '4', '~'];
  }

  lemma FunctionKey(n: nat)
    requires 1 <= n <= 12 && Miss([ESC] + FunctionText(n), REPLACE_LIST, 0, 9 + n)
    requires REPLACE_LIST[9 + n] == Key([], FunctionText(n), FunctionName(n))
    ensures Processed([ESC] + FunctionText(n)) == "[" + FunctionName(n) + "]"
  {
    ReplaceListConsumes();
    KeyNamed([ESC] + FunctionText(n), REPLACE_LIST, 9 + n, FunctionText(n), FunctionName(n));
  }

  lemma FunctionMisses(n: nat, rules: seq<Rule>)
    requires ArrowsAt(rules, 0) && JumpsAt(rules, 4) && EditingAt(rules, 6) && 1 <= n <= 12
    ensures Miss([ESC] + FunctionText(n), rules, 0, 10)
  {
    FunctionTextIsPlain(n);
    ShortKeysMiss([ESC] + FunctionText(n), rules);
    BeforeFunctions([ESC] + FunctionText(n), rules);
  }

  lemma LowMisses(n: nat, rules: seq<Rule>)
    requires LowFunctionsAt(rules, 10) && 1 <= n <= 4 && Miss([ESC] + FunctionText(n), rules, 0, 10)
    ensures Miss([ESC] + FunctionText(n), rules, 0, 9 + n)
  {
    var s := [ESC] + FunctionText(n);
    assert s == [ESC, 'O', "PQRS"[n - 1]];
    LowFunctionsFrom(s, rules, 10, n - 1);
    MissJoin(s, rules, 0, 10, n - 1);
  }

  lemma MidMisses(n: nat, rules: seq<Rule>)
    requires LowFunctionsAt(rules, 10) && MidFunctionsAt(rules, 14) && 5 <= n <= 8
    requires Miss([ESC] + FunctionText(n), rules, 0, 10)
    ensures Miss([ESC] + FunctionText(n), rules, 0, 9 + n)
  {
    var s := [ESC] + FunctionText(n);
    FunctionTextIsPlain(n);
    BeforeMid(s, rules);
    assert s == [ESC, '[', '1', "5789"[n - 5], '~'];
    MidFunctionsFrom(s, rules, 14, n - 5);
    MissJoin(s, rules, 0, 14, n - 5);
  }

  lemma HighMisses(n: nat, rules: seq<Rule>)
    requires HighFunctionsAt(rules, 18) && 9 <= n <= 12 && Miss([ESC] + FunctionText(n), rules, 0, 18)
    ensures Miss([ESC] + FunctionText(n), rules, 0, 9 + n)
  {
    var s := [ESC] + FunctionText(n);
    assert s == [ESC, '[', '2', "0134"[n - 9], '~'];
    HighFunctionsFrom(s, rules, 18, n - 9);
    MissJoin(s, rules, 0, 18, n - 9);
  }

  lemma FunctionKeys(n: nat)
    requires 1 <= n <= 12
    ensures Processed([ESC] + FunctionText(n)) == "[" + FunctionName(n) + "]"
  {
    ListStarts();
    ListGoesOn();
    FunctionMisses(n, REPLACE_LIST);
    if n <= 4 {
      LowMisses(n, REPLACE_LIST);
      LowRule(REPLACE_LIST, n);
    } else if n <= 8 {
      MidMisses(n, REPLACE_LIST);
      MidRule(REPLACE_LIST, n);
    } else {
      FunctionTextIsPlain(n);
      BeforeMid([ESC] + FunctionText(n), REPLACE_LIST);
      BeforeHigh([ESC] + FunctionText(n), REPLACE_LIST);
      HighMisses(n, REPLACE_LIST);
      HighRule(REPLACE_LIST, n);
    }
    FunctionKey(n);
  }

  // ---------- Single characters ----------

  predicate IsNamed(c: char) {
    c == '\t' || c == ESC || c == '\r' || c == '\n' || c == DEL
  }

  function CharacterName(c: char): string
    requires IsNamed(c)
  {
    if c == '\t' then "TAB"
    else if c == ESC then "ESC"
    else if c == '\r' then "CARRIAGE RETURN"
    else if c == '\n' then "LINE FEED"
    else "BACKSPACE"
  }

  /** Every rule in front of the characters needs more than one. */
  predicate LongBefore(rules: seq<Rule>, n: nat) {
    n <= |rules| && forall k :: 0 <= k < n ==> |rules[k].pattern| > 1
  }

  lemma LongMisses(c: char, r: Rule)
    requires |r.pattern| > 1
    ensures !Occurs([c], r)
  {
  }

  lemma SingleMisses(c: char, d: char, name: string)
    requires c != d
    ensures !Occurs([c], Single(d, name))
  {
    assert Single(d, name).pattern[0] == Lit(d);
  }

  lemma CharacterIn(rules: seq<Rule>, c: char)
    requires AllConsume(rules) && CharactersAt(rules, 22) && LongBefore(rules, 22)
    ensures IsNamed(c) ==> Panel([c], rules) == "[" + CharacterName(c) + "]"
    ensures !IsNamed(c) ==> ReplaceAll([c], rules) == [c]
  {
    forall j | 0 <= j < 22
      ensures !Occurs([c], rules[j])
    {
      LongMisses(c, rules[j]);
    }
    if c != '\t' { SingleMisses(c, '\t', "TAB"); }
    if c != ESC { SingleMisses(c, ESC, "ESC"); }
    if c != '\r' { SingleMisses(c, '\r', "CARRIAGE RETURN"); }
    if c != '\n' { SingleMisses(c, '\n', "LINE FEED"); }
    if IsNamed(c) {
      NamedAt([c], rules,
        if c == '\t' then 22 else if c == ESC then 23 else if c == '\r' then 24 else if c == '\n' then 25 else 26);
    } else {
      SingleMisses(c, DEL, "BACKSPACE");
      AbsentRulesKeep([c], rules);
    }
  }

  lemma KeysAreLong()
    ensures LongBefore(REPLACE_LIST, 22)
  {
    ListStarts();
    ListGoesOn();
    LongKeys(REPLACE_LIST);
  }

  lemma KeyIsLong(middle: seq<Atom>, last: string, name: string)
    requires last != ""
    ensures |Key(middle, last, name).pattern| > 1
  {
  }

  predicate Long(rules: seq<Rule>, i: nat, n: nat) {
    i + n <= |rules| && forall k :: i <= k < i + n ==> |rules[k].pattern| > 1
  }

  lemma LongStart(rules: seq<Rule>)
    requires ArrowsAt(rules, 0) && JumpsAt(rules, 4) && EditingAt(rules, 6)
    ensures Long(rules, 0, 10)
  {
    KeyIsLong([Any], "D", "LEFT ARROW");
    KeyIsLong([Any], "C", "RIGHT ARROW");
    KeyIsLong([Any], "A", "UP ARROW");
    KeyIsLong([Any], "B", "DOWN ARROW");
    KeyIsLong([Any], "F", "END");
    KeyIsLong([Any], "H", "HOME");
    KeyIsLong([], "[3~", "DELETE");
    KeyIsLong([], "[6~", "PAGE DOWN");
    KeyIsLong([], "[5~", "PAGE UP");
    KeyIsLong([], "[2~", "INSERT");
  }

  lemma LongMiddle(rules: seq<Rule>)
    requires LowFunctionsAt(rules, 10) && MidFunctionsAt(rules, 14)
    ensures Long(rules, 10, 8)
  {
    KeyIsLong([], "OP", "F1");
    KeyIsLong([], "OQ", "F2");
    KeyIsLong([], "OR", "F3");
    KeyIsLong([], "OS", "F4");
    KeyIsLong([], "[15~", "F5");
    KeyIsLong([], "[17~", "F6");
    KeyIsLong([], "[18~", "F7");
    KeyIsLong([], "[19~", "F8");
  }

  lemma LongEnd(rules: seq<Rule>)
    requires HighFunctionsAt(rules, 18)
    ensures Long(rules, 18, 4)
  {
    KeyIsLong([], "[20~", "F9");
    KeyIsLong([], "[21~", "F10");
    KeyIsLong([], "[23~", "F11");
    KeyIsLong([], "[24~", "F12");
  }

  lemma LongKeys(rules: seq<Rule>)
    requires ArrowsAt(rules, 0) && JumpsAt(rules, 4) && EditingAt(rules, 6)
    requires LowFunctionsAt(rules, 10) && MidFunctionsAt(rules, 14) && HighFunctionsAt(rules, 18)
    ensures LongBefore(rules, 22)
  {
    LongStart(rules);
    LongMiddle(rules);
    LongEnd(rules);
  }

  lemma NamedCharacters(c: char)
    requires IsNamed(c)
    ensures Processed([c]) == "[" + CharacterName(c) + "]"
  {
    ListEnds();
    KeysAreLong();
    ReplaceListConsumes();
    CharacterIn(REPLACE_LIST, c);
  }

  lemma UnnamedPasses(c: char)
    requires !IsNamed(c)
    ensures ReplaceAll([c], REPLACE_LIST) == [c]
  {
    ListEnds();
    KeysAreLong();
    ReplaceListConsumes();
    CharacterIn(REPLACE_LIST, c);
  }

  predicate ControlsIn(rules: seq<Rule>) {
    |rules| == 25 && forall j :: 0 <= j < 25 ==> rules[j] == CtrlRule(j + 1)
  }

  lemma ControlsMiss(rules: seq<Rule>, c: char)
    requires ControlsIn(rules)
    ensures forall j :: 0 <= j < 25 && j + 1 != c as int ==> !Occurs([c], rules[j])
  {
    forall j | 0 <= j < 25 && j + 1 != c as int
      ensures !Occurs([c], rules[j])
    {
      SingleMisses(c, (j + 1) as char, "CTRL+" + [SIGNAL_CHARS[j]]);
    }
  }

  lemma OtherControlIn(rules: seq<Rule>, c: char)
    requires AllConsume(rules) && ControlsIn(rules) && !(1 <= c as int <= 25)
    ensures ReplaceAll([c], rules) == [c]
  {
    ControlsMiss(rules, c);
    AbsentRulesKeep([c], rules);
  }

  lemma ControlIn(rules: seq<Rule>, c: char)
    requires AllConsume(rules) && ControlsIn(rules) && 1 <= c as int <= 25
    ensures ReplaceAll([c], rules) == CtrlRule(c as int).replacement && Specials(CtrlRule(c as int).replacement) == 0
  {
    ControlsMiss(rules, c);
    NamedInRules([c], rules, c as int - 1);
  }

  lemma AfterRules(s: string, listed: string, t: string)
    requires ReplaceAll(s, REPLACE_LIST) == listed && ReplaceAll(listed, CTRL_LIST) == t
    ensures Processed(s) == EscapeControls(t)
  {
  }

  lemma CtrlListControls()
    ensures ControlsIn(CTRL_LIST)
  {
  }

  lemma PlainStays(s: string)
    requires Specials(s) == 0
    ensures EscapeControls(s) == s
  {
    NoSpecials(s);
    EscapeControlsKeeps(s);
  }

  lemma CtrlNamed(c: char)
    requires 1 <= c as int <= 25 && !IsNamed(c)
    ensures Processed([c]) == CtrlRule(c as int).replacement
  {
    UnnamedPasses(c);
    CtrlListConsumes();
    CtrlListControls();
    ControlIn(CTRL_LIST, c);
    AfterRules([c], [c], CtrlRule(c as int).replacement);
    PlainStays(CtrlRule(c as int).replacement);
  }

  /** Control characters 1 to 25 that have no name of their own are CTRL plus their letter. */
  lemma CtrlLetters(c: char)
    requires 1 <= c as int <= 25 && !IsNamed(c)
    ensures Processed([c]) == "[CTRL+" + [('A' as int + (c as int - 1)) as char] + "]"
  {
    CtrlNamed(c);
    LetterOf(c as int);
  }

  lemma LetterOf(i: nat)
    requires 1 <= i <= 25
    ensures CtrlRule(i).replacement == "[CTRL+" + [('A' as int + (i - 1)) as char] + "]"
  {
    assert SIGNAL_CHARS[i - 1] as int == 'A' as int + (i - 1);
    assert "[" + ("CTRL+" + [SIGNAL_CHARS[i - 1]]) + "]" == "[CTRL+" + [SIGNAL_CHARS[i - 1]] + "]";
  }

  /** The other control characters are shown by number. */
  lemma NumberedControls(c: char)
    requires c < ' ' && !IsNamed(c) && !(1 <= c as int <= 25)
    ensures Processed([c]) == "[\\" + Decimal(c as int) + "]"
  {
    UnnamedPasses(c);
    CtrlListConsumes();
    CtrlListControls();
    OtherControlIn(CTRL_LIST, c);
    AfterRules([c], [c], [c]);
    assert [c][..0] == "" && "" + EscapeChar(c) == EscapeChar(c);
  }
}
