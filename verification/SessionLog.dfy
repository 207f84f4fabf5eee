/** The text of a session's log file, and reading it back as a JSON array of objects. */
module SessionLog {
  import opened JsonText
  import opened Prelude

  /** One logged event: is it a session-start, and its JSON members in order. */
  datatype Entry = Entry(start: bool, fields: Fields)

  // ---------- Writing ----------

  /** What LogEvent appends for one event. */
  function Record(e: Entry): string {
    if e.start then Json(e.fields) else ",\n" + Json(e.fields)
  }

  /** The records of `entries` followed by `end`. */
  function Records(entries: seq<Entry>, end: string): string {
    if entries == [] then end else Record(entries[0]) + Records(entries[1..], end)
  }

  const BRACKET := "\n]"

  /** The whole file: initializeLog, one LogEvent each, finalizeLog. */
  function LogText(entries: seq<Entry>): string {
    "[\n" + Records(entries, BRACKET)
  }

  // ---------- Reading ----------

  /** How far a reader is inside an object: outside or inside a string, at a brace depth. */
  datatype Scan = Outside(depth: nat) | Inside(depth: nat) | Escaped(depth: nat) | Done

  function Step(st: Scan, c: char): Scan {
    match st
    case Outside(d) =>
      if c == '"' then Inside(d)
      else if c == '{' then Outside(d + 1)
      else if c == '}' then (if d <= 1 then Done else Outside(d - 1))
      else st
    case Inside(d) => if c == '\\' then Escaped(d) else if c == '"' then Outside(d) else st
    case Escaped(d) => Inside(d)
    case Done => Done
  }

  /** Length of the shortest prefix of `s` that takes `st` to the end of its object. */
  function ObjectLength(st: Scan, s: string): (r: Option<nat>)
    ensures r.Some? ==> r.value <= |s|
    decreases |s|
  {
    if st.Done? then Some(0)
    else if s == "" then None
    else
      match ObjectLength(Step(st, s[0]), s[1..])
      case None => None
      case Some(n) => Some(n + 1)
  }

  predicate IsSpace(c: char) {
    c in " \t\r\n"
  }

  function SkipSpace(s: string): (r: string)
    ensures |r| <= |s|
  {
    if s != "" && IsSpace(s[0]) then SkipSpace(s[1..]) else s
  }

  /** One or more objects separated by commas, up to the closing bracket and the end of the text. */
  function ParseElements(s: string): Option<seq<string>>
    decreases |s|, 1
  {
    var t := SkipSpace(s);
    if t == "" || t[0] != '{' then None
    else
      match ObjectLength(Outside(0), t)
      case None => None
      case Some(n) => ParseRest(t[..n], t[n..])
  }

  /** What may follow an object. */
  function ParseRest(obj: string, s: string): Option<seq<string>>
    decreases |s|, 0
  {
    var rest := SkipSpace(s);
    if rest == "" then None
    else if rest[0] == ']' then (if SkipSpace(rest[1..]) == "" then Some([obj]) else None)
    else if rest[0] != ',' then None
    else
      match ParseElements(rest[1..])
      case None => None
      case Some(more) => Some([obj] + more)
  }

  function ParseLog(s: string): Option<seq<string>> {
    var t := SkipSpace(s);
    if t == "" || t[0] != '[' then None else ParseArray(t[1..])
  }

  function ParseArray(s: string): Option<seq<string>> {
    var rest := SkipSpace(s);
    if rest != "" && rest[0] == ']' then (if SkipSpace(rest[1..]) == "" then Some([]) else None)
    else ParseElements(rest)
  }

  // ---------- An encoded object delimits itself ----------

  /** Reading `a` from `st` ends in `end`, and is not done any earlier. */
  predicate Passes(st: Scan, a: string, end: Scan)
    decreases |a|
  {
    if a == "" then st == end else !st.Done? && Passes(Step(st, a[0]), a[1..], end)
  }

  lemma {:induction false} PassesJoin(st: Scan, a: string, mid: Scan, b: string, end: Scan)
    requires Passes(st, a, mid) && Passes(mid, b, end)
    ensures Passes(st, a + b, end)
    decreases |a|
  {
    if a == "" {
      assert a + b == b;
    } else {
      assert (a + b)[1..] == a[1..] + b;
      PassesJoin(Step(st, a[0]), a[1..], mid, b, end);
    }
  }

  lemma EscapeCharPasses(c: char, d: nat)
    ensures Passes(Inside(d), EscapeChar(c), Inside(d))
  {
    var e := EscapeChar(c);
    if |e| == 2 {
      assert e[1..][1..] == "";
    } else if |e| == 6 {
      PlainPasses(Inside(d), e[2..]);
      assert e[1..][1..] == e[2..];
    }
  }

  /** Characters that mean nothing to the reader leave it where it is. */
  lemma {:induction false} PlainPasses(st: Scan, a: string)
    requires !st.Done? && forall i :: 0 <= i < |a| ==> Step(st, a[i]) == st
    ensures Passes(st, a, st)
  {
    if a != "" {
      PlainPasses(st, a[1..]);
    }
  }

  lemma {:induction false} EscapePasses(s: string, d: nat)
    ensures Passes(Inside(d), Escape(s), Inside(d))
  {
    if s != "" {
      EscapeCharPasses(s[0], d);
      EscapePasses(s[1..], d);
      PassesJoin(Inside(d), EscapeChar(s[0]), Inside(d), Escape(s[1..]), Inside(d));
    }
  }

  lemma QuotePasses(s: string, d: nat)
    ensures Passes(Outside(d), Quote(s), Outside(d))
  {
    EscapePasses(s, d);
    PassesJoin(Outside(d), "\"", Inside(d), Escape(s), Inside(d));
    PassesJoin(Outside(d), "\"" + Escape(s), Inside(d), "\"", Outside(d));
  }

  lemma MemberPasses(field: (string, Value), d: nat)
    ensures Passes(Outside(d), Member(field), Outside(d))
  {
    QuotePasses(field.0, d);
    PassesJoin(Outside(d), Quote(field.0), Outside(d), ":", Outside(d));
    match field.1
    case Text(s) =>
      QuotePasses(s, d);
      PassesJoin(Outside(d), Quote(field.0) + ":", Outside(d), Quote(s), Outside(d));
    case Number(n) =>
      DecimalIsDigits(n);
      PlainPasses(Outside(d), Decimal(n));
      PassesJoin(Outside(d), Quote(field.0) + ":", Outside(d), Decimal(n), Outside(d));
  }

  lemma {:induction false} MembersPass(fields: Fields, d: nat)
    ensures Passes(Outside(d), Members(fields), Outside(d))
  {
    if fields != [] {
      MemberPasses(fields[0], d);
      if |fields| > 1 {
        MembersPass(fields[1..], d);
        PassesJoin(Outside(d), ",", Outside(d), Members(fields[1..]), Outside(d));
        PassesJoin(Outside(d), Member(fields[0]), Outside(d), "," + Members(fields[1..]), Outside(d));
      }
    }
  }

  /** Whatever strings an event carries, its encoding is read as one object, no more and no less. */
  lemma JsonDelimitsItself(fields: Fields)
    ensures Passes(Outside(0), Json(fields), Done)
  {
    MembersPass(fields, 1);
    PassesJoin(Outside(1), Members(fields), Outside(1), "}", Done);
    PassesJoin(Outside(0), "{", Outside(1), Members(fields) + "}", Done);
  }

  lemma {:induction false} ReadsObject(st: Scan, a: string, rest: string)
    requires Passes(st, a, Done)
    ensures ObjectLength(st, a + rest) == Some(|a|)
    decreases |a|
  {
    if a != "" {
      assert (a + rest)[0] == a[0] && (a + rest)[1..] == a[1..] + rest;
      ReadsObject(Step(st, a[0]), a[1..], rest);
    }
  }

  // ---------- Round trip ----------

  function Texts(entries: seq<Entry>): seq<string> {
    if entries == [] then [] else [Json(entries[0].fields)] + Texts(entries[1..])
  }

  predicate NoStarts(entries: seq<Entry>) {
    forall i :: 0 <= i < |entries| ==> !entries[i].start
  }

  lemma SkipsLineFeed(t: string)
    requires t != "" && !IsSpace(t[0])
    ensures SkipSpace("\n" + t) == t && SkipSpace(t) == t
  {
    assert ("\n" + t)[1..] == t;
  }

  lemma FirstObject(s: string, fields: Fields, tail: string)
    requires s == Json(fields) + tail || s == "\n" + (Json(fields) + tail)
    ensures ParseElements(s) == ParseRest(Json(fields), tail)
  {
    var obj := Json(fields);
    var t := obj + tail;
    SkipsLineFeed(t);
    JsonDelimitsItself(fields);
    ReadsObject(Outside(0), obj, tail);
    assert t[|obj|..] == tail && t[..|obj|] == obj;
  }

  lemma RecordsOpen(entries: seq<Entry>, end: string)
    requires entries != []
    ensures var rest := Json(entries[0].fields) + Records(entries[1..], end);
            Records(entries, end) == if entries[0].start then rest else "," + ("\n" + rest)
  {
  }

  lemma NoStartsTail(entries: seq<Entry>)
    requires entries != []
    ensures NoStarts(entries) <==> !entries[0].start && NoStarts(entries[1..])
  {
    assert forall i :: 1 <= i < |entries| ==> entries[i] == entries[1..][i - 1];
  }

  /** How a reader takes `end` after an object: as the end of the array, or not at all. */
  ghost predicate Ends(end: string, closed: bool) {
    forall obj: string :: ParseRest(obj, end) == if closed then Some([obj]) else None
  }

  /** After an object, the reader accepts exactly the records that start with a comma, if it accepts
      what follows them. */
  lemma {:induction false} ParsesRecords(obj: string, more: seq<Entry>, end: string, closed: bool)
    requires Ends(end, closed)
    ensures ParseRest(obj, Records(more, end)) == if closed && NoStarts(more) then Some([obj] + Texts(more)) else None
    decreases |more|, 1
  {
    if more == [] {
      assert [obj] + [] == [obj];
    } else {
      RecordsOpen(more, end);
      NoStartsTail(more);
      if more[0].start {
        assert Records(more, end)[0] == '{';
      } else {
        ParsesComma(obj, more, end, closed);
      }
    }
  }

  lemma {:induction false} ParsesComma(obj: string, more: seq<Entry>, end: string, closed: bool)
    requires Ends(end, closed) && more != [] && !more[0].start
    ensures ParseRest(obj, Records(more, end))
         == if closed && NoStarts(more[1..]) then Some([obj] + Texts(more)) else None
    decreases |more|, 0
  {
    var rest := Records(more[1..], end);
    RecordsOpen(more, end);
    AfterComma(obj, "\n" + (Json(more[0].fields) + rest));
    FirstObject("\n" + (Json(more[0].fields) + rest), more[0].fields, rest);
    ParsesRecords(Json(more[0].fields), more[1..], end, closed);
  }

  lemma AfterComma(obj: string, next: string)
    ensures ParseRest(obj, "," + next)
         == match ParseElements(next) { case None => None case Some(more) => Some([obj] + more) }
  {
    assert ("," + next)[1..] == next;
  }

  /** A log is well formed when it is empty or its first record is a session-start and the only one. */
  predicate WellFormed(entries: seq<Entry>) {
    entries == [] || (entries[0].start && NoStarts(entries[1..]))
  }

  lemma OpensArray(tail: string)
    ensures ParseLog("[\n" + tail) == ParseArray(tail)
  {
    assert "[\n" + tail == "[" + ("\n" + tail);
    SkipsBracket("\n" + tail);
    SkipsOne(tail);
  }

  lemma SkipsOne(tail: string)
    ensures ParseArray("\n" + tail) == ParseArray(tail)
  {
    assert ("\n" + tail)[1..] == tail;
  }

  lemma SkipsBracket(s: string)
    ensures ParseLog("[" + s) == ParseArray(s)
  {
    assert ("[" + s)[1..] == s;
  }

  lemma BracketFacts(after: string)
    ensures SkipSpace(BRACKET + after) == "]" + after && ("]" + after)[1..] == after
  {
    SkipsLineFeed("]" + after);
    assert BRACKET + after == "\n" + ("]" + after);
  }

  /** The bracket closes the array if only white space follows it. */
  lemma BracketEnds(after: string)
    ensures Ends(BRACKET + after, SkipSpace(after) == "")
    ensures ParseArray(BRACKET + after) == if SkipSpace(after) == "" then Some([]) else None
  {
    BracketFacts(after);
  }

  lemma ParsesArray(entries: seq<Entry>, end: string, closed: bool)
    requires Ends(end, closed) && entries != []
    ensures ParseArray(Records(entries, end)) == if closed && WellFormed(entries) then Some(Texts(entries)) else None
  {
    RecordsOpen(entries, end);
    assert SkipSpace(Records(entries, end)) == Records(entries, end);
    if entries[0].start {
      FirstObject(Records(entries, end), entries[0].fields, Records(entries[1..], end));
      ParsesRecords(Json(entries[0].fields), entries[1..], end, closed);
    }
  }

  /** A sealed log, and whatever got behind its bracket: the file is an array of objects if and only if
      the log is well formed and only white space follows the bracket. */
  lemma ParsesSealed(entries: seq<Entry>, after: string)
    ensures ParseLog("[\n" + Records(entries, BRACKET + after))
         == if WellFormed(entries) && SkipSpace(after) == "" then Some(Texts(entries)) else None
  {
    OpensArray(Records(entries, BRACKET + after));
    BracketEnds(after);
    if entries != [] {
      ParsesArray(entries, BRACKET + after, SkipSpace(after) == "");
    }
  }

  /** The members of each object of an array. */
  function ReadLog(s: string): Option<seq<Fields>> {
    match ParseLog(s)
    case None => None
    case Some(texts) => ReadObjects(texts)
  }

  function ReadObjects(texts: seq<string>): Option<seq<Fields>> {
    if texts == [] then Some([])
    else
      match (ParseObject(texts[0]), ReadObjects(texts[1..]))
      case (Some(first), Some(more)) => Some([first] + more)
      case _ => None
  }

  function Logged(entries: seq<Entry>): seq<Fields> {
    if entries == [] then [] else [entries[0].fields] + Logged(entries[1..])
  }

  lemma {:induction false} ReadsObjects(entries: seq<Entry>)
    ensures ReadObjects(Texts(entries)) == Some(Logged(entries))
  {
    if entries != [] {
      JsonRoundTrip(entries[0].fields);
      ReadsObjects(entries[1..]);
      assert Texts(entries)[1..] == Texts(entries[1..]);
    }
  }

  /** The file reads back, member by member, as exactly what was logged if and only if the log is well
      formed and nothing but white space got behind its bracket; otherwise it is no array of objects. */
  lemma SealedRoundTrip(entries: seq<Entry>, after: string)
    ensures ReadLog("[\n" + Records(entries, BRACKET + after))
         == if WellFormed(entries) && SkipSpace(after) == "" then Some(Logged(entries)) else None
  {
    ParsesSealed(entries, after);
    ReadsObjects(entries);
  }

  /** The log of one session in a file of its own. */
  lemma LogRoundTrip(entries: seq<Entry>)
    ensures ReadLog(LogText(entries)) == if WellFormed(entries) then Some(Logged(entries)) else None
  {
    SealedRoundTrip(entries, "");
    assert BRACKET + "" == BRACKET;
  }

  // ---------- Files that several sessions wrote ----------

  /** A session that has written to the file before. Its process may have died before the bracket, and
      writers may have logged `late` behind it. */
  datatype Earlier = Earlier(entries: seq<Entry>, sealed: bool, late: seq<Entry>)

  /** What such a session wrote behind its entries. */
  function Ending(e: Earlier): string {
    if e.sealed then BRACKET + Records(e.late, "") else ""
  }

  /** What the earlier sessions left, followed by `rest`. */
  function OnDisk(earlier: seq<Earlier>, rest: string): string {
    if earlier == [] then rest
    else "[\n" + Records(earlier[0].entries, Ending(earlier[0]) + OnDisk(earlier[1..], rest))
  }

  lemma {:induction false} RecordsJoin(entries: seq<Entry>, end: string, rest: string)
    ensures Records(entries, end) + rest == Records(entries, end + rest)
  {
    if entries != [] {
      RecordsJoin(entries[1..], end, rest);
      Assoc(Record(entries[0]), Records(entries[1..], end), rest);
    }
  }

  /** Appending to what is on disk. */
  lemma {:induction false} OnDiskJoin(earlier: seq<Earlier>, rest: string)
    ensures OnDisk(earlier, "") + rest == OnDisk(earlier, rest)
  {
    if earlier != [] {
      var end := Ending(earlier[0]);
      OnDiskJoin(earlier[1..], rest);
      RecordsJoin(earlier[0].entries, end + OnDisk(earlier[1..], ""), rest);
      Assoc(end, OnDisk(earlier[1..], ""), rest);
      Assoc("[\n", Records(earlier[0].entries, end + OnDisk(earlier[1..], "")), rest);
    } else {
      assert "" + rest == rest;
    }
  }

  lemma OnDiskOpens(earlier: seq<Earlier>, tail: string)
    ensures OnDisk(earlier, "[\n" + tail) != "" && OnDisk(earlier, "[\n" + tail)[0] == '['
  {
  }

  /** Another session's text is not the end of an array. */
  lemma SecondTextRefused(next: string)
    requires next != "" && next[0] == '['
    ensures Ends(next, false) && ParseArray(next) == None
  {
  }

  lemma NotSpace(late: seq<Entry>, next: string)
    requires next != "" && next[0] == '['
    ensures SkipSpace(Records(late, "") + next) != ""
  {
    RecordsJoin(late, "", next);
    assert "" + next == next;
    if late != [] {
      RecordsOpen(late, next);
    }
  }

  /** Reopening a file spoils it: with any earlier session in it, however that one ended, it is no array. */
  lemma ReopenedIsUnreadable(earlier: seq<Earlier>, entries: seq<Entry>)
    requires earlier != []
    ensures ReadLog(OnDisk(earlier, LogText(entries))) == None
  {
    var next := OnDisk(earlier[1..], LogText(entries));
    OnDiskOpens(earlier[1..], Records(entries, BRACKET));
    var first := earlier[0];
    if first.sealed {
      Assoc(BRACKET, Records(first.late, ""), next);
      NotSpace(first.late, next);
      ParsesSealed(first.entries, Records(first.late, "") + next);
    } else {
      assert "" + next == next;
      OpensArray(Records(first.entries, next));
      SecondTextRefused(next);
      if first.entries != [] {
        ParsesArray(first.entries, next, false);
      }
    }
  }
}
