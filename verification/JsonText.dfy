/** JSON objects of strings and numbers, as encoding/json writes them, and reading them back. */
module JsonText {
  import opened Prelude

  datatype Value = Text(s: string) | Number(n: nat)

  type Fields = seq<(string, Value)>

  // ---------- Writing ----------

  const HEX := "0123456789abcdef"

  /** encoding/json escapes quotes, backslashes, control characters and the HTML characters. */
  function EscapeChar(c: char): string {
    if c == '"' then "\\\""
    else if c == '\\' then "\\\\"
    else if c == '\n' then "\\n"
    else if c == '\r' then "\\r"
    else if c == '\t' then "\\t"
    else if c < ' ' || c in "<>&" then "\\u00" + [HEX[c as int / 16 % 16], HEX[c as int % 16]]
    else [c]
  }

  function Escape(s: string): string {
    if s == "" then "" else EscapeChar(s[0]) + Escape(s[1..])
  }

  function Quote(s: string): string {
    "\"" + Escape(s) + "\""
  }

  function ValueText(value: Value): string {
    match value
    case Text(s) => Quote(s)
    case Number(n) => Decimal(n)
  }

  function Member(field: (string, Value)): string {
    Quote(field.0) + ":" + ValueText(field.1)
  }

  /** The texts of some items, separated by commas. */
  function Joined<T>(text: T -> string, items: seq<T>): string {
    if items == [] then ""
    else if |items| == 1 then text(items[0])
    else text(items[0]) + ("," + Joined(text, items[1..]))
  }

  function Members(fields: Fields): string {
    Joined(Member, fields)
  }

  function Json(fields: Fields): string {
    "{" + (Members(fields) + "}")
  }

  // ---------- Reading ----------

  function HexDigit(c: char): Option<nat> {
    if '0' <= c <= '9' then Some(c as int - '0' as int)
    else if 'a' <= c <= 'f' then Some(c as int - 'a' as int + 10)
    else if 'A' <= c <= 'F' then Some(c as int - 'A' as int + 10)
    else None
  }

  /** The character that a four-digit escape stands for, unless it is a surrogate. */
  function HexChar(s: string): Option<char>
    requires |s| == 4
  {
    match (HexDigit(s[0]), HexDigit(s[1]), HexDigit(s[2]), HexDigit(s[3]))
    case (Some(a), Some(b), Some(c), Some(d)) =>
      var code := ((a * 16 + b) * 16 + c) * 16 + d;
      if code < 0xD800 then Some(code as char) else None
    case _ => None
  }

  /** One character inside a string, and what follows it. */
  function ReadChar(s: string): (r: Option<(char, string)>)
    ensures r.Some? ==> |r.value.1| < |s|
  {
    if s == "" || s[0] < ' ' || s[0] == '"' then None
    else if s[0] != '\\' then Some((s[0], s[1..]))
    else if |s| < 2 then None
    else if s[1] in "\"\\/" then Some((s[1], s[2..]))
    else if s[1] == 'n' then Some(('\n', s[2..]))
    else if s[1] == 'r' then Some(('\r', s[2..]))
    else if s[1] == 't' then Some(('\t', s[2..]))
    else if s[1] == 'u' && |s| >= 6 then
      match HexChar(s[2..6])
      case Some(c) => Some((c, s[6..]))
      case None => None
    else None
  }

  /** The rest of a string after its opening quote, and what follows the closing one. */
  function ReadString(s: string): (r: Option<(string, string)>)
    ensures r.Some? ==> |r.value.1| < |s|
    decreases |s|
  {
    if s == "" then None
    else if s[0] == '"' then Some(("", s[1..]))
    else
      match ReadChar(s)
      case None => None
      case Some((c, rest)) =>
        match ReadString(rest)
        case None => None
        case Some((t, after)) => Some(([c] + t, after))
  }

  predicate IsDigit(c: char) {
    '0' <= c <= '9'
  }

  function ReadNat(acc: nat, s: string): (r: (nat, string))
    ensures |r.1| <= |s|
    decreases |s|
  {
    if s != "" && IsDigit(s[0]) then ReadNat(acc * 10 + (s[0] as int - '0' as int), s[1..]) else (acc, s)
  }

  function ReadValue(s: string): (r: Option<(Value, string)>)
    ensures r.Some? ==> |r.value.1| <= |s|
  {
    if s == "" then None
    else if s[0] == '"' then
      match ReadString(s[1..])
      case None => None
      case Some((t, rest)) => Some((Text(t), rest))
    else if IsDigit(s[0]) then Some((Number(ReadNat(0, s).0), ReadNat(0, s).1))
    else None
  }

  function ReadMember(s: string): (r: Option<((string, Value), string)>)
    ensures r.Some? ==> |r.value.1| < |s|
  {
    if s == "" || s[0] != '"' then None
    else
      match ReadString(s[1..])
      case None => None
      case Some((name, rest)) =>
        if rest == "" || rest[0] != ':' then None
        else
          match ReadValue(rest[1..])
          case None => None
          case Some((value, after)) => Some(((name, value), after))
  }

  /** One or more items separated by commas, up to the closing brace, which ends the text. */
  function ReadItems<T>(item: string -> Option<(T, string)>, s: string): Option<seq<T>>
    decreases |s|
  {
    match item(s)
    case None => None
    case Some((first, rest)) =>
      if rest == "}" then Some([first])
      else if rest == "" || rest[0] != ',' || |rest| > |s| then None
      else
        match ReadItems(item, rest[1..])
        case None => None
        case Some(more) => Some([first] + more)
  }

  function ParseObject(s: string): Option<Fields> {
    if s == "" || s[0] != '{' then None
    else if s[1..] == "}" then Some([])
    else ReadItems(ReadMember, s[1..])
  }

  // ---------- What is written is read ----------

  lemma ReadsHex(c: char)
    requires c < '@'
    ensures HexChar(['0', '0', HEX[c as int / 16 % 16], HEX[c as int % 16]]) == Some(c)
  {
    var hi, lo := c as int / 16, c as int % 16;
    assert hi % 16 == hi && c as int == hi * 16 + lo;
    HexDigits(hi);
    HexDigits(lo);
  }

  lemma HexDigits(d: nat)
    requires d < 16
    ensures HexDigit(HEX[d]) == Some(d)
  {
  }

  lemma ReadsHexEscape(c: char, rest: string)
    requires c < '@'
    ensures ReadChar("\\u00" + [HEX[c as int / 16 % 16], HEX[c as int % 16]] + rest) == Some((c, rest))
  {
    var hex := ['0', '0', HEX[c as int / 16 % 16], HEX[c as int % 16]];
    var s := "\\u00" + [HEX[c as int / 16 % 16], HEX[c as int % 16]] + rest;
    assert s[2..6] == hex && s[6..] == rest;
    ReadsHex(c);
  }

  lemma ReadsPair(c: char, rest: string)
    requires |EscapeChar(c)| == 2
    ensures ReadChar(EscapeChar(c) + rest) == Some((c, rest))
  {
    var s := EscapeChar(c) + rest;
    assert s[0] == '\\' && s[1] == EscapeChar(c)[1] && s[2..] == rest;
  }

  lemma ReadsChar(c: char, rest: string)
    ensures EscapeChar(c) != "" && EscapeChar(c)[0] != '"'
    ensures ReadChar(EscapeChar(c) + rest) == Some((c, rest))
  {
    if |EscapeChar(c)| == 6 {
      ReadsHexEscape(c, rest);
    } else if |EscapeChar(c)| == 2 {
      ReadsPair(c, rest);
    } else {
      assert ([c] + rest)[1..] == rest;
    }
  }

  /** Reading a string goes on after its first character. */
  lemma ReadStringStep(c: char, body: string)
    ensures ReadString(EscapeChar(c) + body)
         == match ReadString(body) { case None => None case Some((t, after)) => Some(([c] + t, after)) }
  {
    ReadsChar(c, body);
  }

  lemma EscapeStep(s: string, rest: string)
    requires s != ""
    ensures Escape(s) + rest == EscapeChar(s[0]) + (Escape(s[1..]) + rest)
  {
    Assoc(EscapeChar(s[0]), Escape(s[1..]), rest);
  }

  lemma {:induction false} ReadsString(s: string, rest: string)
    ensures ReadString(Escape(s) + ("\"" + rest)) == Some((s, rest))
  {
    if s != "" {
      EscapeStep(s, "\"" + rest);
      ReadStringStep(s[0], Escape(s[1..]) + ("\"" + rest));
      ReadsString(s[1..], rest);
      assert [s[0]] + s[1..] == s;
    } else {
      assert Escape(s) + ("\"" + rest) == "\"" + rest;
      assert ("\"" + rest)[1..] == rest;
    }
  }

  predicate NoDigitNext(s: string) {
    s == "" || !IsDigit(s[0])
  }

  lemma {:induction false} ReadsDecimal(n: nat, rest: string)
    ensures ReadNat(0, Decimal(n) + rest) == ReadNat(n, rest)
  {
    var last := Decimal(n)[|Decimal(n)| - 1];
    DecimalIsDigits(n);
    if n >= 10 {
      ReadsDecimal(n / 10, [last] + rest);
      Assoc(Decimal(n / 10), [last], rest);
    }
    assert ([last] + rest)[1..] == rest;
  }

  lemma Unquotes(body: string, rest: string)
    ensures var s := "\"" + body + "\"" + rest;
            s[0] == '"' && s[1..] == body + ("\"" + rest)
  {
  }

  lemma ReadsQuoted(s: string, rest: string)
    ensures ReadString((Quote(s) + rest)[1..]) == Some((s, rest)) && (Quote(s) + rest)[0] == '"'
  {
    ReadsString(s, rest);
    Unquotes(Escape(s), rest);
  }

  lemma ReadsValue(value: Value, rest: string)
    requires NoDigitNext(rest)
    ensures ReadValue(ValueText(value) + rest) == Some((value, rest))
  {
    match value
    case Text(s) => ReadsQuoted(s, rest);
    case Number(n) =>
      ReadsDecimal(n, rest);
      DecimalIsDigits(n);
  }

  lemma MemberParts(field: (string, Value), rest: string)
    ensures Member(field) + rest == Quote(field.0) + (":" + (ValueText(field.1) + rest))
  {
    var name, value := Quote(field.0), ValueText(field.1);
    Assoc(name + ":", value, rest);
    Assoc(name, ":", value + rest);
  }

  lemma AfterColon(s: string)
    ensures (":" + s)[0] == ':' && (":" + s)[1..] == s
  {
  }

  lemma ReadsParts(s: string, field: (string, Value), rest: string, after: string)
    requires s != "" && s[0] == '"' && ReadString(s[1..]) == Some((field.0, rest))
    requires rest != "" && rest[0] == ':' && ReadValue(rest[1..]) == Some((field.1, after))
    ensures ReadMember(s) == Some((field, after))
  {
  }

  lemma ReadsMember(field: (string, Value), rest: string)
    requires NoDigitNext(rest)
    ensures ReadMember(Member(field) + rest) == Some((field, rest))
  {
    var value := ValueText(field.1) + rest;
    MemberParts(field, rest);
    ReadsQuoted(field.0, ":" + value);
    AfterColon(value);
    ReadsValue(field.1, rest);
    ReadsParts(Member(field) + rest, field, ":" + value, rest);
  }

  /** `item` reads what `text` writes, as long as no digit follows. */
  ghost predicate Inverse<T(!new)>(text: T -> string, item: string -> Option<(T, string)>) {
    forall x: T, rest: string :: NoDigitNext(rest) ==> item(text(x) + rest) == Some((x, rest))
  }

  lemma {:induction false} ReadsItems<T(!new)>(text: T -> string, item: string -> Option<(T, string)>, items: seq<T>)
    requires items != [] && Inverse(text, item)
    ensures ReadItems(item, Joined(text, items) + "}") == Some(items)
  {
    if |items| == 1 {
      assert item(text(items[0]) + "}") == Some((items[0], "}"));
      assert items == [items[0]];
    } else {
      var more := Joined(text, items[1..]) + "}";
      Assoc(text(items[0]), "," + Joined(text, items[1..]), "}");
      Assoc(",", Joined(text, items[1..]), "}");
      assert item(text(items[0]) + ("," + more)) == Some((items[0], "," + more));
      assert ("," + more)[1..] == more;
      ReadsItems(text, item, items[1..]);
      assert [items[0]] + items[1..] == items;
    }
  }

  lemma MembersInverse()
    ensures Inverse(Member, ReadMember)
  {
    forall field: (string, Value), rest: string | NoDigitNext(rest)
      ensures ReadMember(Member(field) + rest) == Some((field, rest))
    {
      ReadsMember(field, rest);
    }
  }

  lemma MembersOpen(fields: Fields)
    requires fields != []
    ensures Members(fields) + "}" != "}"
  {
    assert Members(fields)[0] == '"';
  }

  /** Encoding loses nothing, whatever the strings hold. */
  lemma JsonRoundTrip(fields: Fields)
    ensures ParseObject(Json(fields)) == Some(fields)
  {
    assert Json(fields)[1..] == Members(fields) + "}";
    if fields == [] {
      assert Members(fields) + "}" == "}";
    } else {
      MembersInverse();
      ReadsItems(Member, ReadMember, fields);
      MembersOpen(fields);
    }
  }

  /** Nothing in an encoded string could end a line, a tag or an entity. */
  lemma {:induction false} EscapeIsClean(s: string)
    ensures forall i :: 0 <= i < |Escape(s)| ==> Escape(s)[i] >= ' ' && Escape(s)[i] !in "<>&"
  {
    if s != "" {
      EscapeIsClean(s[1..]);
      EscapeCharIsClean(s[0]);
    }
  }

  lemma EscapeCharIsClean(c: char)
    ensures forall i :: 0 <= i < |EscapeChar(c)| ==> EscapeChar(c)[i] >= ' ' && EscapeChar(c)[i] !in "<>&"
  {
    forall d: nat | d < 16
      ensures HEX[d] >= ' ' && HEX[d] !in "<>&"
    {
    }
  }

  predicate IsPlain(s: string) {
    forall i :: 0 <= i < |s| ==> s[i] >= ' ' && s[i] !in "\"\\<>&"
  }

  lemma {:induction false} PlainStays(s: string)
    requires IsPlain(s)
    ensures Escape(s) == s
  {
    if s != "" {
      PlainStays(s[1..]);
      assert EscapeChar(s[0]) == [s[0]];
    }
  }

  /** What an object with one plain member looks like. */
  lemma PlainObject(name: string, s: string)
    requires IsPlain(name) && IsPlain(s)
    ensures Json([(name, Text(s))]) == "{\"" + name + "\":\"" + s + "\"}"
  {
    PlainStays(name);
    PlainStays(s);
    assert Members([(name, Text(s))]) == Member((name, Text(s)));
    OneMember(name, s);
  }

  lemma OneMember(name: string, s: string)
    ensures "{" + (("\"" + name + "\"" + ":" + ("\"" + s + "\"")) + "}")
         == "{\"" + name + "\":\"" + s + "\"}"
  {
  }
}
