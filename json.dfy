/**
 * JSON values as serde_json builds them from the protocol types, the compact
 * text `serde_json::to_string` writes for them, and a reader for that text.
 *
 * The reader is the partner of the writer: `ParseRender` proves that reading
 * back what was written gives the same value, so array order and the ordered
 * member list of every object survive a round trip.
 */
module Json {
  import opened Wrappers

  datatype Value =
    | Bool(b: bool)
    | Int(i: int)
    | Str(s: string)
    | Array(items: seq<Value>)
    | Object(members: seq<Member>)

  /** One `"key":value` pair of an object; members keep their order. */
  datatype Member = Member(key: string, value: Value)

  /** The keys of an object's members, in order. */
  function Keys(members: seq<Member>): (keys: seq<string>)
    ensures |keys| == |members|
    ensures forall i :: 0 <= i < |members| ==> keys[i] == members[i].key
  {
    if members == [] then [] else [members[0].key] + Keys(members[1..])
  }

  // ---------------------------------------------------------------------------
  // Numbers

  predicate IsDigit(c: char) { '0' <= c <= '9' }

  function DigitChar(d: nat): (c: char)
    requires d < 10
    ensures IsDigit(c) && c as int - '0' as int == d
  {
    (48 + d) as char
  }

  /** The value of a run of decimal digits, most significant first. */
  function DigitsValue(ds: string): nat
    requires forall i :: 0 <= i < |ds| ==> IsDigit(ds[i])
  {
    if ds == [] then 0
    else
      assert IsDigit(ds[|ds| - 1]);
      DigitsValue(ds[..|ds| - 1]) * 10 + (ds[|ds| - 1] as int - '0' as int)
  }

  /** Decimal digits of `n` without leading zeros. */
  function NatToString(n: nat): (r: string)
    ensures |r| > 0 && forall i :: 0 <= i < |r| ==> IsDigit(r[i])
    ensures DigitsValue(r) == n
  {
    if n < 10 then [DigitChar(n)]
    else
      var r := NatToString(n / 10) + [DigitChar(n % 10)];
      assert r[..|r| - 1] == NatToString(n / 10);
      r
  }

  function IntToString(i: int): string {
    if i < 0 then "-" + NatToString(-i) else NatToString(i)
  }

  // ---------------------------------------------------------------------------
  // Strings: serde_json escapes the quote, the backslash and every control
  // character below U+0020; the five with a short form use it, the others
  // are written as \u00XX with lower-case hex digits.

  function HexDigit(d: nat): (c: char)
    requires d < 16
  {
    if d < 10 then (48 + d) as char else (87 + d) as char
  }

  function EscapeChar(c: char): string {
    if c == '"' then "\\\""
    else if c == '\\' then "\\\\"
    else if c == '\n' then "\\n"
    else if c == '\r' then "\\r"
    else if c == '\t' then "\\t"
    else if c as int == 0x08 then "\\b"
    else if c as int == 0x0C then "\\f"
    else if c as int < 0x20 then "\\u00" + [HexDigit(c as int / 16), HexDigit(c as int % 16)]
    else [c]
  }

  function Escape(s: string): string {
    if s == [] then [] else EscapeChar(s[0]) + Escape(s[1..])
  }

  function Quote(s: string): string {
    "\"" + Escape(s) + "\""
  }

  // ---------------------------------------------------------------------------
  // Writer: compact form, no insignificant white space.

  function Render(v: Value): string
    decreases v
  {
    match v
    case Bool(b) => if b then "true" else "false"
    case Int(i) => IntToString(i)
    case Str(s) => Quote(s)
    case Array(items) => "[" + RenderItems(items) + "]"
    case Object(members) => "{" + RenderMembers(members) + "}"
  }

  /** The first character of a rendering tells an object from an array. */
  lemma RenderOpens(v: Value)
    ensures |Render(v)| > 0
    ensures v.Object? ==> Render(v)[0] == '{'
    ensures v.Array? ==> Render(v)[0] == '['
  {
  }

  function RenderItems(items: seq<Value>): string
    decreases items
  {
    if items == [] then "" else Render(items[0]) + RenderItemsTail(items[1..])
  }

  /** Every further item, each preceded by a comma. */
  function RenderItemsTail(items: seq<Value>): string
    decreases items
  {
    if items == [] then "" else "," + Render(items[0]) + RenderItemsTail(items[1..])
  }

  function RenderMember(m: Member): string
    decreases m
  {
    Quote(m.key) + ":" + Render(m.value)
  }

  function RenderMembers(members: seq<Member>): string
    decreases members
  {
    if members == [] then "" else RenderMember(members[0]) + RenderMembersTail(members[1..])
  }

  function RenderMembersTail(members: seq<Member>): string
    decreases members
  {
    if members == [] then "" else "," + RenderMember(members[0]) + RenderMembersTail(members[1..])
  }

  // ---------------------------------------------------------------------------
  // Reader. Each function reads a prefix of its input and returns the value
  // and the unread rest. It accepts every escape JSON defines (surrogate
  // pairs aside) and digit runs with leading zeros.

  function DigitRun(s: string): (n: nat)
    ensures n <= |s|
    ensures forall i :: 0 <= i < n ==> IsDigit(s[i])
    ensures n < |s| ==> !IsDigit(s[n])
  {
    if s != [] && IsDigit(s[0]) then 1 + DigitRun(s[1..]) else 0
  }

  function ParseNumber(s: string): (r: Option<(Value, string)>)
    ensures r.Some? ==> |r.value.1| < |s|
  {
    if s != [] && s[0] == '-' then
      var n := DigitRun(s[1..]);
      if n == 0 then None else Some((Int(-(DigitsValue(s[1..][..n]) as int)), s[1..][n..]))
    else
      var n := DigitRun(s);
      if n == 0 then None else Some((Int(DigitsValue(s[..n])), s[n..]))
  }

  predicate IsHex(c: char) {
    '0' <= c <= '9' || 'a' <= c <= 'f' || 'A' <= c <= 'F'
  }

  function HexValue(c: char): (d: nat)
    requires IsHex(c)
    ensures d < 16
  {
    if '0' <= c <= '9' then c as int - '0' as int
    else if 'a' <= c <= 'f' then c as int - 'a' as int + 10
    else c as int - 'A' as int + 10
  }

  /** The character an escape stands for (the text after the backslash) and
      how many characters the escape takes. */
  function Unescape(s: string): (r: Option<(char, nat)>)
    ensures r.Some? ==> 1 <= r.value.1 <= |s|
  {
    if s == [] then None
    else if s[0] == '"' || s[0] == '\\' || s[0] == '/' then Some((s[0], 1))
    else if s[0] == 'b' then Some((0x08 as char, 1))
    else if s[0] == 'f' then Some((0x0C as char, 1))
    else if s[0] == 'n' then Some(('\n', 1))
    else if s[0] == 'r' then Some(('\r', 1))
    else if s[0] == 't' then Some(('\t', 1))
    else if s[0] == 'u' && |s| >= 5 && IsHex(s[1]) && IsHex(s[2]) && IsHex(s[3]) && IsHex(s[4]) then
      var code := HexValue(s[1]) * 4096 + HexValue(s[2]) * 256 + HexValue(s[3]) * 16 + HexValue(s[4]);
      if code < 0xD800 || 0xE000 <= code then Some((code as char, 5)) else None
    else None
  }

  /** The body of a string literal up to and including its closing quote. */
  function ParseString(s: string): (r: Option<(string, string)>)
    ensures r.Some? ==> |r.value.1| < |s|
    decreases |s|
  {
    if s == [] then None
    else if s[0] == '"' then Some(([], s[1..]))
    else if s[0] == '\\' then
      match Unescape(s[1..])
      case None => None
      case Some((c, n)) =>
        match ParseString(s[1 + n..])
        case None => None
        case Some((t, rest)) => Some(([c] + t, rest))
    else if s[0] as int < 0x20 then None
    else
      match ParseString(s[1..])
      case None => None
      case Some((t, rest)) => Some(([s[0]] + t, rest))
  }

  function ParseValue(s: string): (r: Option<(Value, string)>)
    ensures r.Some? ==> |r.value.1| < |s|
    decreases |s|, 1
  {
    if s == [] then None
    else if s[0] == '"' then
      match ParseString(s[1..])
      case None => None
      case Some((t, rest)) => Some((Str(t), rest))
    else if s[0] == '[' then
      match ParseItems(s[1..])
      case None => None
      case Some((items, rest)) => Some((Array(items), rest))
    else if s[0] == '{' then
      match ParseMembers(s[1..])
      case None => None
      case Some((members, rest)) => Some((Object(members), rest))
    else if |s| >= 4 && s[..4] == "true" then Some((Bool(true), s[4..]))
    else if |s| >= 5 && s[..5] == "false" then Some((Bool(false), s[5..]))
    else ParseNumber(s)
  }

  /** The items of an array and its closing bracket. */
  function ParseItems(s: string): (r: Option<(seq<Value>, string)>)
    ensures r.Some? ==> |r.value.1| < |s|
    decreases |s|, 2
  {
    if s != [] && s[0] == ']' then Some(([], s[1..]))
    else
      match ParseValue(s)
      case None => None
      case Some((v, rest)) =>
        match ParseItemsTail(rest)
        case None => None
        case Some((vs, rest')) => Some(([v] + vs, rest'))
  }

  function ParseItemsTail(s: string): (r: Option<(seq<Value>, string)>)
    ensures r.Some? ==> |r.value.1| < |s|
    decreases |s|, 0
  {
    if s == [] then None
    else if s[0] == ']' then Some(([], s[1..]))
    else if s[0] == ',' then
      match ParseValue(s[1..])
      case None => None
      case Some((v, rest)) =>
        match ParseItemsTail(rest)
        case None => None
        case Some((vs, rest')) => Some(([v] + vs, rest'))
    else None
  }

  function ParseMember(s: string): (r: Option<(Member, string)>)
    ensures r.Some? ==> |r.value.1| < |s|
    decreases |s|, 2
  {
    if s == [] || s[0] != '"' then None
    else
      match ParseString(s[1..])
      case None => None
      case Some((key, rest)) =>
        if rest == [] || rest[0] != ':' then None
        else
          match ParseValue(rest[1..])
          case None => None
          case Some((v, rest')) => Some((Member(key, v), rest'))
  }

  /** The members of an object and its closing brace. */
  function ParseMembers(s: string): (r: Option<(seq<Member>, string)>)
    ensures r.Some? ==> |r.value.1| < |s|
    decreases |s|, 3
  {
    if s != [] && s[0] == '}' then Some(([], s[1..]))
    else
      match ParseMember(s)
      case None => None
      case Some((m, rest)) =>
        match ParseMembersTail(rest)
        case None => None
        case Some((ms, rest')) => Some(([m] + ms, rest'))
  }

  function ParseMembersTail(s: string): (r: Option<(seq<Member>, string)>)
    ensures r.Some? ==> |r.value.1| < |s|
    decreases |s|, 0
  {
    if s == [] then None
    else if s[0] == '}' then Some(([], s[1..]))
    else if s[0] == ',' then
      match ParseMember(s[1..])
      case None => None
      case Some((m, rest)) =>
        match ParseMembersTail(rest)
        case None => None
        case Some((ms, rest')) => Some(([m] + ms, rest'))
    else None
  }

  /** A whole document: one value and nothing after it. */
  function Parse(s: string): Option<Value> {
    match ParseValue(s)
    case Some((v, rest)) => if rest == [] then Some(v) else None
    case None => None
  }

  // ---------------------------------------------------------------------------
  // Round trip: the reader gives back what the writer wrote.

  /** What may follow a value inside a document: nothing, a comma, or the end
      of the enclosing array or object. */
  predicate Delimited(rest: string) {
    rest == [] || rest[0] == ',' || rest[0] == ']' || rest[0] == '}'
  }

  lemma {:induction false} DigitRunOf(ds: string, rest: string)
    requires forall i :: 0 <= i < |ds| ==> IsDigit(ds[i])
    requires rest == [] || !IsDigit(rest[0])
    ensures DigitRun(ds + rest) == |ds|
  {
    if ds == [] {
      assert ds + rest == rest;
    } else {
      assert (ds + rest)[1..] == ds[1..] + rest;
      DigitRunOf(ds[1..], rest);
    }
  }

  lemma HexRoundTrip(d: nat)
    requires d < 16
    ensures IsHex(HexDigit(d)) && HexValue(HexDigit(d)) == d
  {
  }

  /** Reading one escaped character consumes exactly its escape. */
  lemma EscapeCharRead(c: char, tail: string)
    ensures ParseString(EscapeChar(c) + tail) ==
      match ParseString(tail)
      case None => None
      case Some((t, rest)) => Some(([c] + t, rest))
  {
    if c as int < 0x20 && c != '\n' && c != '\r' && c != '\t' && c as int != 0x08 && c as int != 0x0C {
      UnicodeEscapeRead(c, tail);
    } else if c == '"' || c == '\\' || c == '\n' || c == '\r' || c == '\t' || c as int == 0x08 || c as int == 0x0C {
      ShortEscapeRead(c, tail);
    } else {
      var s := EscapeChar(c) + tail;
      assert EscapeChar(c) == [c];
      assert s[0] == c && s[1..] == tail;
    }
  }

  lemma ShortEscapeRead(c: char, tail: string)
    requires c == '"' || c == '\\' || c == '\n' || c == '\r' || c == '\t' || c as int == 0x08 || c as int == 0x0C
    ensures ParseString(EscapeChar(c) + tail) ==
      match ParseString(tail)
      case None => None
      case Some((t, rest)) => Some(([c] + t, rest))
  {
    var s := EscapeChar(c) + tail;
    assert |EscapeChar(c)| == 2 && EscapeChar(c)[0] == '\\';
    assert s[0] == '\\';
    assert Unescape(s[1..]) == Some((c, 1));
    assert s[2..] == tail;
  }

  lemma UnicodeEscapeRead(c: char, tail: string)
    requires c as int < 0x20 && c != '\n' && c != '\r' && c != '\t' && c as int != 0x08 && c as int != 0x0C
    ensures ParseString(EscapeChar(c) + tail) ==
      match ParseString(tail)
      case None => None
      case Some((t, rest)) => Some(([c] + t, rest))
  {
    var hi, lo := c as int / 16, c as int % 16;
    HexRoundTrip(hi);
    HexRoundTrip(lo);
    var s := EscapeChar(c) + tail;
    assert EscapeChar(c) == ['\\', 'u', '0', '0', HexDigit(hi), HexDigit(lo)];
    assert s[0] == '\\';
    assert s[1..] == ['u', '0', '0', HexDigit(hi), HexDigit(lo)] + tail;
    assert Unescape(s[1..]) == Some((c, 5));
    assert s[6..] == tail;
  }

  lemma {:induction false} ParseEscaped(t: string, rest: string)
    ensures ParseString(Escape(t) + "\"" + rest) == Some((t, rest))
  {
    if t == [] {
      assert Escape(t) + "\"" + rest == "\"" + rest;
    } else {
      var tail := Escape(t[1..]) + "\"" + rest;
      assert Escape(t) + "\"" + rest == EscapeChar(t[0]) + tail;
      ParseEscaped(t[1..], rest);
      EscapeCharRead(t[0], tail);
      assert [t[0]] + t[1..] == t;
    }
  }

  /** What a written value can start with: never a delimiter. */
  lemma RenderStart(v: Value)
    ensures Render(v) != []
    ensures Render(v)[0] != ',' && Render(v)[0] != ']' && Render(v)[0] != '}'
  {
    match v
    case Int(i) =>
      if i < 0 {
        assert Render(v)[0] == '-';
      } else {
        assert IsDigit(Render(v)[0]);
      }
    case _ =>
  }

  lemma ParseRenderBool(b: bool, rest: string)
    ensures ParseValue(Render(Bool(b)) + rest) == Some((Bool(b), rest))
  {
    var s := Render(Bool(b)) + rest;
    if b {
      assert s[..4] == "true" && s[4..] == rest;
    } else {
      assert s[..4][0] == 'f';
      assert s[..5] == "false" && s[5..] == rest;
    }
  }

  /** Text starting with a digit or a minus sign is read as a number. */
  lemma NumberFirst(s: string)
    requires s != [] && (IsDigit(s[0]) || s[0] == '-')
    ensures ParseValue(s) == ParseNumber(s)
  {
    if |s| >= 4 { assert s[..4][0] == s[0]; }
    if |s| >= 5 { assert s[..5][0] == s[0]; }
  }

  lemma ParseRenderInt(i: int, rest: string)
    requires Delimited(rest)
    ensures ParseValue(Render(Int(i)) + rest) == Some((Int(i), rest))
  {
    var s := Render(Int(i)) + rest;
    if i < 0 {
      var ds := NatToString(-i);
      assert s == "-" + (ds + rest);
      assert s[1..] == ds + rest;
      DigitRunOf(ds, rest);
      assert (ds + rest)[..|ds|] == ds && (ds + rest)[|ds|..] == rest;
      assert ParseNumber(s) == Some((Int(i), rest));
      NumberFirst(s);
    } else {
      var ds := NatToString(i);
      assert s == ds + rest;
      assert IsDigit(s[0]);
      DigitRunOf(ds, rest);
      assert s[..|ds|] == ds && s[|ds|..] == rest;
      assert ParseNumber(s) == Some((Int(i), rest));
      NumberFirst(s);
    }
  }

  lemma ParseRenderStr(t: string, rest: string)
    ensures ParseValue(Render(Str(t)) + rest) == Some((Str(t), rest))
  {
    var s := Render(Str(t)) + rest;
    assert s == "\"" + (Escape(t) + "\"" + rest);
    assert s[1..] == Escape(t) + "\"" + rest;
    ParseEscaped(t, rest);
  }

  lemma {:induction false} ParseRender(v: Value, rest: string)
    requires Delimited(rest)
    ensures ParseValue(Render(v) + rest) == Some((v, rest))
    decreases v
  {
    match v
    case Bool(b) => ParseRenderBool(b, rest);
    case Int(i) => ParseRenderInt(i, rest);
    case Str(t) => ParseRenderStr(t, rest);
    case Array(items) =>
      ParseRenderItems(items, rest);
      ArrayText(items, rest);
    case Object(members) =>
      ParseRenderMembers(members, rest);
      ObjectText(members, rest);
  }

  /** An array is read as its bracket and then its items. */
  lemma ArrayText(items: seq<Value>, rest: string)
    requires ParseItems(RenderItems(items) + "]" + rest) == Some((items, rest))
    ensures ParseValue(Render(Array(items)) + rest) == Some((Array(items), rest))
  {
    var inner := RenderItems(items) + "]" + rest;
    var s := "[" + inner;
    assert Render(Array(items)) + rest == s;
    assert s[0] == '[' && s[1..] == inner;
  }

  /** An object is read as its brace and then its members. */
  lemma ObjectText(members: seq<Member>, rest: string)
    requires ParseMembers(RenderMembers(members) + "}" + rest) == Some((members, rest))
    ensures ParseValue(Render(Object(members)) + rest) == Some((Object(members), rest))
  {
    var inner := RenderMembers(members) + "}" + rest;
    var s := "{" + inner;
    assert Render(Object(members)) + rest == s;
    assert s[0] == '{' && s[1..] == inner;
  }

  lemma {:induction false} ParseRenderItems(items: seq<Value>, rest: string)
    ensures ParseItems(RenderItems(items) + "]" + rest) == Some((items, rest))
    decreases items
  {
    if items == [] {
      assert RenderItems(items) + "]" + rest == "]" + rest;
    } else {
      var tail := RenderItemsTail(items[1..]) + "]" + rest;
      assert RenderItems(items) + "]" + rest == Render(items[0]) + tail;
      RenderStart(items[0]);
      ParseRender(items[0], tail);
      ParseRenderItemsTail(items[1..], rest);
      assert [items[0]] + items[1..] == items;
    }
  }

  lemma {:induction false} ParseRenderItemsTail(items: seq<Value>, rest: string)
    ensures ParseItemsTail(RenderItemsTail(items) + "]" + rest) == Some((items, rest))
    decreases items
  {
    if items == [] {
      assert RenderItemsTail(items) + "]" + rest == "]" + rest;
    } else {
      var s := RenderItemsTail(items) + "]" + rest;
      var tail := RenderItemsTail(items[1..]) + "]" + rest;
      assert s == "," + (Render(items[0]) + tail);
      assert s[1..] == Render(items[0]) + tail;
      ParseRender(items[0], tail);
      ParseRenderItemsTail(items[1..], rest);
      assert [items[0]] + items[1..] == items;
    }
  }

  /** Reading a member: its key as a string, a colon, then its value. */
  lemma ParseMemberParts(key: string, v: Value, keyText: string, valueText: string, rest: string)
    requires ParseString(keyText + ":" + valueText) == Some((key, ":" + valueText))
    requires ParseValue(valueText) == Some((v, rest))
    ensures ParseMember("\"" + keyText + ":" + valueText) == Some((Member(key, v), rest))
  {
    var s := "\"" + keyText + ":" + valueText;
    assert s[1..] == keyText + ":" + valueText;
    assert (":" + valueText)[1..] == valueText;
  }

  lemma {:induction false} ParseRenderMember(m: Member, rest: string)
    requires Delimited(rest)
    ensures ParseMember(RenderMember(m) + rest) == Some((m, rest))
    decreases m
  {
    var keyText := Escape(m.key) + "\"";
    var valueText := Render(m.value) + rest;
    assert RenderMember(m) + rest == "\"" + keyText + ":" + valueText;
    ParseEscaped(m.key, ":" + valueText);
    assert Escape(m.key) + "\"" + (":" + valueText) == keyText + ":" + valueText;
    ParseRender(m.value, rest);
    ParseMemberParts(m.key, m.value, keyText, valueText, rest);
  }

  lemma {:induction false} ParseRenderMembers(members: seq<Member>, rest: string)
    ensures ParseMembers(RenderMembers(members) + "}" + rest) == Some((members, rest))
    decreases members
  {
    if members == [] {
      assert RenderMembers(members) + "}" + rest == "}" + rest;
    } else {
      var tail := RenderMembersTail(members[1..]) + "}" + rest;
      assert RenderMembers(members) + "}" + rest == RenderMember(members[0]) + tail;
      ParseRenderMember(members[0], tail);
      ParseRenderMembersTail(members[1..], rest);
      assert [members[0]] + members[1..] == members;
    }
  }

  /** Reading the members after the first: a comma, one member, the rest. */
  lemma MembersTailParts(m: Member, ms: seq<Member>, memberText: string, tail: string, rest: string)
    requires ParseMember(memberText + tail) == Some((m, tail))
    requires ParseMembersTail(tail) == Some((ms, rest))
    ensures ParseMembersTail("," + memberText + tail) == Some(([m] + ms, rest))
  {
    assert ("," + memberText + tail)[1..] == memberText + tail;
  }

  lemma {:induction false} ParseRenderMembersTail(members: seq<Member>, rest: string)
    ensures ParseMembersTail(RenderMembersTail(members) + "}" + rest) == Some((members, rest))
    decreases members
  {
    if members == [] {
      assert RenderMembersTail(members) + "}" + rest == "}" + rest;
    } else {
      var tail := RenderMembersTail(members[1..]) + "}" + rest;
      assert RenderMembersTail(members) + "}" + rest == "," + RenderMember(members[0]) + tail;
      assert tail[0] == (if members[1..] == [] then '}' else ',');
      ParseRenderMember(members[0], tail);
      ParseRenderMembersTail(members[1..], rest);
      MembersTailParts(members[0], members[1..], RenderMember(members[0]), tail, rest);
      assert [members[0]] + members[1..] == members;
    }
  }


  /** A written document reads back as the value it was written from. */
  lemma ParseRenderDocument(v: Value)
    ensures Parse(Render(v)) == Some(v)
  {
    assert Render(v) + [] == Render(v);
    ParseRender(v, []);
  }
}
