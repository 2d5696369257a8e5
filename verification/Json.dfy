/** JSON values as `JSON.stringify` sees them, its output, and a reference parser for the grammar of
    RFC 8259 without insignificant white space. A finite number is named by its ECMAScript text. */
module Json {
  import opened Wrappers
  import opened Bytes
  import opened Text

  datatype Json =
    | Null
    | Bool(b: bool)
    | Num(lexeme: string)
    | Str(s: string)
    | Arr(items: seq<Json>)
    | Obj(members: seq<Member>)

  datatype Member = Member(key: string, value: Json)

  predicate IsNumberChar(c: char) {
    IsDigit(c) || c in ['-', '+', '.', 'e']
  }

  predicate IsNumberText(s: string) {
    s != [] && (IsDigit(s[0]) || s[0] == '-') && forall i :: 0 <= i < |s| ==> IsNumberChar(s[i])
  }

  predicate DistinctKeys(members: seq<Member>) {
    forall i, j :: 0 <= i < j < |members| ==> members[i].key != members[j].key
  }

  /** What the type of the source guarantees: numbers print as numbers, and an object has a key once. */
  ghost predicate WellFormed(v: Json)
    decreases v
  {
    match v
    case Num(l) => IsNumberText(l)
    case Arr(items) => forall i :: 0 <= i < |items| ==> WellFormed(items[i])
    case Obj(members) => DistinctKeys(members) && forall i :: 0 <= i < |members| ==> WellFormed(members[i].value)
    case _ => true
  }

  /* ----- writing ----- */

  /** Section 7 of RFC 8259, with the short forms where there is one. */
  function EscapeChar(c: char): string {
    if c == '"' then "\\\""
    else if c == '\\' then "\\\\"
    else if c == '\U{08}' then "\\b"
    else if c == '\t' then "\\t"
    else if c == '\n' then "\\n"
    else if c == '\U{0C}' then "\\f"
    else if c == '\r' then "\\r"
    else if c < ' ' then "\\u00" + [HexChar(c as int / 16), HexChar(c as int % 16)]
    else [c]
  }

  /** The two-character escapes of `JSON.stringify`, code points in lower-case hexadecimal for the other control
      characters, and every other character as it is. */
  lemma EscapesExactly(c: char, high: nat, low: nat)
    requires high < 16 && low < 16
    ensures EscapeChar('"') == ['\\', '"'] && EscapeChar('\\') == ['\\', '\\']
    ensures EscapeChar(8 as char) == ['\\', 'b'] && EscapeChar(9 as char) == ['\\', 't']
    ensures EscapeChar(10 as char) == ['\\', 'n'] && EscapeChar(12 as char) == ['\\', 'f']
    ensures EscapeChar(13 as char) == ['\\', 'r']
    ensures c as int == 16 * high + low && c as int < 32 && c as int !in {8, 9, 10, 12, 13} ==>
              EscapeChar(c) ==
              ['\\', 'u', '0', '0', "0123456789abcdef"[high], "0123456789abcdef"[low]]
    ensures c as int >= 32 && c != '"' && c != '\\' ==> EscapeChar(c) == [c]
  {
    HexAlphabet('0', high);
    HexAlphabet('0', low);
  }

  function EscapeText(s: string): string {
    if s == [] then [] else EscapeChar(s[0]) + EscapeText(s[1..])
  }

  function Quote(s: string): string {
    "\"" + EscapeText(s) + "\""
  }

  function Stringify(v: Json): string
    decreases v, 0
  {
    match v
    case Null => "null"
    case Bool(b) => if b then "true" else "false"
    case Num(l) => l
    case Str(s) => Quote(s)
    case Arr(items) => if items == [] then "[]" else "[" + StringifyItems(items) + "]"
    case Obj(members) => if members == [] then "{}" else "{" + StringifyMembers(members) + "}"
  }

  function StringifyItems(items: seq<Json>): string
    requires items != []
    decreases items
  {
    Stringify(items[0]) + (if |items| == 1 then [] else "," + StringifyItems(items[1..]))
  }

  function StringifyMembers(members: seq<Member>): string
    requires members != []
    decreases members
  {
    Quote(members[0].key) + ":" + Stringify(members[0].value) +
    (if |members| == 1 then [] else "," + StringifyMembers(members[1..]))
  }

  /* ----- reading ----- */

  /** The character after a backslash, outside `\u` escapes. */
  function Unescape(c: char): Option<char> {
    if c in ['"', '\\', '/'] then Some(c)
    else if c == 'b' then Some('\U{08}')
    else if c == 't' then Some('\t')
    else if c == 'n' then Some('\n')
    else if c == 'f' then Some('\U{0C}')
    else if c == 'r' then Some('\r')
    else None
  }

  /** Four hexadecimal digits naming a character; the surrogate halves, which name none, are refused. */
  function UnicodeEscape(s: string): Option<char>
    requires |s| == 4
  {
    if forall i :: 0 <= i < 4 ==> IsHexDigit(s[i]) then
      var code := ((HexValue(s[0]) * 16 + HexValue(s[1])) * 16 + HexValue(s[2])) * 16 + HexValue(s[3]);
      if code < 0xD800 || 0xE000 <= code < 0x10000 then Some(code as char) else None
    else None
  }

  /** Four digits name the character with that code point. */
  lemma UnicodeEscapeReads(a: nat, b: nat, c: nat, d: nat)
    requires a < 16 && b < 16 && c < 16 && d < 16
    ensures var code := 4096 * a + 256 * b + 16 * c + d;
            UnicodeEscape([HexChar(a), HexChar(b), HexChar(c), HexChar(d)]) ==
            if code < 0xD800 || code >= 0xE000 then Some(code as char) else None
  {
    hide HexChar, HexValue;
    var s := [HexChar(a), HexChar(b), HexChar(c), HexChar(d)];
    assert HexValue(s[0]) == a && HexValue(s[1]) == b && HexValue(s[2]) == c && HexValue(s[3]) == d;
  }

  /** The texts that finite numbers have: a sign, digits, a fraction and an exponent, each but the digits only
      where needed. */
  lemma NumbersAreTexts(sign: string, whole: string, point: string, frac: string, exponent: string, power: string)
    requires sign in ["", "-"] && point in ["", "."] && exponent in ["", "e+", "e-"]
    requires whole != [] && AllDigits(whole) && AllDigits(frac) && AllDigits(power)
    ensures IsNumberText(sign + whole + point + frac + exponent + power)
  {
    forall c | c in whole || c in frac || c in power ensures IsNumberChar(c) {}
    forall c | c in sign || c in point || c in exponent ensures IsNumberChar(c) {}
    hide IsNumberChar;
    var text := sign + whole + point + frac + exponent + power;
    assert text[0] == (if sign == "" then whole[0] else '-');
    forall i | 0 <= i < |text| ensures IsNumberChar(text[i]) {
      assert text[i] in sign || text[i] in whole || text[i] in point || text[i] in frac || text[i] in exponent ||
             text[i] in power;
    }
  }

  function Prepend(c: char, r: Option<(string, string)>): Option<(string, string)> {
    match r case None => None case Some((value, rest)) => Some(([c] + value, rest))
  }

  /** The contents of a string after its opening quote, and what follows its closing one. */
  function ParseText(s: string): (r: Option<(string, string)>)
    ensures r.Some? ==> |r.value.1| < |s|
  {
    if s == [] || s[0] < ' ' then None
    else if s[0] == '"' then Some(([], s[1..]))
    else if s[0] != '\\' then Prepend(s[0], ParseText(s[1..]))
    else if |s| >= 6 && s[1] == 'u' then
      match UnicodeEscape(s[2..6])
      case None => None
      case Some(c) => Prepend(c, ParseText(s[6..]))
    else if |s| >= 2 then
      match Unescape(s[1])
      case None => None
      case Some(c) => Prepend(c, ParseText(s[2..]))
    else None
  }

  function NumberRun(s: string): (n: nat)
    ensures n <= |s| && (forall i :: 0 <= i < n ==> IsNumberChar(s[i])) && (n < |s| ==> !IsNumberChar(s[n]))
  {
    if s == [] || !IsNumberChar(s[0]) then 0
    else
      var n := NumberRun(s[1..]);
      assert forall i :: 0 < i < n + 1 ==> s[i] == s[1..][i - 1];
      n + 1
  }

  function ParseNumber(s: string): (r: Option<(Json, string)>)
    ensures r.Some? ==> |r.value.1| < |s|
  {
    var n := NumberRun(s);
    if IsNumberText(s[..n]) then Some((Num(s[..n]), s[n..])) else None
  }

  function ParseLiteral(s: string): (r: Option<(Json, string)>)
    ensures r.Some? ==> |r.value.1| < |s|
  {
    if "null" <= s then Some((Null, s[4..]))
    else if "true" <= s then Some((Bool(true), s[4..]))
    else if "false" <= s then Some((Bool(false), s[5..]))
    else None
  }

  function ParseValue(s: string): (r: Option<(Json, string)>)
    ensures r.Some? ==> |r.value.1| < |s|
    decreases |s|, 0
  {
    if s == [] then None
    else if s[0] == '"' then
      match ParseText(s[1..])
      case None => None
      case Some((text, rest)) => Some((Str(text), rest))
    else if s[0] == '[' then
      if |s| > 1 && s[1] == ']' then Some((Arr([]), s[2..]))
      else
        match ParseItems(s[1..])
        case None => None
        case Some((items, rest)) => Some((Arr(items), rest))
    else if s[0] == '{' then
      if |s| > 1 && s[1] == '}' then Some((Obj([]), s[2..]))
      else
        match ParseMembers(s[1..])
        case None => None
        case Some((members, rest)) => Some((Obj(members), rest))
    else if IsNumberChar(s[0]) then ParseNumber(s)
    else ParseLiteral(s)
  }

  /** The items of a non-empty array, up to and including its closing bracket. */
  function ParseItems(s: string): (r: Option<(seq<Json>, string)>)
    ensures r.Some? ==> |r.value.1| < |s|
    decreases |s|, 1
  {
    match ParseValue(s)
    case None => None
    case Some((item, rest)) =>
      if rest == [] then None
      else if rest[0] == ']' then Some(([item], rest[1..]))
      else if rest[0] == ',' then
        match ParseItems(rest[1..])
        case None => None
        case Some((items, end)) => Some(([item] + items, end))
      else None
  }

  /** The members of a non-empty object, up to and including its closing brace. */
  function ParseMembers(s: string): (r: Option<(seq<Member>, string)>)
    ensures r.Some? ==> |r.value.1| < |s|
    decreases |s|, 1
  {
    if s == [] || s[0] != '"' then None
    else
      match ParseText(s[1..])
      case None => None
      case Some((key, colon)) =>
        if colon == [] || colon[0] != ':' then None
        else
          match ParseValue(colon[1..])
          case None => None
          case Some((value, rest)) =>
            if rest == [] then None
            else if rest[0] == '}' then Some(([Member(key, value)], rest[1..]))
            else if rest[0] == ',' then
              match ParseMembers(rest[1..])
              case None => None
              case Some((members, end)) => Some(([Member(key, value)] + members, end))
            else None
  }

  /** The whole text is one value. */
  function Parse(s: string): Option<Json> {
    match ParseValue(s)
    case None => None
    case Some((v, rest)) => if rest == [] then Some(v) else None
  }

  /* ----- round trip ----- */

  lemma ControlEscapeReads(c: char)
    requires c < ' '
    ensures UnicodeEscape("00" + [HexChar(c as int / 16), HexChar(c as int % 16)]) == Some(c)
  {
  }

  /** One escaped character reads as that character, whatever follows. */
  lemma CharRoundTrip(c: char, tail: string)
    ensures ParseText(EscapeChar(c) + tail) == Prepend(c, ParseText(tail))
  {
    hide UnicodeEscape, Prepend, HexChar;
    var text := EscapeChar(c) + tail;
    if c in ['"', '\\', '\U{08}', '\t', '\n', '\U{0C}', '\r'] {
      assert text[2..] == tail && text[0] == '\\' && text[1] == EscapeChar(c)[1] != 'u';
      assert Unescape(text[1]) == Some(c);
    } else if c < ' ' {
      var digits := "00" + [HexChar(c as int / 16), HexChar(c as int % 16)];
      assert EscapeChar(c) == "\\u" + digits;
      assert text[0] == '\\' && text[1] == 'u' && text[2..6] == digits && text[6..] == tail;
      ControlEscapeReads(c);
    } else {
      assert text[0] == c && text[1..] == tail;
    }
  }

  lemma {:induction false} TextRoundTrip(s: string, rest: string)
    ensures ParseText(EscapeText(s) + "\"" + rest) == Some((s, rest))
  {
    hide EscapeChar;
    if s == [] {
      assert EscapeText(s) + "\"" + rest == "\"" + rest;
    } else {
      var tail := EscapeText(s[1..]) + "\"" + rest;
      assert EscapeText(s) + "\"" + rest == EscapeChar(s[0]) + tail;
      CharRoundTrip(s[0], tail);
      TextRoundTrip(s[1..], rest);
      assert s == [s[0]] + s[1..];
    }
  }

  lemma {:induction false} NumberRunStops(l: string, rest: string)
    requires forall i :: 0 <= i < |l| ==> IsNumberChar(l[i])
    requires rest == [] || !IsNumberChar(rest[0])
    ensures NumberRun(l + rest) == |l|
  {
    if l == [] {
      assert l + rest == rest;
    } else {
      assert (l + rest)[0] == l[0] && (l + rest)[1..] == l[1..] + rest;
      NumberRunStops(l[1..], rest);
    }
  }

  /** What may follow a value inside a text: nothing, a comma or a closing bracket. */
  predicate EndsValue(rest: string) {
    rest == [] || rest[0] in [',', ']', '}']
  }

  lemma NumberRoundTrip(l: string, rest: string)
    requires IsNumberText(l) && EndsValue(rest)
    ensures ParseValue(Stringify(Num(l)) + rest) == Some((Num(l), rest))
  {
    hide NumberRun;
    NumberRunStops(l, rest);
    assert (l + rest)[0] == l[0] && (l + rest)[..|l|] == l && (l + rest)[|l|..] == rest;
  }

  lemma StringRoundTrip(s: string, rest: string)
    ensures ParseValue(Stringify(Str(s)) + rest) == Some((Str(s), rest))
  {
    hide EscapeText, ParseText;
    TextRoundTrip(s, rest);
    assert (Quote(s) + rest)[0] == '"' && (Quote(s) + rest)[1..] == EscapeText(s) + "\"" + rest;
  }

  lemma LiteralRoundTrip(v: Json, rest: string)
    requires v.Null? || v.Bool?
    ensures ParseValue(Stringify(v) + rest) == Some((v, rest))
  {
  }

  /** Every value reads back from its text, in any context it can stand in. */
  lemma {:induction false} ValueRoundTrip(v: Json, rest: string)
    requires WellFormed(v) && EndsValue(rest)
    ensures ParseValue(Stringify(v) + rest) == Some((v, rest))
    decreases v, 1
  {
    hide ParseValue, Stringify;
    match v {
      case Num(l) => NumberRoundTrip(l, rest);
      case Str(s) => StringRoundTrip(s, rest);
      case Arr(_) => ArrayRoundTrip(v, rest);
      case Obj(_) => ObjectRoundTrip(v, rest);
      case _ => LiteralRoundTrip(v, rest);
    }
  }

  lemma ArrayRoundTrip(v: Json, rest: string)
    requires v.Arr? && WellFormed(v)
    ensures ParseValue(Stringify(v) + rest) == Some((v, rest))
    decreases v, 0
  {
    hide ParseItems, StringifyItems;
    var text := Stringify(v) + rest;
    if v.items == [] {
      assert text[0] == '[' && text[1] == ']' && text[2..] == rest;
    } else {
      ItemsRoundTrip(v.items, rest);
      ItemsStartOpen(v.items);
      assert text[0] == '[' && text[1..] == StringifyItems(v.items) + "]" + rest;
      assert text[1] == StringifyItems(v.items)[0];
    }
  }

  lemma ObjectRoundTrip(v: Json, rest: string)
    requires v.Obj? && WellFormed(v)
    ensures ParseValue(Stringify(v) + rest) == Some((v, rest))
    decreases v, 0
  {
    hide ParseMembers, StringifyMembers;
    var text := Stringify(v) + rest;
    if v.members == [] {
      assert text[0] == '{' && text[1] == '}' && text[2..] == rest;
    } else {
      MembersRoundTrip(v.members, rest);
      MembersStartOpen(v.members);
      assert text[0] == '{' && text[1..] == StringifyMembers(v.members) + "}" + rest;
      assert text[1] == StringifyMembers(v.members)[0];
    }
  }

  lemma ItemsStartOpen(items: seq<Json>)
    requires items != [] && WellFormed(items[0])
    ensures StringifyItems(items) != [] && StringifyItems(items)[0] != ']'
  {
  }

  lemma MembersStartOpen(members: seq<Member>)
    requires members != []
    ensures StringifyMembers(members) != [] && StringifyMembers(members)[0] == '"'
  {
  }

  lemma {:induction false} ItemsRoundTrip(items: seq<Json>, rest: string)
    requires items != [] && forall i :: 0 <= i < |items| ==> WellFormed(items[i])
    ensures ParseItems(StringifyItems(items) + "]" + rest) == Some((items, rest))
    decreases items
  {
    hide Stringify, ParseValue, WellFormed;
    var text := StringifyItems(items) + "]" + rest;
    if |items| == 1 {
      ValueRoundTrip(items[0], "]" + rest);
      assert text == Stringify(items[0]) + ("]" + rest);
      assert ("]" + rest)[1..] == rest && items == [items[0]];
    } else {
      var tail := StringifyItems(items[1..]) + "]" + rest;
      ValueRoundTrip(items[0], "," + tail);
      assert text == Stringify(items[0]) + ("," + tail);
      assert ("," + tail)[1..] == tail && items == [items[0]] + items[1..];
      ItemsRoundTrip(items[1..], rest);
    }
  }

  lemma {:induction false} MembersRoundTrip(members: seq<Member>, rest: string)
    requires members != [] && forall i :: 0 <= i < |members| ==> WellFormed(members[i].value)
    ensures ParseMembers(StringifyMembers(members) + "}" + rest) == Some((members, rest))
    decreases members
  {
    hide Stringify, ParseValue, ParseText, EscapeText, WellFormed;
    var text := StringifyMembers(members) + "}" + rest;
    var key, value := members[0].key, members[0].value;
    var after := if |members| == 1 then "}" + rest else "," + (StringifyMembers(members[1..]) + "}" + rest);
    var colon := ":" + (Stringify(value) + after);
    MembersText(members, rest);
    hide StringifyMembers, WellFormed;
    assert text[0] == '"' && text[1..] == EscapeText(key) + "\"" + colon;
    TextRoundTrip(key, colon);
    ValueRoundTrip(value, after);
    assert colon[1..] == Stringify(value) + after;
    if |members| == 1 {
      assert after[1..] == rest && members == [members[0]];
    } else {
      assert after[1..] == StringifyMembers(members[1..]) + "}" + rest && members == [members[0]] + members[1..];
      MembersRoundTrip(members[1..], rest);
    }
  }

  lemma MembersText(members: seq<Member>, rest: string)
    requires members != []
    ensures var after := if |members| == 1 then "}" + rest else "," + (StringifyMembers(members[1..]) + "}" + rest);
            StringifyMembers(members) + "}" + rest ==
            "\"" + (EscapeText(members[0].key) + "\"" + (":" + (Stringify(members[0].value) + after)))
  {
    hide Stringify, EscapeText;
    var more := if |members| == 1 then [] else StringifyMembers(members[1..]);
    var tail := if |members| == 1 then [] else "," + more;
    assert StringifyMembers(members) ==
           ("\"" + EscapeText(members[0].key) + "\"") + ":" + Stringify(members[0].value) + tail;
    hide StringifyMembers;
    Regroup(EscapeText(members[0].key), Stringify(members[0].value), tail, rest);
    CloseTail(more, rest);
  }

  lemma CloseTail(more: string, rest: string)
    ensures ("," + more) + "}" + rest == "," + (more + "}" + rest)
    ensures [] + "}" + rest == "}" + rest
  {
  }

  lemma Regroup(key: string, value: string, tail: string, rest: string)
    ensures (("\"" + key + "\"") + ":" + value + tail) + "}" + rest ==
            "\"" + (key + "\"" + (":" + (value + (tail + "}" + rest))))
  {
  }

  /** Parsing undoes writing, so two values with one text are one value. */
  lemma StringifyRoundTrip(v: Json)
    requires WellFormed(v)
    ensures Parse(Stringify(v)) == Some(v)
  {
    hide Stringify, ParseValue;
    ValueRoundTrip(v, []);
    assert Stringify(v) + [] == Stringify(v);
  }
}
