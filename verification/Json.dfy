/**
 The JSON values, printer and grammar of picojson.h. A std::string of bytes is a string
 whose characters are all below 256. The numbers are the finite doubles, taken as reals.
 Parsing is a function of the text that remains; module JsonInput has the code that
 consumes it character by character.
 */
module Json {
  import opened Arith
  import opened Numerals
  import opened Types

  datatype Value =
    | Null
    | Boolean(b: bool)
    | Number(r: real)
    | String(s: string)
    | Array(items: seq<Value>)
    | Object(members: seq<Member>)

  /** One entry of a std::map<std::string, value>, which iterates in the order of its keys. */
  datatype Member = Member(key: string, value: Value)

  /** std::map::find. */
  function Find(ms: seq<Member>, key: string): Option<Value> {
    if ms == [] then None else if ms[0].key == key then Some(ms[0].value) else Find(ms[1..], key)
  }

  /** What the C library does with numbers: strtod on a whole text (None if it does not read all of it), the
      "%.17g" format, and the locale's decimal point. */
  datatype Library = Library(strtod: string -> Option<real>, format17: real -> string, point: string)

  const TWO53: int := 0x20_0000_0000_0000

  predicate Bytes(s: string) {
    forall i :: 0 <= i < |s| ==> s[i] as int < 256
  }

  /** Order of std::string keys. */
  predicate Less(a: string, b: string) {
    if b == "" then false
    else if a == "" then true
    else if a[0] != b[0] then a[0] < b[0]
    else Less(a[1..], b[1..])
  }

  lemma {:induction false} LessTotal(a: string, b: string)
    ensures a != b ==> (Less(a, b) <==> !Less(b, a))
    ensures !Less(a, a)
  {
    if a != "" {
      LessTotal(a[1..], a[1..]);
      if b != "" && a[0] == b[0] {
        LessTotal(a[1..], b[1..]);
        assert a == [a[0]] + a[1..] && b == [b[0]] + b[1..];
      }
    }
  }

  lemma {:induction false} LessTransitive(a: string, b: string, c: string)
    requires Less(a, b) && Less(b, c)
    ensures Less(a, c)
  {
    if a != "" && a[0] == b[0] && b[0] == c[0] {
      LessTransitive(a[1..], b[1..], c[1..]);
    }
  }

  predicate Sorted(ms: seq<Member>) {
    forall i, j :: 0 <= i < j < |ms| ==> Less(ms[i].key, ms[j].key)
  }

  /** Values that are trees of the kinds named, with integers that a double holds exactly. */
  ghost predicate Plain(v: Value) {
    match v
    case Null => true
    case Boolean(_) => true
    case Number(r) => r == r.Floor as real && 0 - TWO53 < r.Floor < TWO53
    case String(s) => Bytes(s)
    case Array(items) => forall i :: 0 <= i < |items| ==> Plain(items[i])
    case Object(members) =>
      Sorted(members) && forall i :: 0 <= i < |members| ==> Bytes(members[i].key) && Plain(members[i].value)
  }

  // ---------------------------------------------------------------------------------
  // Printing
  // ---------------------------------------------------------------------------------

  function HexDigit(d: nat): char
    requires d < 16
  {
    if d < 10 then '0' + d as char else 'a' + (d - 10) as char
  }

  /** "%.f" of an integer. */
  function Dec(n: int): string {
    if n < 0 then "-" + DecNat(-n) else DecNat(n)
  }

  function NumberText(lib: Library, r: real): string {
    if 0.0 - TWO53 as real < r < TWO53 as real && r == r.Floor as real then Dec(r.Floor) else lib.format17(r)
  }

  /** serialize_str, one character. */
  function EscapeChar(c: char): string {
    if c == '\"' then "\\\""
    else if c == '\\' then "\\\\"
    else if c == '/' then "\\/"
    else if c == 8 as char then "\\b"
    else if c == 12 as char then "\\f"
    else if c == '\n' then "\\n"
    else if c == '\r' then "\\r"
    else if c == '\t' then "\\t"
    else if c < ' ' || c == 127 as char then "\\u00" + [HexDigit(c as int / 16 % 16), HexDigit(c as int % 16)]
    else [c]
  }

  function Escape(s: string): string {
    if s == "" then "" else EscapeChar(s[0]) + Escape(s[1..])
  }

  function Quote(s: string): string {
    "\"" + Escape(s) + "\""
  }

  function Spaces(n: nat): string {
    seq(n, _ => ' ')
  }

  /** _indent; nothing in compact mode, which is indent -1. */
  function Indent(indent: int): string
    requires indent >= -1
  {
    if indent == -1 then "" else "\n" + Spaces(indent * 2)
  }

  function Deeper(indent: int): int {
    if indent == -1 then -1 else indent + 1
  }

  /** value::_serialize at some depth, without the newline that ends a whole prettified document. */
  function Body(lib: Library, v: Value, indent: int): string
    requires indent >= -1
    decreases v
  {
    match v
    case Null => "null"
    case Boolean(b) => if b then "true" else "false"
    case Number(r) => NumberText(lib, r)
    case String(s) => Quote(s)
    case Array(items) =>
      "[" + Elements(lib, items, Deeper(indent), true) + (if items == [] then "" else Indent(indent)) + "]"
    case Object(members) =>
      "{" + Entries(lib, members, Deeper(indent), true) + (if members == [] then "" else Indent(indent)) + "}"
  }

  function Elements(lib: Library, items: seq<Value>, indent: int, first: bool): string
    requires indent >= -1
    decreases items
  {
    if items == [] then ""
    else
      var rest := Elements(lib, items[1..], indent, false);
      (if first then "" else ",") + Indent(indent) + Body(lib, items[0], indent) + rest
  }

  function Entry(lib: Library, m: Member, indent: int): string
    requires indent >= -1
    decreases m
  {
    Indent(indent) + Quote(m.key) + ":" + (if indent == -1 then "" else " ") + Body(lib, m.value, indent)
  }

  function Entries(lib: Library, members: seq<Member>, indent: int, first: bool): string
    requires indent >= -1
    decreases members
  {
    if members == [] then ""
    else (if first then "" else ",") + Entry(lib, members[0], indent) + Entries(lib, members[1..], indent, false)
  }

  function Serialize(lib: Library, v: Value, prettify: bool): string {
    if prettify then Body(lib, v, 0) + "\n" else Body(lib, v, -1)
  }

  // ---------------------------------------------------------------------------------
  // Parsing: each function takes the remaining text and returns what is left after it
  // ---------------------------------------------------------------------------------

  predicate IsSpace(c: char) {
    c == ' ' || c == '\t' || c == '\n' || c == '\r'
  }

  function SkipWs(t: string): (rest: string)
    ensures |rest| <= |t|
    ensures rest != "" ==> !IsSpace(rest[0])
  {
    if t != "" && IsSpace(t[0]) then SkipWs(t[1..]) else t
  }

  /** input::expect: whether the character came, and what is left (whitespace is gone either way). */
  function Expect(t: string, c: char): (r: (bool, string))
    ensures r.0 ==> |r.1| < |t|
    ensures |r.1| <= |t|
  {
    var s := SkipWs(t);
    if s != "" && s[0] == c then (true, s[1..]) else (false, s)
  }

  function HexValue(c: char): (d: Option<nat>)
    ensures d.Some? ==> d.value < 16
  {
    var x := c as int;
    if '0' as int <= x <= '9' as int then Some(x - '0' as int)
    else if 'A' as int <= x <= 'F' as int then Some(x - 'A' as int + 10)
    else if 'a' as int <= x <= 'f' as int then Some(x - 'a' as int + 10)
    else None
  }

  function Pow16(n: nat): (p: nat)
    ensures p > 0
  {
    if n == 0 then 1 else 16 * Pow16(n - 1)
  }

  /** n more hex digits behind those that made acc. */
  function Hex(t: string, n: nat, acc: nat): (r: Option<(nat, string)>)
    ensures r.Some? ==> |r.value.1| == |t| - n
    decreases |t|
  {
    if n == 0 then Some((acc, t))
    else if t == "" || HexValue(t[0]).None? then None
    else Hex(t[1..], n - 1, acc * 16 + HexValue(t[0]).value)
  }

  lemma {:induction false} HexBounded(t: string, n: nat, acc: nat)
    requires Hex(t, n, acc).Some?
    ensures Hex(t, n, acc).value.0 < (acc + 1) * Pow16(n)
    decreases |t|
  {
    if n > 0 {
      HexBounded(t[1..], n - 1, acc * 16 + HexValue(t[0]).value);
      HexBound(acc, HexValue(t[0]).value, Pow16(n - 1));
    }
  }

  lemma HexBound(acc: nat, d: nat, p: nat)
    requires d < 16
    ensures (acc * 16 + d + 1) * p <= (acc + 1) * (16 * p)
  {
    MulMono(acc * 16 + d + 1, (acc + 1) * 16, p);
    assert (acc + 1) * 16 * p == (acc + 1) * (16 * p);
  }

  /** _parse_quadhex. */
  function QuadHex(t: string): (r: Option<(nat, string)>)
    ensures r.Some? ==> r.value.0 < 0x10000 && |r.value.1| == |t| - 4
  {
    var r := Hex(t, 4, 0);
    assert r.Some? ==> r.value.0 < 0x10000 by {
      assert Pow16(4) == 0x10000;
      if r.Some? { HexBounded(t, 4, 0); }
    }
    r
  }

  function Byte(n: nat): char
    requires n < 256
  {
    n as char
  }

  /** The UTF-8 encoding that _parse_codepoint appends; the shifts and masks are divisions and remainders. */
  function Utf8(u: nat): string
    requires u < 0x110000
  {
    if u < 0x80 then [Byte(u)]
    else if u < 0x800 then [Byte(0xc0 + u / 64), Byte(0x80 + u % 64)]
    else if u < 0x10000 then [Byte(0xe0 + u / 4096), Byte(0x80 + u / 64 % 64), Byte(0x80 + u % 64)]
    else [Byte(0xf0 + u / 0x40000), Byte(0x80 + u / 4096 % 64), Byte(0x80 + u / 64 % 64), Byte(0x80 + u % 64)]
  }

  /** The second half of a surrogate pair, behind the first. */
  function LowSurrogate(t: string, high: nat): (r: Option<(string, string)>)
    requires 0xd800 <= high < 0xdc00
    ensures r.Some? ==> |r.value.1| < |t|
  {
    if |t| < 2 || t[0] != '\\' || t[1] != 'u' then None
    else
      var q := QuadHex(t[2..]);
      if q.None? || q.value.0 < 0xdc00 || q.value.0 > 0xdfff then None
      else Some((Utf8((high - 0xd800) * 1024 + (q.value.0 - 0xdc00) + 0x10000), q.value.1))
  }

  /** _parse_codepoint, after "\u". */
  function Codepoint(t: string): (r: Option<(string, string)>)
    ensures r.Some? ==> |r.value.1| < |t|
  {
    var q := QuadHex(t);
    if q.None? then None
    else if q.value.0 < 0xd800 || q.value.0 > 0xdfff then Some((Utf8(q.value.0), q.value.1))
    else if 0xdc00 <= q.value.0 then None
    else LowSurrogate(q.value.1, q.value.0)
  }

  /** What one escape after the backslash stands for. */
  function Unescape(t: string): (r: Option<(string, string)>)
    ensures r.Some? ==> |r.value.1| < |t|
  {
    if t == "" then None
    else match t[0]
      case '\"' => Some(("\"", t[1..]))
      case '\\' => Some(("\\", t[1..]))
      case '/' => Some(("/", t[1..]))
      case 'b' => Some(([8 as char], t[1..]))
      case 'f' => Some(([12 as char], t[1..]))
      case 'n' => Some(("\n", t[1..]))
      case 'r' => Some(("\r", t[1..]))
      case 't' => Some(("\t", t[1..]))
      case 'u' => Codepoint(t[1..])
      case _ => None
  }

  /** Put text in front of the result of parsing the rest. */
  function Prepend(out: string, r: Option<(string, string)>): Option<(string, string)> {
    if r.None? then None else Some((out + r.value.0, r.value.1))
  }

  /** _parse_string, after the opening quote. */
  function Chars(t: string): (r: Option<(string, string)>)
    ensures r.Some? ==> |r.value.1| < |t|
    decreases |t|
  {
    if t == "" || t[0] < ' ' then None
    else if t[0] == '\"' then Some(("", t[1..]))
    else if t[0] == '\\' then
      var u := Unescape(t[1..]);
      if u.None? then None else Prepend(u.value.0, Chars(u.value.1))
    else Prepend([t[0]], Chars(t[1..]))
  }

  predicate IsPlainNumberChar(c: char) {
    '0' <= c <= '9' || c == '+' || c == '-' || c == 'e' || c == 'E'
  }

  predicate IsNumberChar(c: char) {
    IsPlainNumberChar(c) || c == '.'
  }

  /** _parse_number: the longest run of number characters, with the locale's point for '.'. */
  function TakeNumber(lib: Library, t: string): (r: (string, string))
    ensures |r.1| <= |t|
    ensures t != "" && IsNumberChar(t[0]) ==> |r.1| < |t|
  {
    if t != "" && IsNumberChar(t[0]) then
      var r := TakeNumber(lib, t[1..]);
      ((if t[0] == '.' then lib.point else [t[0]]) + r.0, r.1)
    else ("", t)
  }

  /** object[key] = value. */
  function Put(ms: seq<Member>, key: string, value: Value): seq<Member> {
    if ms == [] || Less(key, ms[0].key) then [Member(key, value)] + ms
    else if ms[0].key == key then [Member(key, value)] + ms[1..]
    else [ms[0]] + Put(ms[1..], key, value)
  }

  /** input::match: the text behind a pattern that has to come next. */
  function MatchText(t: string, pattern: string): (r: Option<string>)
    ensures r.Some? ==> |r.value| == |t| - |pattern|
    decreases |pattern|
  {
    if pattern == "" then Some(t)
    else if t != "" && t[0] == pattern[0] then MatchText(t[1..], pattern[1..])
    else None
  }

  function Keyword(t: string, pattern: string, value: Value): (r: Option<(Value, string)>)
    ensures r.Some? ==> |r.value.1| <= |t|
  {
    var rest := MatchText(t, pattern);
    if rest.None? then None else Some((value, rest.value))
  }

  /** _parse: one value, with whitespace in front of it. */
  function ParseValue(lib: Library, t: string): (r: Option<(Value, string)>)
    ensures r.Some? ==> |r.value.1| < |t|
    decreases |t|, 0
  {
    var s := SkipWs(t);
    if s == "" then None
    else match s[0]
      case 'n' => Keyword(s[1..], "ull", Null)
      case 'f' => Keyword(s[1..], "alse", Boolean(false))
      case 't' => Keyword(s[1..], "rue", Boolean(true))
      case '\"' =>
        var c := Chars(s[1..]);
        if c.None? then None else Some((String(c.value.0), c.value.1))
      case '[' => ParseArray(lib, s[1..])
      case '{' => ParseObject(lib, s[1..])
      case c => if '0' <= c <= '9' || c == '-' then ParseNumber(lib, s) else None
  }

  function ParseNumber(lib: Library, s: string): (r: Option<(Value, string)>)
    ensures r.Some? && s != "" && IsNumberChar(s[0]) ==> |r.value.1| < |s|
  {
    var n := TakeNumber(lib, s);
    var x := lib.strtod(n.0);
    if x.None? || n.0 == "" then None else Some((Number(x.value), n.1))
  }

  /** An array, behind its opening bracket. */
  function ParseArray(lib: Library, t: string): (r: Option<(Value, string)>)
    ensures r.Some? ==> |r.value.1| < |t|
    decreases |t|, 2
  {
    var e := Expect(t, ']');
    if e.0 then Some((Array([]), e.1))
    else
      var items := ParseItems(lib, e.1);
      if items.None? then None
      else
        var close := Expect(items.value.1, ']');
        if close.0 then Some((Array(items.value.0), close.1)) else None
  }

  /** An object, behind its opening brace. */
  function ParseObject(lib: Library, t: string): (r: Option<(Value, string)>)
    ensures r.Some? ==> |r.value.1| < |t|
    decreases |t|, 2
  {
    var e := Expect(t, '}');
    if e.0 then Some((Object([]), e.1))
    else
      var ms := ParseMembers(lib, e.1, []);
      if ms.None? then None
      else
        var close := Expect(ms.value.1, '}');
        if close.0 then Some((Object(ms.value.0), close.1)) else None
  }

  /** The items of an array up to where no comma follows. */
  function ParseItems(lib: Library, t: string): (r: Option<(seq<Value>, string)>)
    ensures r.Some? ==> |r.value.1| < |t|
    decreases |t|, 1
  {
    var v := ParseValue(lib, t);
    if v.None? then None
    else
      var e := Expect(v.value.1, ',');
      if !e.0 then Some(([v.value.0], e.1))
      else
        var more := ParseItems(lib, e.1);
        if more.None? then None else Some(([v.value.0] + more.value.0, more.value.1))
  }

  /** One "key": and the text behind it. */
  function ParseKey(t: string): (r: Option<(string, string)>)
    ensures r.Some? ==> |r.value.1| < |t|
  {
    var q := Expect(t, '\"');
    if !q.0 then None
    else
      var k := Chars(q.1);
      if k.None? then None
      else
        var c := Expect(k.value.1, ':');
        if c.0 then Some((k.value.0, c.1)) else None
  }

  function ParseMembers(lib: Library, t: string, ms: seq<Member>): (r: Option<(seq<Member>, string)>)
    ensures r.Some? ==> |r.value.1| < |t|
    decreases |t|, 1
  {
    var k := ParseKey(t);
    if k.None? then None
    else
      var v := ParseValue(lib, k.value.1);
      if v.None? then None
      else
        var e := Expect(v.value.1, ',');
        var ms' := Put(ms, k.value.0, v.value.0);
        if e.0 then ParseMembers(lib, e.1, ms') else Some((ms', e.1))
  }
}
