/** Parsing what was printed gives the value back, in compact and in prettified form, at any depth. */
module JsonRoundTrip {
  import opened Arith
  import opened Json
  import opened Numerals
  import opened Types

  // ---------------------------------------------------------------------------------
  // Numbers
  // ---------------------------------------------------------------------------------

  predicate IntegerText(t: string) {
    Digits(t) || (t != "" && t[0] == '-' && Digits(t[1..]))
  }

  function IntegerValue(t: string): int
    requires IntegerText(t)
  {
    if Digits(t) then DigitsValue(t) else 0 - DigitsValue(t[1..])
  }

  /** What is assumed of strtod: it reads decimal integers that a double holds exactly, exactly. */
  ghost predicate ReadsIntegers(lib: Library) {
    forall t :: IntegerText(t) && 0 - TWO53 < IntegerValue(t) < TWO53 ==> lib.strtod(t) == Some(IntegerValue(t) as real)
  }

  lemma DecReads(n: int)
    ensures IntegerText(Dec(n)) && IntegerValue(Dec(n)) == n
    ensures Dec(n)[0] == '-' || '0' <= Dec(n)[0] <= '9'
    ensures forall i :: 0 <= i < |Dec(n)| ==> IsNumberChar(Dec(n)[i]) && Dec(n)[i] != '.'
  {
    DecNatReads(if n < 0 then -n else n);
    if n < 0 {
      assert Dec(n)[1..] == DecNat(-n);
    }
  }

  /** A text that does not continue a number. */
  predicate Closed(t: string) {
    t == "" || !IsNumberChar(t[0])
  }

  lemma {:induction false} TakeWhole(lib: Library, t: string, suffix: string)
    requires forall i :: 0 <= i < |t| ==> IsNumberChar(t[i]) && t[i] != '.'
    requires Closed(suffix)
    ensures TakeNumber(lib, t + suffix) == (t, suffix)
  {
    if t == "" {
      assert t + suffix == suffix;
    } else {
      TakeWhole(lib, t[1..], suffix);
      assert (t + suffix)[1..] == t[1..] + suffix;
      assert [t[0]] + t[1..] == t;
    }
  }

  // ---------------------------------------------------------------------------------
  // Strings
  // ---------------------------------------------------------------------------------

  lemma HexReads(c: nat)
    requires c < 128
    ensures var h := "00" + [HexDigit(c / 16 % 16), HexDigit(c % 16)];
            forall t: string :: Codepoint(h + t) == Some(([c as char], t))
  {
    var h := "00" + [HexDigit(c / 16 % 16), HexDigit(c % 16)];
    forall t: string
      ensures Codepoint(h + t) == Some(([c as char], t))
    {
      HexDigitReads(c / 16 % 16);
      HexDigitReads(c % 16);
      var t3 := [HexDigit(c % 16)] + t;
      var t2 := [HexDigit(c / 16 % 16)] + t3;
      assert (h + t)[1..] == "0" + t2;
      assert ("0" + t2)[1..] == t2 && t2[1..] == t3 && t3[1..] == t;
      assert Hex(t3, 1, c / 16 % 16) == Hex(t, 0, c);
      assert Hex(t2, 2, 0) == Hex(t3, 1, c / 16 % 16);
      assert Hex("0" + t2, 3, 0) == Hex(t2, 2, 0);
      assert QuadHex(h + t) == Some((c, t));
    }
  }

  lemma HexDigitReads(d: nat)
    requires d < 16
    ensures HexValue(HexDigit(d)) == Some(d)
  {
  }

  /** Each character comes back as itself from its escape. */
  lemma EscapeCharReads(c: char, t: string)
    requires c as int < 256
    ensures Chars(EscapeChar(c) + t) == Prepend([c], Chars(t))
  {
    if |EscapeChar(c)| == 1 {
      assert ([c] + t)[1..] == t;
    } else if |EscapeChar(c)| == 2 {
      ShortEscapeReads(c, EscapeChar(c)[1], t);
    } else {
      HexEscapeReads(c, t);
    }
  }

  lemma ShortEscapeReads(c: char, e: char, t: string)
    requires EscapeChar(c) == ['\\', e]
    ensures Chars(EscapeChar(c) + t) == Prepend([c], Chars(t))
  {
    assert (['\\', e] + t)[1..] == [e] + t;
    assert ([e] + t)[1..] == t;
  }

  lemma HexEscapeReads(c: char, t: string)
    requires |EscapeChar(c)| > 2
    ensures Chars(EscapeChar(c) + t) == Prepend([c], Chars(t))
  {
    var h := "00" + [HexDigit(c as int / 16 % 16), HexDigit(c as int % 16)];
    assert (EscapeChar(c) + t)[1..] == "u" + (h + t);
    assert ("u" + (h + t))[1..] == h + t;
    HexReads(c as int);
  }

  lemma {:induction false} EscapeReads(s: string, t: string)
    requires Bytes(s)
    ensures Chars(Escape(s) + ("\"" + t)) == Some((s, t))
  {
    if s == "" {
      assert Escape(s) + ("\"" + t) == "\"" + t;
      assert ("\"" + t)[1..] == t;
    } else {
      var rest := Escape(s[1..]) + ("\"" + t);
      assert Escape(s) + ("\"" + t) == EscapeChar(s[0]) + rest;
      EscapeReads(s[1..], t);
      EscapeCharReads(s[0], rest);
      assert [s[0]] + s[1..] == s;
    }
  }

  // ---------------------------------------------------------------------------------
  // Whitespace
  // ---------------------------------------------------------------------------------

  lemma {:induction false} SkipSpaces(n: nat, t: string)
    ensures SkipWs(Spaces(n) + t) == SkipWs(t)
  {
    if n == 0 {
      assert Spaces(n) + t == t;
    } else {
      assert (Spaces(n) + t)[1..] == Spaces(n - 1) + t;
      SkipSpaces(n - 1, t);
    }
  }

  lemma SkipIndent(indent: int, t: string)
    requires indent >= -1
    ensures SkipWs(Indent(indent) + t) == SkipWs(t)
  {
    if indent == -1 {
      assert Indent(indent) + t == t;
    } else {
      assert (Indent(indent) + t)[1..] == Spaces(indent * 2) + t;
      SkipSpaces(indent * 2, t);
    }
  }

  /** Parsing a value does not see whitespace in front of it. */
  lemma SpaceInFront(lib: Library, w: string, t: string)
    requires SkipWs(w + t) == SkipWs(t)
    ensures ParseValue(lib, w + t) == ParseValue(lib, t)
  {
  }

  /** The text after the last item: whitespace, then the closing bracket. */
  ghost predicate Tail(tail: string, close: char) {
    Closed(tail) && SkipWs(tail) != "" && SkipWs(tail)[0] == close
  }

  lemma TailCloses(indent: int, close: char, suffix: string)
    requires indent >= -1 && (close == ']' || close == '}')
    ensures Tail(Indent(indent) + ([close] + suffix), close)
    ensures Expect(Indent(indent) + ([close] + suffix), close) == (true, suffix)
    ensures SkipWs(Indent(indent) + ([close] + suffix)) == [close] + suffix
  {
    SkipIndent(indent, [close] + suffix);
    assert ([close] + suffix)[1..] == suffix;
  }

  // ---------------------------------------------------------------------------------
  // Values
  // ---------------------------------------------------------------------------------

  /** No value begins with a bracket that closes one, so an array or object that has items is not taken for
      an empty one. */
  lemma BodyStarts(lib: Library, v: Value, indent: int)
    requires indent >= -1 && Plain(v)
    ensures Body(lib, v, indent) != "" && !IsSpace(Body(lib, v, indent)[0]) && Body(lib, v, indent)[0] != ']'
  {
    if v.Number? {
      DecReads(v.r.Floor);
    }
  }

  lemma KeywordReads(lib: Library, v: Value, indent: int, suffix: string)
    requires indent >= -1 && (v.Null? || v.Boolean?)
    ensures ParseValue(lib, Body(lib, v, indent) + suffix) == Some((v, suffix))
  {
    var text := Body(lib, v, indent);
    assert (text + suffix)[1..] == text[1..] + suffix;
    MatchWhole(text[1..], suffix);
    assert text[1..] == if v.Null? then "ull" else if v.b then "rue" else "alse";
  }

  lemma NumberReads(lib: Library, r: real, indent: int, suffix: string)
    requires ReadsIntegers(lib) && Plain(Number(r)) && indent >= -1 && Closed(suffix)
    ensures ParseValue(lib, Body(lib, Number(r), indent) + suffix) == Some((Number(r), suffix))
  {
    DecReads(r.Floor);
    TakeWhole(lib, Dec(r.Floor), suffix);
    assert Json.ParseNumber(lib, Dec(r.Floor) + suffix) == Some((Number(r), suffix));
  }

  lemma {:induction false} ValueReads(lib: Library, v: Value, indent: int, suffix: string)
    requires ReadsIntegers(lib) && Plain(v) && indent >= -1 && Closed(suffix)
    ensures ParseValue(lib, Body(lib, v, indent) + suffix) == Some((v, suffix))
    decreases v, 0
  {
    match v
    case Null => KeywordReads(lib, v, indent, suffix);
    case Boolean(_) => KeywordReads(lib, v, indent, suffix);
    case Number(r) => NumberReads(lib, r, indent, suffix);
    case String(s) => StringReads(s, suffix);
    case Array(items) =>
      ArrayReads(lib, items, indent, suffix);
    case Object(members) =>
      ObjectReads(lib, members, indent, suffix);
  }

  lemma {:induction false} MatchWhole(pattern: string, t: string)
    ensures MatchText(pattern + t, pattern) == Some(t)
  {
    if pattern == "" {
      assert pattern + t == t;
    } else {
      assert (pattern + t)[1..] == pattern[1..] + t;
      MatchWhole(pattern[1..], t);
    }
  }

  lemma StringReads(s: string, suffix: string)
    requires Bytes(s)
    ensures (Quote(s) + suffix)[0] == '\"'
    ensures Chars((Quote(s) + suffix)[1..]) == Some((s, suffix))
  {
    assert (Quote(s) + suffix)[1..] == Escape(s) + ("\"" + suffix);
    EscapeReads(s, suffix);
  }

  /** An array's text behind its opening bracket. */
  lemma ArrayShape(lib: Library, items: seq<Value>, indent: int, suffix: string)
    requires indent >= -1
    ensures var text := Body(lib, Array(items), indent) + suffix;
            && text[0] == '['
            && text[1..] == if items == [] then "]" + suffix
               else Elements(lib, items, Deeper(indent), true) + (Indent(indent) + ("]" + suffix))
  {
  }

  /** The text of one item and what follows, regrouped; with and without a comma in front. */
  lemma Regroup(indent: string, item: string, more: string, tail: string)
    ensures ("" + indent + item + more) + tail == indent + (item + (more + tail))
    ensures ("," + indent + item + more) + tail == "," + (("" + indent + item + more) + tail)
  {
  }

  /** A nonempty list's text: its first item, then the rest, which begins with a comma if there is more. */
  lemma ElementsShape(lib: Library, items: seq<Value>, indent: int, tail: string)
    requires indent >= -1 && items != []
    ensures Elements(lib, items, indent, true) + tail ==
            Indent(indent) + (Body(lib, items[0], indent) + (Elements(lib, items[1..], indent, false) + tail))
    ensures Elements(lib, items[1..], indent, false) + tail ==
            if |items| == 1 then tail else "," + (Elements(lib, items[1..], indent, true) + tail)
  {
    Regroup(Indent(indent), Body(lib, items[0], indent), Elements(lib, items[1..], indent, false), tail);
    var more := items[1..];
    if more != [] {
      Regroup(Indent(indent), Body(lib, more[0], indent), Elements(lib, more[1..], indent, false), tail);
    } else {
      assert "" + tail == tail;
    }
  }

  lemma {:induction false} ArrayReads(lib: Library, items: seq<Value>, indent: int, suffix: string)
    requires ReadsIntegers(lib) && Plain(Array(items)) && indent >= -1
    ensures ParseValue(lib, Body(lib, Array(items), indent) + suffix) == Some((Array(items), suffix))
    decreases items, 1
  {
    ArrayShape(lib, items, indent, suffix);
    assert ("]" + suffix)[1..] == suffix;
    if items != [] {
      var tail := Indent(indent) + ("]" + suffix);
      TailCloses(indent, ']', suffix);
      ItemsRead(lib, items, Deeper(indent), tail);
      ArrayOpens(lib, items, Deeper(indent), tail);
    }
  }

  /** Behind the opening bracket of a nonempty array no bracket closes it, and skipping whitespace there does
      not matter. */
  lemma ArrayOpens(lib: Library, items: seq<Value>, indent: int, tail: string)
    requires items != [] && Plain(Array(items)) && indent >= -1
    ensures var inner := Elements(lib, items, indent, true) + tail;
            !Expect(inner, ']').0 && ParseItems(lib, Expect(inner, ']').1) == ParseItems(lib, inner)
  {
    var inner := Elements(lib, items, indent, true) + tail;
    var first := Body(lib, items[0], indent) + (Elements(lib, items[1..], indent, false) + tail);
    ElementsShape(lib, items, indent, tail);
    SkipIndent(indent, first);
    BodyStarts(lib, items[0], indent);
    ItemsSpaceInFront(lib, inner);
  }

  lemma SkipTwice(t: string)
    ensures SkipWs(SkipWs(t)) == SkipWs(t)
  {
  }

  lemma ItemsSpaceInFront(lib: Library, t: string)
    ensures ParseItems(lib, SkipWs(t)) == ParseItems(lib, t)
  {
    SkipTwice(t);
    assert ParseValue(lib, SkipWs(t)) == ParseValue(lib, t);
  }

  /** Items one after the other. */
  lemma ItemsStep(lib: Library, t: string, v: Value, rest: string)
    requires ParseValue(lib, t) == Some((v, rest))
    ensures var e := Expect(rest, ',');
            ParseItems(lib, t) == if !e.0 then Some(([v], e.1))
                                  else if ParseItems(lib, e.1).None? then None
                                  else Some(([v] + ParseItems(lib, e.1).value.0, ParseItems(lib, e.1).value.1))
  {
  }

  lemma CommaFollows(more: string)
    ensures Expect("," + more, ',') == (true, more)
  {
    assert ("," + more)[1..] == more;
  }

  /** The last item: no comma follows. */
  lemma LastItem(lib: Library, t: string, v: Value, tail: string)
    requires ParseValue(lib, t) == Some((v, tail)) && Tail(tail, ']')
    ensures ParseItems(lib, t) == Some(([v], SkipWs(tail)))
  {
    ItemsStep(lib, t, v, tail);
  }

  /** An item with a comma behind it. */
  lemma NextItem(lib: Library, t: string, items: seq<Value>, more: string, rest: string)
    requires items != [] && ParseValue(lib, t) == Some((items[0], "," + more)) &&
             ParseItems(lib, more) == Some((items[1..], rest))
    ensures ParseItems(lib, t) == Some((items, rest))
  {
    ItemsStep(lib, t, items[0], "," + more);
    CommaFollows(more);
    assert items == [items[0]] + items[1..];
  }

  lemma PlainTail(items: seq<Value>)
    requires Plain(Array(items)) && items != []
    ensures Plain(items[0]) && Plain(Array(items[1..]))
  {
    assert forall i :: 0 <= i < |items| - 1 ==> items[1..][i] == items[i + 1];
  }

  lemma {:induction false} ItemsRead(lib: Library, items: seq<Value>, indent: int, tail: string)
    requires ReadsIntegers(lib) && Plain(Array(items)) && indent >= -1 && items != [] && Tail(tail, ']')
    ensures ParseItems(lib, Elements(lib, items, indent, true) + tail) == Some((items, SkipWs(tail)))
    decreases items, 0
  {
    PlainTail(items);
    var rest := Elements(lib, items[1..], indent, false) + tail;
    var first := Body(lib, items[0], indent) + rest;
    ElementsShape(lib, items, indent, tail);
    ValueReads(lib, items[0], indent, rest);
    SkipIndent(indent, first);
    SpaceInFront(lib, Indent(indent), first);
    if |items| > 1 {
      ItemsRead(lib, items[1..], indent, tail);
      NextItem(lib, Indent(indent) + first, items, Elements(lib, items[1..], indent, true) + tail, SkipWs(tail));
    } else {
      LastItem(lib, Indent(indent) + first, items[0], tail);
      assert items == [items[0]];
    }
  }

  // ---------------------------------------------------------------------------------
  // Objects
  // ---------------------------------------------------------------------------------

  /** A key above all others goes to the end. */
  lemma {:induction false} PutAtEnd(ms: seq<Member>, key: string, value: Value)
    requires forall i :: 0 <= i < |ms| ==> Less(ms[i].key, key)
    ensures Put(ms, key, value) == ms + [Member(key, value)]
  {
    if ms != [] {
      LessTotal(ms[0].key, key);
      LessTotal(key, key);
      PutAtEnd(ms[1..], key, value);
    }
  }

  lemma KeyReads(key: string, indent: int, t: string)
    requires Bytes(key) && indent >= -1
    ensures ParseKey(Indent(indent) + (Quote(key) + (":" + t))) == Some((key, t))
  {
    var q := Quote(key) + (":" + t);
    SkipIndent(indent, q);
    StringReads(key, ":" + t);
    assert (":" + t)[1..] == t;
  }

  lemma BracketRegroup(entries: string, indent: string, suffix: string)
    ensures ("{" + entries + indent + "}") + suffix == "{" + (entries + (indent + ("}" + suffix)))
    ensures ("{" + "" + "" + "}") + suffix == "{" + ("}" + suffix)
  {
  }

  lemma ObjectShape(lib: Library, members: seq<Member>, indent: int, suffix: string)
    requires indent >= -1
    ensures var text := Body(lib, Object(members), indent) + suffix;
            && text[0] == '{'
            && text[1..] == if members == [] then "}" + suffix
               else Entries(lib, members, Deeper(indent), true) + (Indent(indent) + ("}" + suffix))
  {
    BracketRegroup(Entries(lib, members, Deeper(indent), true), Indent(indent), suffix);
  }

  lemma EntryRegroup(indent: string, quoted: string, space: string, body: string, rest: string)
    ensures (indent + quoted + ":" + space + body) + rest == indent + (quoted + (":" + (space + (body + rest))))
  {
  }

  lemma EntriesRegroup(entry: string, more: string, tail: string)
    ensures ("" + entry + more) + tail == entry + (more + tail)
    ensures ("," + entry + more) + tail == "," + (("" + entry + more) + tail)
  {
  }

  lemma EntriesShape(lib: Library, members: seq<Member>, indent: int, tail: string)
    requires indent >= -1 && members != []
    ensures var m, space := members[0], if indent == -1 then "" else " ";
            Entries(lib, members, indent, true) + tail ==
            Indent(indent) + (Quote(m.key) +
                              (":" + (space + (Body(lib, m.value, indent) +
                                               (Entries(lib, members[1..], indent, false) + tail)))))
    ensures Entries(lib, members[1..], indent, false) + tail ==
            if |members| == 1 then tail else "," + (Entries(lib, members[1..], indent, true) + tail)
  {
    var m, more := members[0], members[1..];
    EntriesRegroup(Entry(lib, m, indent), Entries(lib, more, indent, false), tail);
    EntryRegroup(Indent(indent), Quote(m.key), if indent == -1 then "" else " ", Body(lib, m.value, indent),
                 Entries(lib, more, indent, false) + tail);
    if more != [] {
      EntriesRegroup(Entry(lib, more[0], indent), Entries(lib, more[1..], indent, false), tail);
    } else {
      assert "" + tail == tail;
    }
  }

  lemma {:induction false} ObjectReads(lib: Library, members: seq<Member>, indent: int, suffix: string)
    requires ReadsIntegers(lib) && Plain(Object(members)) && indent >= -1
    ensures ParseValue(lib, Body(lib, Object(members), indent) + suffix) == Some((Object(members), suffix))
    decreases members, 2
  {
    ObjectShape(lib, members, indent, suffix);
    assert ("}" + suffix)[1..] == suffix;
    if members != [] {
      ObjectInside(lib, members, indent, suffix);
    }
  }

  /** Behind the opening bracket of an object with entries. */
  lemma ObjectInside(lib: Library, members: seq<Member>, indent: int, suffix: string)
    requires ReadsIntegers(lib) && Plain(Object(members)) && indent >= -1 && members != []
    ensures var inner := Entries(lib, members, Deeper(indent), true) + (Indent(indent) + ("}" + suffix));
            Json.ParseObject(lib, inner) == Some((Object(members), suffix))
    decreases members, 1
  {
    assert [] + members == members;
    TailCloses(indent, '}', suffix);
    MembersRead(lib, [], members, Deeper(indent), Indent(indent) + ("}" + suffix));
    ObjectOpens(lib, members, Deeper(indent), Indent(indent) + ("}" + suffix));
  }

  lemma ObjectOpens(lib: Library, members: seq<Member>, indent: int, tail: string)
    requires members != [] && indent >= -1
    ensures var inner := Entries(lib, members, indent, true) + tail;
            !Expect(inner, '}').0 && ParseMembers(lib, Expect(inner, '}').1, []) == ParseMembers(lib, inner, [])
  {
    var inner := Entries(lib, members, indent, true) + tail;
    EntriesShape(lib, members, indent, tail);
    var first := inner[|Indent(indent)|..];
    assert inner == Indent(indent) + first && first[0] == '\"';
    SkipIndent(indent, first);
    MembersSpaceInFront(lib, inner);
  }

  lemma MembersSpaceInFront(lib: Library, t: string)
    ensures ParseMembers(lib, SkipWs(t), []) == ParseMembers(lib, t, [])
  {
    SkipTwice(t);
    assert ParseKey(SkipWs(t)) == ParseKey(t);
  }

  lemma MembersStep(lib: Library, t: string, before: seq<Member>, m: Member, afterKey: string, rest: string)
    requires ParseKey(t) == Some((m.key, afterKey)) && ParseValue(lib, afterKey) == Some((m.value, rest))
    requires forall i :: 0 <= i < |before| ==> Less(before[i].key, m.key)
    ensures var e := Expect(rest, ',');
            ParseMembers(lib, t, before) == if e.0 then ParseMembers(lib, e.1, before + [m])
              else Some((before + [m], e.1))
  {
    PutAtEnd(before, m.key, m.value);
  }

  /** One entry up to the text behind its value. */
  lemma EntryReads(lib: Library, m: Member, indent: int, rest: string)
    requires indent >= -1 && Bytes(m.key) && ParseValue(lib, Body(lib, m.value, indent) + rest) == Some((m.value, rest))
    ensures var afterKey := (if indent == -1 then "" else " ") + (Body(lib, m.value, indent) + rest);
            && ParseKey(Indent(indent) + (Quote(m.key) + (":" + afterKey))) == Some((m.key, afterKey))
            && ParseValue(lib, afterKey) == Some((m.value, rest))
  {
    KeyReads(m.key, indent, (if indent == -1 then "" else " ") + (Body(lib, m.value, indent) + rest));
    SpaceAfterColon(lib, indent, Body(lib, m.value, indent) + rest);
  }

  lemma MembersSplit(before: seq<Member>, members: seq<Member>)
    requires Plain(Object(before + members)) && members != []
    ensures before + [members[0]] + members[1..] == before + members
    ensures Bytes(members[0].key) && Plain(members[0].value)
  {
    assert members[0] == (before + members)[|before|];
  }

  lemma {:induction false} MembersRead(lib: Library, before: seq<Member>, members: seq<Member>, indent: int,
                                       tail: string)
    requires ReadsIntegers(lib) && Plain(Object(before + members)) && indent >= -1 && members != [] && Tail(tail, '}')
    ensures ParseMembers(lib, Entries(lib, members, indent, true) + tail, before) ==
            Some((before + members, SkipWs(tail)))
    decreases members, 0
  {
    var m := members[0];
    MembersSplit(before, members);
    FirstComesAfter(before, members);
    var rest := Entries(lib, members[1..], indent, false) + tail;
    EntriesShape(lib, members, indent, tail);
    ValueReads(lib, m.value, indent, rest);
    EntryReads(lib, m, indent, rest);
    var afterKey := (if indent == -1 then "" else " ") + (Body(lib, m.value, indent) + rest);
    MembersStep(lib, Entries(lib, members, indent, true) + tail, before, m, afterKey, rest);
    if |members| > 1 {
      CommaFollows(Entries(lib, members[1..], indent, true) + tail);
      MembersRead(lib, before + [m], members[1..], indent, tail);
    } else {
      assert before + [m] == before + members;
    }
  }

  lemma SpaceAfterColon(lib: Library, indent: int, value: string)
    ensures ParseValue(lib, (if indent == -1 then "" else " ") + value) == ParseValue(lib, value)
  {
    if indent == -1 {
      assert "" + value == value;
    } else {
      assert (" " + value)[1..] == value;
      hide ParseValue;
      SpaceInFront(lib, " ", value);
    }
  }

  lemma FirstComesAfter(before: seq<Member>, members: seq<Member>)
    requires Sorted(before + members) && members != []
    ensures forall i :: 0 <= i < |before| ==> Less(before[i].key, members[0].key)
  {
    forall i | 0 <= i < |before|
      ensures Less(before[i].key, members[0].key)
    {
      assert (before + members)[i] == before[i] && (before + members)[|before|] == members[0];
    }
  }

  /** The round trip of a whole document. In prettified form the parser stops before the final newline. */
  lemma SerializeParses(lib: Library, v: Value, prettify: bool)
    requires ReadsIntegers(lib) && Plain(v)
    ensures ParseValue(lib, Serialize(lib, v, prettify)) == Some((v, if prettify then "\n" else ""))
  {
    ValueReads(lib, v, if prettify then 0 else -1, if prettify then "\n" else "");
    assert Body(lib, v, -1) + "" == Body(lib, v, -1);
  }
}
