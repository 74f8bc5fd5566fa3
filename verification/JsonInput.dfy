/** The character reader and the parsing routines of picojson.h as they run: one pushed-back character at most. */
module JsonInput {
  import opened Json
  import opened Types

  const EOF: int := -1

  class Input {
    const text: string
    var cur: nat
    var lastCh: int
    var ungot: bool
    /** The text that getc will deliver: the pushed-back character, if any, and everything from cur on. */
    ghost var rest: string

    ghost predicate Valid()
      reads this
    {
      && Bytes(text)
      && cur <= |text|
      && (lastCh != EOF ==> cur > 0 && lastCh == text[cur - 1] as int)
      && (ungot ==> lastCh != EOF)
      && rest == if ungot then text[cur - 1..] else text[cur..]
    }

    constructor (text: string)
      requires Bytes(text)
      ensures Valid() && rest == text && this.text == text
    {
      this.text, cur, lastCh, ungot, rest := text, 0, EOF, false, text;
    }

    method Getc() returns (ch: int)
      requires Valid()
      modifies this
      ensures Valid() && !ungot && lastCh == ch
      ensures if old(rest) == "" then ch == EOF && rest == ""
              else
                && 0 <= ch < 256 && ch == old(rest)[0] as int
                && rest == old(rest)[1..] && old(rest) == [ch as char] + rest
    {
      if ungot {
        ungot := false;
        rest := rest[1..];
        return lastCh;
      }
      if cur == |text| {
        lastCh := EOF;
        return EOF;
      }
      lastCh := text[cur] as int;
      cur := cur + 1;
      rest := rest[1..];
      return lastCh;
    }

    /** ungetc; its assertion is the precondition. */
    method Ungetc()
      requires Valid()
      requires lastCh != EOF ==> !ungot
      modifies this`ungot, this`rest
      ensures Valid()
      ensures lastCh == EOF ==> rest == old(rest)
      ensures lastCh != EOF ==> rest == [lastCh as char] + old(rest)
    {
      if lastCh != EOF {
        ungot := true;
        rest := [lastCh as char] + rest;
      }
    }

    method SkipWs()
      requires Valid()
      modifies this
      ensures Valid() && rest == Json.SkipWs(old(rest))
      ensures ungot || rest == ""
    {
      while true
        invariant Valid() && Json.SkipWs(rest) == Json.SkipWs(old(rest))
        decreases |rest|
      {
        var ch := Getc();
        if !(ch == ' ' as int || ch == '\t' as int || ch == '\n' as int || ch == '\r' as int) {
          Ungetc();
          break;
        }
      }
    }

    method Expect(wanted: char) returns (ok: bool)
      requires Valid()
      modifies this
      ensures Valid() && (ok, rest) == Json.Expect(old(rest), wanted)
    {
      SkipWs();
      var ch := Getc();
      if ch != wanted as int {
        Ungetc();
        return false;
      }
      return true;
    }

    method Match(pattern: string) returns (ok: bool)
      requires Valid()
      modifies this
      ensures Valid()
      ensures ok <==> MatchText(old(rest), pattern).Some?
      ensures ok ==> rest == MatchText(old(rest), pattern).value
    {
      var pi := 0;
      while pi < |pattern|
        invariant Valid() && 0 <= pi <= |pattern|
        invariant MatchText(old(rest), pattern) == MatchText(rest, pattern[pi..])
      {
        var ch := Getc();
        if ch != pattern[pi] as int {
          Ungetc();
          return false;
        }
        assert pattern[pi..][1..] == pattern[pi + 1..];
        pi := pi + 1;
      }
      return true;
    }

    /** One digit of _parse_quadhex; -1 without one. */
    method ParseHexDigit() returns (hex: int)
      requires Valid()
      modifies this
      ensures Valid()
      ensures hex == -1 <==> old(rest) == "" || HexValue(old(rest)[0]).None?
      ensures hex != -1 ==> HexValue(old(rest)[0]) == Some(hex) && rest == old(rest)[1..]
    {
      hex := Getc();
      if hex == EOF {
        return -1;
      }
      if '0' as int <= hex <= '9' as int {
        hex := hex - '0' as int;
      } else if 'A' as int <= hex <= 'F' as int {
        hex := hex - ('A' as int - 0xa);
      } else if 'a' as int <= hex <= 'f' as int {
        hex := hex - ('a' as int - 0xa);
      } else {
        Ungetc();
        return -1;
      }
    }

    method ParseQuadHex() returns (r: int)
      requires Valid()
      modifies this
      ensures Valid()
      ensures -1 <= r < 0x10000
      ensures r == -1 <==> QuadHex(old(rest)).None?
      ensures r != -1 ==> QuadHex(old(rest)) == Some((r, rest))
    {
      ghost var all := QuadHex(rest);
      var uniCh: nat := 0;
      var i := 0;
      while i < 4
        invariant Valid() && 0 <= i <= 4
        invariant all == Hex(rest, 4 - i, uniCh)
      {
        var hex := ParseHexDigit();
        if hex == -1 {
          return -1;
        }
        uniCh := uniCh * 16 + hex;
        i := i + 1;
      }
      return uniCh;
    }

    method ParseCodepoint() returns (ok: bool, out: string)
      requires Valid()
      modifies this
      ensures Valid()
      ensures ok <==> Codepoint(old(rest)).Some?
      ensures ok ==> Codepoint(old(rest)) == Some((out, rest))
    {
      var uniCh := ParseQuadHex();
      if uniCh == -1 {
        return false, "";
      }
      if 0xd800 <= uniCh <= 0xdfff {
        if 0xdc00 <= uniCh {
          return false, "";
        }
        ok, out := ParseLowSurrogate(uniCh);
        return;
      }
      return true, Utf8(uniCh);
    }

    method ParseLowSurrogate(high: nat) returns (ok: bool, out: string)
      requires Valid() && 0xd800 <= high < 0xdc00
      modifies this
      ensures Valid()
      ensures ok <==> LowSurrogate(old(rest), high).Some?
      ensures ok ==> LowSurrogate(old(rest), high) == Some((out, rest))
    {
      ghost var t := rest;
      var ch := Getc();
      if ch == '\\' as int {
        ch := Getc();
      } else {
        Ungetc();
        return false, "";
      }
      if ch != 'u' as int {
        Ungetc();
        return false, "";
      }
      assert rest == t[2..];
      var second := ParseQuadHex();
      if !(0xdc00 <= second <= 0xdfff) {
        return false, "";
      }
      var uniCh := (high - 0xd800) * 1024 + (second - 0xdc00);
      uniCh := uniCh + 0x10000;
      return true, Utf8(uniCh);
    }

    /** What follows a backslash. */
    method ParseEscape() returns (ok: bool, out: string)
      requires Valid()
      modifies this
      ensures Valid()
      ensures ok <==> Unescape(old(rest)).Some?
      ensures ok ==> Unescape(old(rest)) == Some((out, rest))
    {
      var ch := Getc();
      out := "";
      if ch == EOF {
        return false, "";
      }
      ok := true;
      match ch as char {
        case '\"' => out := "\"";
        case '\\' => out := "\\";
        case '/' => out := "/";
        case 'b' => out := [8 as char];
        case 'f' => out := [12 as char];
        case 'n' => out := "\n";
        case 'r' => out := "\r";
        case 't' => out := "\t";
        case 'u' => ok, out := ParseCodepoint();
        case _ => ok := false;
      }
    }

    method ParseString() returns (ok: bool, out: string)
      requires Valid()
      modifies this
      ensures Valid()
      ensures ok <==> Chars(old(rest)).Some?
      ensures ok ==> Chars(old(rest)) == Some((out, rest))
    {
      out := "";
      PrependNothing(Chars(rest));
      while true
        invariant Valid() && Chars(old(rest)) == Prepend(out, Chars(rest))
        decreases |rest|
      {
        ghost var t, sofar := rest, out;
        var ch := Getc();
        if ch < ' ' as int {
          Ungetc();
          return false, "";
        } else if ch == '\"' as int {
          assert sofar + "" == out;
          return true, out;
        } else if ch == '\\' as int {
          var good, more := ParseEscape();
          if !good {
            return false, "";
          }
          out := out + more;
          PrependTwice(sofar, more, Chars(rest));
        } else {
          out := out + [ch as char];
          PrependTwice(sofar, [ch as char], Chars(rest));
        }
      }
    }

    /** One turn of the loop that collects a number: a character of a number is taken, any other is pushed back. */
    method TakeChar(lib: Library) returns (more: bool, piece: string)
      requires Valid()
      modifies this
      ensures Valid()
      ensures more ==> |rest| < |old(rest)| && TakeNumber(lib, old(rest)) == NumberAfter(piece, TakeNumber(lib, rest))
      ensures !more ==> rest == old(rest) && TakeNumber(lib, rest) == ("", rest)
    {
      TakeStep(lib, rest);
      var ch := Getc();
      if ch != EOF && IsPlainNumberChar(ch as char) {
        return true, [ch as char];
      } else if ch == '.' as int {
        return true, lib.point;
      }
      Ungetc();
      return false, "";
    }

    method ParseNumber(lib: Library) returns (num: string)
      requires Valid()
      modifies this
      ensures Valid() && (num, rest) == TakeNumber(lib, old(rest))
    {
      num := "";
      NumberAfterNothing(TakeNumber(lib, rest));
      while true
        invariant Valid() && TakeNumber(lib, old(rest)) == NumberAfter(num, TakeNumber(lib, rest))
        decreases |rest|
      {
        var more, piece := TakeChar(lib);
        if !more {
          assert num + "" == num;
          return;
        }
        NumberTogether(num, piece, TakeNumber(lib, rest));
        num := num + piece;
      }
    }

    method ParseNumberValue(lib: Library) returns (ok: bool, value: Value)
      requires Valid()
      modifies this
      ensures Valid()
      ensures ok <==> Json.ParseNumber(lib, old(rest)).Some?
      ensures ok ==> Json.ParseNumber(lib, old(rest)) == Some((value, rest))
    {
      var num := ParseNumber(lib);
      if num == "" {
        return false, Null;
      }
      var f := lib.strtod(num);
      if f.None? {
        return false, Null;
      }
      return true, Number(f.value);
    }

    /** _parse: one value. Success and failure are those of the grammar. */
    method Parse(lib: Library) returns (ok: bool, value: Value)
      requires Valid()
      modifies this
      ensures Valid()
      ensures ok <==> ParseValue(lib, old(rest)).Some?
      ensures ok ==> ParseValue(lib, old(rest)) == Some((value, rest))
      decreases |rest|, 0
    {
      SkipWs();
      var ch := Getc();
      if ch == EOF {
        return false, Null;
      }
      ok, value := ParseAfter(lib, ch as char, old(rest));
    }

    /** The choice by the first character, which has been read. */
    method ParseAfter(lib: Library, first: char, ghost t: string) returns (ok: bool, value: Value)
      requires Valid() && !ungot && lastCh == first as int && Json.SkipWs(t) == [first] + rest
      modifies this
      ensures Valid()
      ensures ok <==> ParseValue(lib, t).Some?
      ensures ok ==> ParseValue(lib, t) == Some((value, rest))
      decreases |rest|, 3
    {
      value := Null;
      match first {
        case 'n' => ok, value := ParseKeyword("ull", Null);
        case 'f' => ok, value := ParseKeyword("alse", Boolean(false));
        case 't' => ok, value := ParseKeyword("rue", Boolean(true));
        case '\"' =>
          var str;
          ok, str := ParseString();
          value := String(str);
        case '[' => ok, value := ParseArray(lib);
        case '{' => ok, value := ParseObject(lib);
        case c =>
          Ungetc();
          ok := false;
          if '0' <= c <= '9' || c == '-' {
            ok, value := ParseNumberValue(lib);
          }
      }
    }

    method ParseKeyword(pattern: string, keyword: Value) returns (ok: bool, value: Value)
      requires Valid()
      modifies this
      ensures Valid()
      ensures ok <==> Keyword(old(rest), pattern, keyword).Some?
      ensures ok ==> Keyword(old(rest), pattern, keyword) == Some((value, rest))
    {
      ok := Match(pattern);
      value := keyword;
    }

    method ParseArray(lib: Library) returns (ok: bool, value: Value)
      requires Valid()
      modifies this
      ensures Valid()
      ensures var r := Json.ParseArray(lib, old(rest)); (ok <==> r.Some?) && (ok ==> r == Some((value, rest)))
      decreases |rest|, 2
    {
      ghost var start := rest;
      var empty := Expect(']');
      if empty {
        return true, Array([]);
      }
      ghost var from := rest;
      var items: seq<Value> := [];
      var more := true;
      ItemsAfterNothing(ParseItems(lib, rest));
      while more
        invariant Valid() && |rest| <= |from|
        invariant more ==> ParseItems(lib, from) == ItemsAfter(items, ParseItems(lib, rest))
        invariant !more ==> ParseItems(lib, from) == Some((items, rest))
        decreases more, |rest|
      {
        ghost var t := rest;
        var good, item := Parse(lib);
        if !good {
          return false, Null;
        }
        ghost var before := items;
        items := items + [item];
        more := Expect(',');
        ItemsTogether(before, item, ParseItems(lib, rest));
      }
      ok := Expect(']');
      value := Array(items);
    }

    /** A key and its colon. */
    method ParseKey() returns (ok: bool, key: string)
      requires Valid()
      modifies this
      ensures Valid()
      ensures ok <==> Json.ParseKey(old(rest)).Some?
      ensures ok ==> Json.ParseKey(old(rest)) == Some((key, rest))
    {
      key := "";
      ok := Expect('\"');
      if ok {
        ok, key := ParseString();
        if ok {
          ok := Expect(':');
        }
      }
    }

    method ParseObject(lib: Library) returns (ok: bool, value: Value)
      requires Valid()
      modifies this
      ensures Valid()
      ensures var r := Json.ParseObject(lib, old(rest)); (ok <==> r.Some?) && (ok ==> r == Some((value, rest)))
      decreases |rest|, 2
    {
      var empty := Expect('}');
      if empty {
        return true, Object([]);
      }
      ghost var from := rest;
      var members: seq<Member> := [];
      var more := true;
      while more
        invariant Valid() && |rest| <= |from|
        invariant more ==> ParseMembers(lib, from, []) == ParseMembers(lib, rest, members)
        invariant !more ==> ParseMembers(lib, from, []) == Some((members, rest))
        decreases more, |rest|
      {
        var good, key := ParseKey();
        if !good {
          return false, Null;
        }
        var item;
        good, item := Parse(lib);
        if !good {
          return false, Null;
        }
        members := Put(members, key, item);
        more := Expect(',');
      }
      ok := Expect('}');
      value := Object(members);
    }
  }

  function NumberAfter(num: string, r: (string, string)): (string, string) {
    (num + r.0, r.1)
  }

  lemma TakeStep(lib: Library, t: string)
    ensures TakeNumber(lib, t) ==
            if t != "" && IsPlainNumberChar(t[0]) then NumberAfter([t[0]], TakeNumber(lib, t[1..]))
            else if t != "" && t[0] == '.' then NumberAfter(lib.point, TakeNumber(lib, t[1..]))
            else ("", t)
  {
  }

  lemma NumberAfterNothing(r: (string, string))
    ensures NumberAfter("", r) == r
  {
    assert "" + r.0 == r.0;
  }

  lemma NumberTogether(a: string, b: string, r: (string, string))
    ensures NumberAfter(a, NumberAfter(b, r)) == NumberAfter(a + b, r)
  {
    assert a + (b + r.0) == a + b + r.0;
  }

  function ItemsAfter(items: seq<Value>, r: Option<(seq<Value>, string)>): Option<(seq<Value>, string)> {
    if r.None? then None else Some((items + r.value.0, r.value.1))
  }

  lemma ItemsAfterNothing(r: Option<(seq<Value>, string)>)
    ensures ItemsAfter([], r) == r
  {
    if r.Some? { assert [] + r.value.0 == r.value.0; }
  }

  lemma PrependNothing(r: Option<(string, string)>)
    ensures Prepend("", r) == r
  {
    if r.Some? { assert "" + r.value.0 == r.value.0; }
  }

  lemma ItemsTogether(items: seq<Value>, item: Value, r: Option<(seq<Value>, string)>)
    ensures ItemsAfter(items, ItemsAfter([item], r)) == ItemsAfter(items + [item], r)
  {
    if r.Some? {
      assert items + ([item] + r.value.0) == items + [item] + r.value.0;
    }
  }

  lemma PrependTwice(a: string, b: string, r: Option<(string, string)>)
    ensures Prepend(a, Prepend(b, r)) == Prepend(a + b, r)
  {
    if r.Some? {
      assert a + (b + r.value.0) == a + b + r.value.0;
    }
  }
}
