/** The printing routines of picojson.h as they run, through an output iterator that only ever appends. */
module JsonOutput {
  import opened Json

  class Output {
    var text: string

    constructor ()
      ensures text == ""
    {
      text := "";
    }

    method Put(s: string)
      modifies this
      ensures text == old(text) + s
    {
      text := text + s;
    }

    /** One character of serialize_str. */
    method PutEscaped(c: char)
      modifies this
      ensures text == old(text) + EscapeChar(c)
    {
      match c {
        case '\"' => Put("\\\"");
        case '\\' => Put("\\\\");
        case '/' => Put("\\/");
        case '\n' => Put("\\n");
        case '\r' => Put("\\r");
        case '\t' => Put("\\t");
        case _ =>
          if c == 8 as char {
            Put("\\b");
          } else if c == 12 as char {
            Put("\\f");
          } else if c < ' ' || c == 127 as char {
            Put("\\u00" + [HexDigit(c as int / 16 % 16), HexDigit(c as int % 16)]);
          } else {
            Put([c]);
          }
      }
    }

    /** serialize_str. */
    method SerializeStr(s: string)
      modifies this
      ensures text == old(text) + Quote(s)
    {
      ghost var whole := old(text) + ("\"" + Escape(s));
      Put("\"");
      assert s[0..] == s;
      MoveOn(old(text), "\"", Escape(s), whole);
      for i := 0 to |s|
        invariant text + Escape(s[i..]) == whole
      {
        ghost var before := text;
        assert s[i..][1..] == s[i + 1..];
        PutEscaped(s[i]);
        MoveOn(before, EscapeChar(s[i]), Escape(s[i + 1..]), whole);
      }
      assert text + "" == text;
      Put("\"");
      Assoc(old(text), "\"" + Escape(s), "\"");
    }

    /** _indent. */
    method IndentTo(indent: nat)
      modifies this
      ensures text == old(text) + Indent(indent)
    {
      Put("\n");
      var i := 0;
      while i < indent * 2
        invariant 0 <= i <= indent * 2 && text == old(text) + ("\n" + Spaces(i))
      {
        Put(" ");
        assert Spaces(i + 1) == Spaces(i) + " ";
        i := i + 1;
      }
    }

    /** value::_serialize. */
    method SerializeValue(lib: Library, v: Value, indent: int)
      requires indent >= -1
      modifies this
      ensures text == old(text) + (Body(lib, v, indent) + if indent == 0 then "\n" else "")
      decreases v, 1
    {
      ghost var start := text;
      match v {
        case String(s) => SerializeStr(s);
        case Array(items) => SerializeArray(lib, items, indent);
        case Object(members) => SerializeObject(lib, members, indent);
        case Null => Put("null");
        case Boolean(b) => Put(if b then "true" else "false");
        case Number(r) => Put(NumberText(lib, r));
      }
      assert text == start + Body(lib, v, indent);
      if indent == 0 {
        Put("\n");
      }
      Assoc(start, Body(lib, v, indent), if indent == 0 then "\n" else "");
    }

    method SerializeElement(lib: Library, item: Value, deep: int, first: bool)
      requires deep == -1 || deep > 0
      modifies this
      ensures text == old(text) + ElementText(lib, item, deep, first)
      decreases item, 2
    {
      ghost var start := text;
      if !first {
        Put(",");
      }
      if deep != -1 {
        IndentTo(deep);
      }
      SerializeValue(lib, item, deep);
      Together(start, if first then "" else ",", Indent(deep), Body(lib, item, deep));
    }

    method SerializeArray(lib: Library, items: seq<Value>, indent: int)
      requires indent >= -1
      modifies this
      ensures text == old(text) + Body(lib, Array(items), indent)
      decreases items, 0
    {
      var deep := if indent != -1 then indent + 1 else indent;
      ghost var all := Elements(lib, items, deep, true);
      ghost var whole := old(text) + "[" + all;
      Put("[");
      assert items[0..] == items;
      for i := 0 to |items|
        invariant text + Elements(lib, items[i..], deep, i == 0) == whole
      {
        ghost var before := text;
        assert items[i..][1..] == items[i + 1..];
        SerializeElement(lib, items[i], deep, i == 0);
        MoveOn(before, ElementText(lib, items[i], deep, i == 0), Elements(lib, items[i + 1..], deep, false), whole);
      }
      assert text + "" == text;
      if indent != -1 && items != [] {
        IndentTo(indent);
      }
      Put("]");
      Together4(old(text), "[", all, if items == [] then "" else Indent(indent), "]");
    }

    method SerializeObject(lib: Library, members: seq<Member>, indent: int)
      requires indent >= -1
      modifies this
      ensures text == old(text) + Body(lib, Object(members), indent)
      decreases members, 0
    {
      var deep := if indent != -1 then indent + 1 else indent;
      ghost var all := Entries(lib, members, deep, true);
      ghost var whole := old(text) + "{" + all;
      Put("{");
      assert members[0..] == members;
      for i := 0 to |members|
        invariant text + Entries(lib, members[i..], deep, i == 0) == whole
      {
        ghost var before := text;
        assert members[i..][1..] == members[i + 1..];
        SerializeEntry(lib, members[i], deep, i == 0);
        MoveOn(before, (if i == 0 then "" else ",") + Entry(lib, members[i], deep),
               Entries(lib, members[i + 1..], deep, false), whole);
      }
      assert text + "" == text;
      if indent != -1 && members != [] {
        IndentTo(indent);
      }
      Put("}");
      Together4(old(text), "{", all, if members == [] then "" else Indent(indent), "}");
    }

    method SerializeEntry(lib: Library, m: Member, deep: int, first: bool)
      requires deep == -1 || deep > 0
      modifies this
      ensures text == old(text) + ((if first then "" else ",") + Entry(lib, m, deep))
      decreases m, 2
    {
      ghost var start := text;
      if !first {
        Put(",");
      }
      ghost var comma := text;
      SerializeKey(m.key, deep);
      SerializeValue(lib, m.value, deep);
      Together(comma, KeyText(m.key, deep), Body(lib, m.value, deep), "");
      Together(start, if first then "" else ",", Entry(lib, m, deep), "");
    }

    method SerializeKey(key: string, deep: int)
      requires deep == -1 || deep > 0
      modifies this
      ensures text == old(text) + KeyText(key, deep)
    {
      ghost var start := text;
      if deep != -1 {
        IndentTo(deep);
      }
      SerializeStr(key);
      Put(":");
      if deep != -1 {
        Put(" ");
      }
      Together4(start, Indent(deep), Quote(key), ":", if deep == -1 then "" else " ");
    }
  }

  /** An element of an array with what goes before it. */
  function ElementText(lib: Library, item: Value, deep: int, first: bool): string
    requires deep >= -1
  {
    (if first then "" else ",") + Indent(deep) + Body(lib, item, deep)
  }

  /** What goes before the value of an entry. */
  function KeyText(key: string, deep: int): string
    requires deep >= -1
  {
    Indent(deep) + Quote(key) + ":" + if deep == -1 then "" else " "
  }

  /** A piece has been printed. */
  lemma MoveOn(before: string, piece: string, more: string, whole: string)
    requires before + (piece + more) == whole
    ensures before + piece + more == whole
  {
  }

  lemma Together(a: string, b: string, c: string, d: string)
    ensures a + b + c + d == a + (b + c + d)
    ensures a + c + d == a + ("" + c + d) && a + b + d == a + (b + "" + d) && a + d == a + ("" + "" + d)
    ensures a + "" == a && b + "" == b && c + "" == c && "" + c == c && b + c + "" == b + c
  {
  }

  lemma Together4(a: string, b: string, c: string, d: string, e: string)
    ensures a + b + c + d + e == a + (b + c + d + e)
    ensures a + b + c + e == a + (b + c + "" + e) && a + c + d == a + ("" + c + d + "")
    ensures a + "" == a
  {
  }

  lemma Assoc(a: string, b: string, c: string)
    ensures a + b + c == a + (b + c)
    ensures a + b + "" == a + b
  {
  }
}
