/** The two printed forms of a value, part by part: escapes, lines, commas and brackets. */
module JsonPrinting {
  import opened Json
  import opened JsonGrammar
  import opened Numerals
  import opened Unicode

  predicate HasLetter(code: nat) {
    exists k :: 0 <= k < 8 && NamedCode("\"\\/bfnrt"[k]) == code
  }

  /** A byte is printed as a backslash and its letter where it has one, as an escape with four small digits where it is
      another control character, and as itself otherwise. */
  lemma EscapesExactly(c: char)
    ensures forall k :: 0 <= k < 8 && NamedCode("\"\\/bfnrt"[k]) == c as int ==>
              EscapeChar(c) == ['\\', "\"\\/bfnrt"[k]]
    ensures !HasLetter(c as int) ==>
              EscapeChar(c) == if c as int < 0x20 || c as int == 0x7f
                               then "\\u00" + [LOWER[c as int / 16], LOWER[c as int % 16]] else [c]
  {
    var letters := "\"\\/bfnrt";
    assert letters[0] == '\"' && letters[1] == '\\' && letters[2] == '/' && letters[3] == 'b' && letters[4] == 'f';
    assert letters[5] == 'n' && letters[6] == 'r' && letters[7] == 't';
    assert NamedCode(letters[0]) == 0x22 && NamedCode(letters[1]) == 0x5c && NamedCode(letters[2]) == 0x2f;
    assert NamedCode(letters[3]) == 0x08 && NamedCode(letters[4]) == 0x0c && NamedCode(letters[5]) == 0x0a;
    assert NamedCode(letters[6]) == 0x0d && NamedCode(letters[7]) == 0x09;
    if !HasLetter(c as int) && (c as int < 0x20 || c as int == 0x7f) {
      assert EscapeChar(c) == "\\u00" + [HexDigit(c as int / 16 % 16), HexDigit(c as int % 16)];
    }
  }

  /** Numbers are printed without a zero in front. */
  lemma {:induction false} NoZeroInFront(n: nat)
    ensures DecNat(n)[0] == '0' <==> n == 0
    ensures n == 0 ==> DecNat(n) == "0"
  {
    if n >= 10 { NoZeroInFront(n / 10); }
  }

  /** A new line is a line feed and two spaces for each level; in compact form there is none. */
  lemma IndentExactly(indent: int)
    requires indent >= -1
    ensures if indent == -1 then Indent(indent) == ""
            else |Indent(indent)| == 1 + 2 * indent && Indent(indent)[0] == '\n' &&
                   forall k :: 1 <= k < |Indent(indent)| ==> Indent(indent)[k] == ' '
  {
  }

  /** The elements of an array one after the other: each on a line of its own, with a comma behind all but the last. */
  lemma {:induction false} ElementsPrint(lib: Library, items: seq<Value>, last: Value, indent: int, first: bool)
    requires indent >= -1
    ensures Elements(lib, items + [last], indent, first) ==
            Elements(lib, items, indent, first) +
              ((if first && items == [] then "" else ",") + Indent(indent) + Body(lib, last, indent))
    decreases |items|
  {
    var all := items + [last];
    if items == [] {
      assert all[1..] == [] && all[0] == last;
      LastElement((if first then "" else ",") + Indent(indent) + Body(lib, last, indent));
    } else {
      assert all[1..] == items[1..] + [last] && all[0] == items[0];
      ElementsPrint(lib, items[1..], last, indent, false);
      Appended((if first then "" else ",") + Indent(indent) + Body(lib, items[0], indent),
               Elements(lib, items[1..], indent, false), "," + Indent(indent) + Body(lib, last, indent));
    }
  }

  lemma LastElement(s: string)
    ensures s + "" == s && "" + s == s
  {
  }

  lemma Appended(a: string, b: string, c: string)
    ensures a + (b + c) == (a + b) + c
  {
  }

  /** The entries of an object in the same way: the key in quotes, a colon, in prettified form a space, and the value.
      */
  lemma {:induction false} EntriesPrint(lib: Library, members: seq<Member>, last: Member, indent: int, first: bool)
    requires indent >= -1
    ensures Entries(lib, members + [last], indent, first) ==
            Entries(lib, members, indent, first) +
              ((if first && members == [] then "" else ",") +
               (Indent(indent) + Quote(last.key) + ":" + (if indent >= 0 then " " else "") +
                Body(lib, last.value, indent)))
    decreases |members|
  {
    var all := members + [last];
    if members == [] {
      assert all[1..] == [] && all[0] == last;
      LastElement((if first then "" else ",") + Entry(lib, last, indent));
    } else {
      assert all[1..] == members[1..] + [last] && all[0] == members[0];
      EntriesPrint(lib, members[1..], last, indent, false);
      Appended((if first then "" else ",") + Entry(lib, members[0], indent),
               Entries(lib, members[1..], indent, false), "," + Entry(lib, last, indent));
    }
  }

  /** Brackets: the lines between them are one level deeper, and the closing one is on a line of its own; there is none
      between the brackets of what is empty. */
  lemma BracketsPrint(lib: Library, items: seq<Value>, members: seq<Member>, indent: int)
    requires indent >= -1
    ensures var deeper := if indent == -1 then -1 else indent + 1;
            && Body(lib, Array(items), indent) ==
               (if items == [] then "[]" else "[" + Elements(lib, items, deeper, true) + Indent(indent) + "]")
            && Body(lib, Object(members), indent) ==
               (if members == [] then "{}" else "{" + Entries(lib, members, deeper, true) + Indent(indent) + "}")
    ensures Serialize(lib, Array(items), true) == Body(lib, Array(items), 0) + "\n"
    ensures Serialize(lib, Array(items), false) == Body(lib, Array(items), -1)
  {
  }
}
