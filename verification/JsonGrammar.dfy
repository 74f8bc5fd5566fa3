/** The texts that picojson.h takes for a value, by their parts: any white space, any escapes, any order of keys. A text
    is parsed if and only if it has such parts, and then to the value they stand for. */
module JsonGrammar {
  import opened Json
  import opened Types
  import opened Unicode
  import R = JsonRoundTrip

  // ---------------------------------------------------------------------------------
  // Parts of a text
  // ---------------------------------------------------------------------------------

  /** Part of a string: a character that stands for itself, a backslash and a letter, an escape with four digits, and a
      pair of these. */
  datatype Piece = Raw(c: char) | Named(c: char) | Quad(digits: string) | Pair(high: string, low: string)

  predicate IsPiece(p: Piece) {
    match p
    case Raw(c) => c >= ' ' && c != '\"' && c != '\\'
    case Named(c) => c in "\"\\/bfnrt"
    case Quad(d) => IsQuad(d) && !IsHigh(QuadValue(d)) && !IsLow(QuadValue(d))
    case Pair(h, l) => IsQuad(h) && IsQuad(l) && IsHigh(QuadValue(h)) && IsLow(QuadValue(l))
  }

  function NamedCode(c: char): nat {
    match c
    case 'b' => 0x08
    case 't' => 0x09
    case 'n' => 0x0a
    case 'f' => 0x0c
    case 'r' => 0x0d
    case '\"' => 0x22
    case '/' => 0x2f
    case _ => 0x5c
  }

  function PieceText(p: Piece): string {
    match p
    case Raw(c) => [c]
    case Named(c) => ['\\', c]
    case Quad(d) => "\\u" + d
    case Pair(h, l) => "\\u" + h + ("\\u" + l)
  }

  /** The bytes it stands for; Utf8 is right by Unicode.Utf8Decodes. */
  function PieceBytes(p: Piece): string
    requires IsPiece(p)
  {
    match p
    case Raw(c) => [c]
    case Named(c) => [NamedCode(c) as char]
    case Quad(d) => Utf8(QuadValue(d))
    case Pair(h, l) => Utf8(Paired(QuadValue(h), QuadValue(l)))
  }

  predicate ArePieces(ps: seq<Piece>) {
    forall k :: 0 <= k < |ps| ==> IsPiece(ps[k])
  }

  function PiecesBytes(ps: seq<Piece>): string
    requires ArePieces(ps)
  {
    if ps == [] then "" else PieceBytes(ps[0]) + PiecesBytes(ps[1..])
  }

  /** A string up to its closing quote, and what follows. */
  function PiecesThen(ps: seq<Piece>, k: string): string {
    if ps == [] then "\"" + k else PieceText(ps[0]) + PiecesThen(ps[1..], k)
  }

  /** A value's parts. An item has white space around it; an entry also between its key and the colon. The gap is that
      between the brackets of an empty array or object. */
  datatype Doc =
    | NullDoc
    | BooleanDoc(b: bool)
    | NumberDoc(text: string)
    | StringDoc(pieces: seq<Piece>)
    | ArrayDoc(items: seq<ItemDoc>, gap: string)
    | ObjectDoc(entries: seq<EntryDoc>, gap: string)

  datatype ItemDoc = ItemDoc(before: string, doc: Doc, after: string)

  datatype EntryDoc = EntryDoc(before: string, key: seq<Piece>, beforeColon: string, item: ItemDoc)

  predicate IsBlank(w: string) {
    forall k :: 0 <= k < |w| ==> w[k] in " \t\n\r"
  }

  /** The library reads it, with the locale's point. */
  predicate IsNumberText(lib: Library, text: string) {
    && text != "" && ('0' <= text[0] <= '9' || text[0] == '-')
    && (forall k :: 0 <= k < |text| ==> text[k] in "0123456789+-eE.")
    && lib.strtod(Localized(lib, text)).Some?
  }

  function Localized(lib: Library, text: string): string {
    if text == "" then "" else (if text[0] == '.' then lib.point else [text[0]]) + Localized(lib, text[1..])
  }

  ghost predicate IsDoc(lib: Library, doc: Doc)
    decreases doc
  {
    match doc
    case NullDoc => true
    case BooleanDoc(_) => true
    case NumberDoc(text) => IsNumberText(lib, text)
    case StringDoc(ps) => ArePieces(ps)
    case ArrayDoc(items, gap) => IsBlank(gap) && AreItems(lib, items)
    case ObjectDoc(entries, gap) => IsBlank(gap) && AreEntries(lib, entries)
  }

  ghost predicate AreItems(lib: Library, items: seq<ItemDoc>)
    decreases items
  {
    items == [] || (IsItem(lib, items[0]) && AreItems(lib, items[1..]))
  }

  ghost predicate AreEntries(lib: Library, entries: seq<EntryDoc>)
    decreases entries
  {
    entries == [] || (IsEntry(lib, entries[0]) && AreEntries(lib, entries[1..]))
  }

  ghost predicate IsItem(lib: Library, item: ItemDoc)
    decreases item
  {
    IsBlank(item.before) && IsBlank(item.after) && IsDoc(lib, item.doc)
  }

  ghost predicate IsEntry(lib: Library, e: EntryDoc)
    decreases e
  {
    IsBlank(e.before) && IsBlank(e.beforeColon) && ArePieces(e.key) && IsItem(lib, e.item)
  }

  /** The text of a value, and what follows it. */
  function DocThen(doc: Doc, k: string): string
    decreases doc
  {
    match doc
    case NullDoc => "null" + k
    case BooleanDoc(b) => (if b then "true" else "false") + k
    case NumberDoc(text) => text + k
    case StringDoc(ps) => "\"" + PiecesThen(ps, k)
    case ArrayDoc(items, gap) => "[" + if items == [] then gap + ("]" + k) else ItemsThen(items, "]" + k)
    case ObjectDoc(entries, gap) => "{" + if entries == [] then gap + ("}" + k) else EntriesThen(entries, "}" + k)
  }

  function ItemThen(item: ItemDoc, k: string): string
    decreases item
  {
    item.before + DocThen(item.doc, item.after + k)
  }

  function ItemsThen(items: seq<ItemDoc>, k: string): string
    requires items != []
    decreases items
  {
    ItemThen(items[0], if |items| == 1 then k else "," + ItemsThen(items[1..], k))
  }

  function EntryThen(e: EntryDoc, k: string): string
    decreases e
  {
    e.before + ("\"" + PiecesThen(e.key, e.beforeColon + (":" + ItemThen(e.item, k))))
  }

  function EntriesThen(entries: seq<EntryDoc>, k: string): string
    requires entries != []
    decreases entries
  {
    EntryThen(entries[0], if |entries| == 1 then k else "," + EntriesThen(entries[1..], k))
  }

  ghost function DocValue(lib: Library, doc: Doc): Value
    requires IsDoc(lib, doc)
    decreases doc
  {
    match doc
    case NullDoc => Null
    case BooleanDoc(b) => Boolean(b)
    case NumberDoc(text) => Number(lib.strtod(Localized(lib, text)).value)
    case StringDoc(ps) => String(PiecesBytes(ps))
    case ArrayDoc(items, _) => Array(ItemValues(lib, items))
    case ObjectDoc(entries, _) => Object(EntryValues(lib, entries, []))
  }

  ghost function ItemValue(lib: Library, item: ItemDoc): Value
    requires IsItem(lib, item)
    decreases item
  {
    DocValue(lib, item.doc)
  }

  ghost function EntryPut(lib: Library, e: EntryDoc, ms: seq<Member>): seq<Member>
    requires IsEntry(lib, e)
    decreases e
  {
    Put(ms, PiecesBytes(e.key), ItemValue(lib, e.item))
  }

  ghost function ItemValues(lib: Library, items: seq<ItemDoc>): seq<Value>
    requires AreItems(lib, items)
    decreases items
  {
    if items == [] then [] else [ItemValue(lib, items[0])] + ItemValues(lib, items[1..])
  }

  /** The entries put into a map one after the other. */
  ghost function EntryValues(lib: Library, entries: seq<EntryDoc>, ms: seq<Member>): seq<Member>
    requires AreEntries(lib, entries)
    decreases entries
  {
    if entries == [] then ms
    else EntryValues(lib, entries[1..], EntryPut(lib, entries[0], ms))
  }

  // ---------------------------------------------------------------------------------
  // Strings
  // ---------------------------------------------------------------------------------

  lemma PieceReads(p: Piece, k: string)
    requires IsPiece(p)
    ensures Chars(PieceText(p) + k) == Prepend(PieceBytes(p), Chars(k))
  {
    hide Codepoint, Utf8, IsQuad;
    match p
    case Raw(c) =>
      assert ([c] + k)[1..] == k;
    case Named(c) =>
      assert (['\\', c] + k)[1..] == [c] + k && ([c] + k)[1..] == k;
    case Quad(d) =>
      QuadPieceReads(d, k);
    case Pair(h, l) =>
      PairReads(h, l, k);
  }

  lemma QuadPieceReads(d: string, k: string)
    requires IsPiece(Quad(d))
    ensures Chars(PieceText(Quad(d)) + k) == Prepend(PieceBytes(Quad(d)), Chars(k))
  {
    assert PieceText(Quad(d)) + k == "\\" + ("u" + (d + k));
    assert ("\\" + ("u" + (d + k)))[1..] == "u" + (d + k) && ("u" + (d + k))[1..] == d + k;
    QuadEscapeReads(d, k);
    hide Codepoint, Utf8;
  }

  lemma PairReads(h: string, l: string, k: string)
    requires IsPiece(Pair(h, l))
    ensures Chars(PieceText(Pair(h, l)) + k) == Prepend(PieceBytes(Pair(h, l)), Chars(k))
  {
    var rest := h + ("\\u" + (l + k));
    assert PieceText(Pair(h, l)) + k == "\\" + ("u" + rest);
    assert ("\\" + ("u" + rest))[1..] == "u" + rest && ("u" + rest)[1..] == rest;
    PairEscapeReads(h, l, k);
  }

  lemma {:induction false} PiecesRead(ps: seq<Piece>, k: string)
    requires ArePieces(ps)
    ensures Chars(PiecesThen(ps, k)) == Some((PiecesBytes(ps), k))
    decreases |ps|
  {
    if ps == [] {
      assert ("\"" + k)[1..] == k;
    } else {
      PieceReads(ps[0], PiecesThen(ps[1..], k));
      PiecesRead(ps[1..], k);
    }
  }

  /** What an escape took is the text of a piece. */
  lemma EscapeIsPiece(t: string) returns (p: Piece)
    requires Unescape(t).Some?
    ensures IsPiece(p) && "\\" + t == PieceText(p) + Unescape(t).value.1 && PieceBytes(p) == Unescape(t).value.0
  {
    hide Codepoint, PieceText, PieceBytes, IsPiece;
    if t[0] == 'u' {
      p := CodepointIsPiece(t[1..]);
      UnescapedIs(t);
    } else {
      p := LetterIsPiece(t);
    }
  }

  lemma UnescapedIs(t: string)
    requires t != "" && t[0] == 'u'
    ensures Unescape(t) == Codepoint(t[1..]) && "\\" + t == "\\u" + t[1..]
  {
    hide Codepoint;
    assert t == "u" + t[1..];
  }

  lemma LetterIsPiece(t: string) returns (p: Piece)
    requires Unescape(t).Some? && t[0] != 'u'
    ensures IsPiece(p) && "\\" + t == PieceText(p) + Unescape(t).value.1 && PieceBytes(p) == Unescape(t).value.0
  {
    var letters := "\"\\/bfnrt";
    assert letters[0] == '\"' && letters[1] == '\\' && letters[2] == '/' && letters[3] == 'b' && letters[4] == 'f';
    assert letters[5] == 'n' && letters[6] == 'r' && letters[7] == 't';
    p := Named(t[0]);
    assert t == [t[0]] + t[1..];
  }

  lemma CodepointIsPiece(t: string) returns (p: Piece)
    requires Codepoint(t).Some?
    ensures IsPiece(p) && "\\u" + t == PieceText(p) + Codepoint(t).value.1 && PieceBytes(p) == Codepoint(t).value.0
  {
    QuadIsRead(t);
    assert t == t[..4] + t[4..];
    if IsHigh(QuadValue(t[..4])) {
      var s := t[4..];
      QuadIsRead(s[2..]);
      p := Pair(t[..4], s[2..][..4]);
      assert s == "\\u" + s[2..] && s[2..] == s[2..][..4] + s[2..][4..];
      assert "\\u" + t == ("\\u" + t[..4] + ("\\u" + s[2..][..4])) + s[2..][4..];
    } else {
      p := Quad(t[..4]);
      assert "\\u" + t == ("\\u" + t[..4]) + t[4..];
    }
  }

  lemma {:induction false} CharsArePieces(t: string) returns (ps: seq<Piece>)
    requires Chars(t).Some?
    ensures ArePieces(ps) && t == PiecesThen(ps, Chars(t).value.1) && PiecesBytes(ps) == Chars(t).value.0
    decreases |t|
  {
    if t[0] == '\"' {
      ps := [];
      assert t == "\"" + t[1..];
    } else {
      var p: Piece, rest: string;
      if t[0] == '\\' {
        p := EscapeIsPiece(t[1..]);
        rest := Unescape(t[1..]).value.1;
        assert t == "\\" + t[1..];
      } else {
        p, rest := Raw(t[0]), t[1..];
        assert t == [t[0]] + t[1..];
      }
      var more := CharsArePieces(rest);
      ps := [p] + more;
      assert ps[1..] == more;
    }
  }

  // ---------------------------------------------------------------------------------
  // White space and numbers
  // ---------------------------------------------------------------------------------

  lemma SpaceExactly(c: char)
    ensures IsSpace(c) <==> c in " \t\n\r"
    ensures IsNumberChar(c) <==> c in "0123456789+-eE."
  {
    var spaces, digits := " \t\n\r", "0123456789+-eE.";
    assert spaces[0] == ' ' && spaces[1] == '\t' && spaces[2] == '\n' && spaces[3] == '\r';
    assert digits[..10] == "0123456789" && digits[10] == '+' && digits[11] == '-' && digits[12] == 'e';
    assert digits[13] == 'E' && digits[14] == '.';
    if '0' <= c <= '9' { assert digits[c as int - '0' as int] == c; }
  }

  lemma {:induction false} SkipBlank(w: string, k: string)
    requires IsBlank(w)
    ensures SkipWs(w + k) == SkipWs(k)
    decreases |w|
  {
    if w == "" {
      assert w + k == k;
    } else {
      SpaceExactly(w[0]);
      assert (w + k)[1..] == w[1..] + k;
      SkipBlank(w[1..], k);
    }
  }

  /** What white space was skipped. */
  lemma {:induction false} SkippedIsBlank(t: string) returns (w: string)
    ensures IsBlank(w) && t == w + SkipWs(t)
    decreases |t|
  {
    if t != "" && IsSpace(t[0]) {
      SpaceExactly(t[0]);
      var more := SkippedIsBlank(t[1..]);
      w := [t[0]] + more;
      assert t == [t[0]] + t[1..];
    } else {
      w := "";
      assert "" + t == t;
    }
  }

  lemma {:induction false} NumberReads(lib: Library, text: string, k: string)
    requires (forall i :: 0 <= i < |text| ==> text[i] in "0123456789+-eE.") && R.Closed(k)
    ensures TakeNumber(lib, text + k) == (Localized(lib, text), k)
    decreases |text|
  {
    if text == "" {
      assert text + k == k;
    } else {
      SpaceExactly(text[0]);
      assert (text + k)[1..] == text[1..] + k;
      NumberReads(lib, text[1..], k);
    }
  }

  lemma {:induction false} NumberIsTaken(lib: Library, t: string) returns (text: string)
    ensures forall i :: 0 <= i < |text| ==> text[i] in "0123456789+-eE."
    ensures t == text + TakeNumber(lib, t).1 && TakeNumber(lib, t).0 == Localized(lib, text)
    ensures text == "" <==> t == "" || !IsNumberChar(t[0])
    ensures (text != "" ==> text[0] == t[0]) && R.Closed(TakeNumber(lib, t).1)
    decreases |t|
  {
    if t != "" && IsNumberChar(t[0]) {
      SpaceExactly(t[0]);
      var more := NumberIsTaken(lib, t[1..]);
      text := [t[0]] + more;
      assert text[1..] == more && t == [t[0]] + t[1..];
    } else {
      text := "";
      assert "" + t == t;
    }
  }

  // ---------------------------------------------------------------------------------
  // Every text with such parts is parsed
  // ---------------------------------------------------------------------------------

  /** The first character of a value. */
  lemma DocStarts(lib: Library, doc: Doc, k: string)
    requires IsDoc(lib, doc)
    ensures DocThen(doc, k) != "" && !IsSpace(DocThen(doc, k)[0]) && DocThen(doc, k)[0] != ']'
  {
  }

  lemma KeywordDocReads(lib: Library, doc: Doc, k: string)
    requires doc.NullDoc? || doc.BooleanDoc?
    ensures ParseValue(lib, DocThen(doc, k)) == Some((DocValue(lib, doc), k))
  {
    var word := if doc.NullDoc? then "null" else if doc.b then "true" else "false";
    assert (word + k)[1..] == word[1..] + k;
    R.MatchWhole(word[1..], k);
    assert word[1..] == if doc.NullDoc? then "ull" else if doc.b then "rue" else "alse";
  }

  lemma NumberDocReads(lib: Library, text: string, k: string)
    requires IsNumberText(lib, text) && R.Closed(k)
    ensures ParseValue(lib, DocThen(NumberDoc(text), k)) == Some((DocValue(lib, NumberDoc(text)), k))
  {
    NumberOpens(lib, text + k);
    assert text[0] != '.' && Localized(lib, text) == [text[0]] + Localized(lib, text[1..]);
    NumberReads(lib, text, k);
    hide ParseValue, TakeNumber, Localized;
    assert Json.ParseNumber(lib, text + k) == Some((DocValue(lib, NumberDoc(text)), k));
  }

  lemma StringDocReads(lib: Library, ps: seq<Piece>, k: string)
    requires ArePieces(ps)
    ensures ParseValue(lib, DocThen(StringDoc(ps), k)) == Some((String(PiecesBytes(ps)), k))
  {
    PiecesRead(ps, k);
    hide Chars, PiecesThen, PiecesBytes, ArePieces;
    QuoteOpens(lib, PiecesThen(ps, k));
  }

  lemma QuoteOpens(lib: Library, inner: string)
    ensures ParseValue(lib, "\"" + inner) ==
            if Chars(inner).None? then None else Some((String(Chars(inner).value.0), Chars(inner).value.1))
  {
    hide Chars;
    assert ("\"" + inner)[1..] == inner;
  }

  /** Only behind a number does it matter what follows. */
  ghost predicate MayFollow(doc: Doc, k: string) {
    doc.NumberDoc? ==> R.Closed(k)
  }

  lemma {:induction false} DocReads(lib: Library, doc: Doc, k: string)
    requires IsDoc(lib, doc) && MayFollow(doc, k)
    ensures ParseValue(lib, DocThen(doc, k)) == Some((DocValue(lib, doc), k))
    decreases doc, 1
  {
    hide ParseValue, Chars;
    match doc
    case NullDoc => KeywordDocReads(lib, doc, k);
    case BooleanDoc(_) => KeywordDocReads(lib, doc, k);
    case NumberDoc(text) => NumberDocReads(lib, text, k);
    case StringDoc(ps) => StringDocReads(lib, ps, k);
    case ArrayDoc(items, gap) =>
      ArrayDocReads(lib, items, gap, k);
    case ObjectDoc(entries, gap) =>
      ObjectDocReads(lib, entries, gap, k);
  }

  /** A separator or a closing bracket behind white space. */
  lemma AfterBlank(w: string, c: char, k: string)
    requires IsBlank(w) && (c == ',' || c == ']' || c == '}')
    ensures R.Closed(w + ([c] + k)) && SkipWs(w + ([c] + k)) == [c] + k && ([c] + k)[1..] == k
    ensures Expect(w + ([c] + k), c) == (true, k)
    ensures forall d :: d != c ==> Expect(w + ([c] + k), d) == (false, [c] + k)
  {
    SkipBlank(w, [c] + k);
    assert ([c] + k)[1..] == k;
    if w != "" { SpaceExactly(w[0]); }
  }

  lemma {:induction false} ItemReads(lib: Library, item: ItemDoc, c: char, k: string)
    requires IsItem(lib, item) && (c == ',' || c == ']' || c == '}')
    ensures ParseValue(lib, ItemThen(item, [c] + k)) == Some((ItemValue(lib, item), item.after + ([c] + k)))
    decreases item
  {
    AfterBlank(item.after, c, k);
    DocReads(lib, item.doc, item.after + ([c] + k));
    SkipBlank(item.before, DocThen(item.doc, item.after + ([c] + k)));
    hide ParseValue, DocThen;
    R.SpaceInFront(lib, item.before, DocThen(item.doc, item.after + ([c] + k)));
  }

  lemma {:induction false} ItemsRead(lib: Library, items: seq<ItemDoc>, k: string)
    requires AreItems(lib, items) && items != []
    ensures ParseItems(lib, ItemsThen(items, "]" + k)) == Some((ItemValues(lib, items), "]" + k))
    decreases items, 0
  {
    var item := items[0];
    if |items| == 1 {
      ItemReads(lib, item, ']', k);
      AfterBlank(item.after, ']', k);
      hide ParseValue, ItemThen;
      LastOfItems(lib, ItemThen(item, "]" + k), ItemValue(lib, item), item.after + ("]" + k), k);
      ItemAlone(lib, item);
      assert items == [item];
    } else {
      var more := ItemsThen(items[1..], "]" + k);
      ItemReads(lib, item, ',', more);
      AfterBlank(item.after, ',', more);
      ItemsRead(lib, items[1..], k);
      hide ParseValue, ItemThen;
      R.ItemsStep(lib, ItemThen(item, "," + more), ItemValue(lib, item), item.after + ("," + more));
    }
  }

  lemma LastOfItems(lib: Library, t: string, v: Value, rest: string, k: string)
    requires ParseValue(lib, t) == Some((v, rest)) && Expect(rest, ',') == (false, "]" + k)
    ensures ParseItems(lib, t) == Some(([v], "]" + k))
  {
    hide ParseValue;
    R.ItemsStep(lib, t, v, rest);
  }

  lemma Opens(lib: Library, inner: string)
    ensures ParseValue(lib, "[" + inner) == ParseArray(lib, inner)
    ensures ParseValue(lib, "{" + inner) == ParseObject(lib, inner)
  {
    assert ("[" + inner)[1..] == inner && ("{" + inner)[1..] == inner;
    hide ParseArray, ParseObject;
  }

  lemma {:induction false} ArrayDocReads(lib: Library, items: seq<ItemDoc>, gap: string, k: string)
    requires AreItems(lib, items) && IsBlank(gap)
    ensures ParseValue(lib, DocThen(ArrayDoc(items, gap), k)) == Some((Array(ItemValues(lib, items)), k))
    decreases items, 1
  {
    var inner := if items == [] then gap + ("]" + k) else ItemsThen(items, "]" + k);
    Opens(lib, inner);
    hide ParseValue;
    if items == [] {
      AfterBlank(gap, ']', k);
    } else {
      ItemsRead(lib, items, k);
      ItemsOpen(lib, items, k);
      assert ("]" + k)[1..] == k;
      ArrayCloses(lib, inner, ItemValues(lib, items), k);
    }
  }

  lemma ArrayCloses(lib: Library, inner: string, values: seq<Value>, k: string)
    requires ParseItems(lib, inner) == Some((values, "]" + k))
    requires Expect(inner, ']') == (false, SkipWs(inner))
    ensures ParseArray(lib, inner) == Some((Array(values), k))
  {
    R.ItemsSpaceInFront(lib, inner);
    assert ("]" + k)[1..] == k;
    hide ParseItems;
  }

  lemma ItemsOpen(lib: Library, items: seq<ItemDoc>, k: string)
    requires AreItems(lib, items) && items != []
    ensures var inner := ItemsThen(items, "]" + k); Expect(inner, ']') == (false, SkipWs(inner))
  {
    var item, tail := items[0], if |items| == 1 then "]" + k else "," + ItemsThen(items[1..], "]" + k);
    assert IsItem(lib, item);
    DocStarts(lib, item.doc, item.after + tail);
    SkipBlank(item.before, DocThen(item.doc, item.after + tail));
  }

  // Objects

  lemma KeyReads(e: EntryDoc, k: string)
    requires IsBlank(e.before) && IsBlank(e.beforeColon) && ArePieces(e.key)
    ensures ParseKey(EntryThen(e, k)) == Some((PiecesBytes(e.key), ItemThen(e.item, k)))
    ensures Expect(EntryThen(e, k), '}') == (false, SkipWs(EntryThen(e, k)))
  {
    var behind := ItemThen(e.item, k);
    var colon := e.beforeColon + (":" + behind);
    hide ItemThen;
    SkipBlank(e.before, "\"" + PiecesThen(e.key, colon));
    assert ("\"" + PiecesThen(e.key, colon))[1..] == PiecesThen(e.key, colon);
    PiecesRead(e.key, colon);
    SkipBlank(e.beforeColon, ":" + behind);
    assert (":" + behind)[1..] == behind;
  }

  /** One entry of an object. */
  lemma EntryStep(lib: Library, t: string, ms: seq<Member>, key: string, afterKey: string, v: Value, rest: string)
    requires ParseKey(t) == Some((key, afterKey)) && ParseValue(lib, afterKey) == Some((v, rest))
    ensures var e := Expect(rest, ',');
            ParseMembers(lib, t, ms) == if e.0 then ParseMembers(lib, e.1, Put(ms, key, v))
                                        else Some((Put(ms, key, v), e.1))
  {
    hide ParseValue, ParseKey, Expect, Put;
  }

  lemma {:induction false} EntriesRead(lib: Library, entries: seq<EntryDoc>, ms: seq<Member>, k: string)
    requires AreEntries(lib, entries) && entries != []
    ensures ParseMembers(lib, EntriesThen(entries, "}" + k), ms) == Some((EntryValues(lib, entries, ms), "}" + k))
    decreases entries, 0
  {
    var e := entries[0];
    assert IsEntry(lib, e);
    if |entries| == 1 {
      EntryReads(lib, e, ms, '}', k);
      assert entries[1..] == [];
    } else {
      var more := EntriesThen(entries[1..], "}" + k);
      EntryReads(lib, e, ms, ',', more);
      EntriesRead(lib, entries[1..], EntryPut(lib, e, ms), k);
    }
  }

  lemma {:induction false} EntryReads(lib: Library, e: EntryDoc, ms: seq<Member>, c: char, k: string)
    requires IsEntry(lib, e) && (c == ',' || c == '}')
    ensures ParseMembers(lib, EntryThen(e, [c] + k), ms) ==
            if c == ',' then ParseMembers(lib, k, EntryPut(lib, e, ms)) else Some((EntryPut(lib, e, ms), "}" + k))
    decreases e
  {
    KeyReads(e, [c] + k);
    ItemReads(lib, e.item, c, k);
    AfterBlank(e.item.after, c, k);
    hide ParseKey, ParseValue, EntryThen, ItemThen, ParseMembers;
    EntryStep(lib, EntryThen(e, [c] + k), ms, PiecesBytes(e.key), ItemThen(e.item, [c] + k), ItemValue(lib, e.item),
              e.item.after + ([c] + k));
  }

  lemma {:induction false} ObjectDocReads(lib: Library, entries: seq<EntryDoc>, gap: string, k: string)
    requires AreEntries(lib, entries) && IsBlank(gap)
    ensures ParseValue(lib, DocThen(ObjectDoc(entries, gap), k)) == Some((Object(EntryValues(lib, entries, [])), k))
    decreases entries, 1
  {
    var inner := if entries == [] then gap + ("}" + k) else EntriesThen(entries, "}" + k);
    Opens(lib, inner);
    hide ParseValue;
    if entries == [] {
      AfterBlank(gap, '}', k);
    } else {
      EntriesRead(lib, entries, [], k);
      EntriesOpen(lib, entries, k);
      hide ParseObject, ParseMembers, EntriesThen, AreEntries, EntryValues, Expect, SkipWs;
      ObjectCloses(lib, inner, EntryValues(lib, entries, []), k);
    }
  }

  lemma EntriesOpen(lib: Library, entries: seq<EntryDoc>, k: string)
    requires AreEntries(lib, entries) && entries != []
    ensures var inner := EntriesThen(entries, "}" + k); Expect(inner, '}') == (false, SkipWs(inner))
  {
    assert IsEntry(lib, entries[0]);
    hide Expect, SkipWs, EntryThen;
    KeyReads(entries[0], if |entries| == 1 then "}" + k else "," + EntriesThen(entries[1..], "}" + k));
  }

  lemma ObjectCloses(lib: Library, inner: string, ms: seq<Member>, k: string)
    requires ParseMembers(lib, inner, []) == Some((ms, "}" + k))
    requires Expect(inner, '}') == (false, SkipWs(inner))
    ensures ParseObject(lib, inner) == Some((Object(ms), k))
  {
    R.MembersSpaceInFront(lib, inner);
    assert ("}" + k)[1..] == k;
    hide ParseMembers;
  }

  // ---------------------------------------------------------------------------------
  // And every text that is parsed has such parts
  // ---------------------------------------------------------------------------------

  /** A text is white space, the parts of a value, and a rest that does not go on with a number begun before it. */
  ghost predicate HasDoc(lib: Library, t: string, before: string, doc: Doc, v: Value, rest: string) {
    IsBlank(before) && IsDoc(lib, doc) && t == before + DocThen(doc, rest) && DocValue(lib, doc) == v &&
      MayFollow(doc, rest)
  }

  lemma {:induction false} MatchedIsPattern(t: string, pattern: string)
    requires MatchText(t, pattern).Some?
    ensures t == pattern + MatchText(t, pattern).value
    decreases |pattern|
  {
    if pattern == "" {
      assert "" + t == t;
    } else {
      MatchedIsPattern(t[1..], pattern[1..]);
      assert t == [t[0]] + t[1..] && pattern == [pattern[0]] + pattern[1..];
    }
  }

  lemma KeywordOpens(lib: Library, s: string)
    requires s != ""
    ensures s[0] == 'n' ==> ParseValue(lib, s) == Keyword(s[1..], "ull", Null)
    ensures s[0] == 't' ==> ParseValue(lib, s) == Keyword(s[1..], "rue", Boolean(true))
    ensures s[0] == 'f' ==> ParseValue(lib, s) == Keyword(s[1..], "alse", Boolean(false))
  {
    hide Keyword;
    assert s[0] == 'n' || s[0] == 't' || s[0] == 'f' ==> SkipWs(s) == s;
  }

  function WordOf(doc: Doc): string
    requires doc.NullDoc? || doc.BooleanDoc?
  {
    if doc.NullDoc? then "null" else if doc.b then "true" else "false"
  }

  lemma KeywordIsDoc(lib: Library, s: string) returns (doc: Doc)
    requires s != "" && (s[0] == 'n' || s[0] == 't' || s[0] == 'f') && ParseValue(lib, s).Some?
    ensures HasDoc(lib, s, "", doc, ParseValue(lib, s).value.0, ParseValue(lib, s).value.1)
  {
    doc := if s[0] == 'n' then NullDoc else BooleanDoc(s[0] == 't');
    var word := WordOf(doc);
    KeywordOpens(lib, s);
    hide ParseValue, HasDoc;
    assert word[0] == s[0] && word[1..] == if s[0] == 'n' then "ull" else if s[0] == 't' then "rue" else "alse";
    WordIsDoc(lib, s, doc);
  }

  lemma WordText(doc: Doc, k: string)
    requires doc.NullDoc? || doc.BooleanDoc?
    ensures DocThen(doc, k) == WordOf(doc) + k
  {
  }

  lemma WordIsDoc(lib: Library, s: string, doc: Doc)
    requires (doc.NullDoc? || doc.BooleanDoc?) && s != "" && s[0] == WordOf(doc)[0]
    requires MatchText(s[1..], WordOf(doc)[1..]).Some?
    ensures HasDoc(lib, s, "", doc, DocValue(lib, doc), MatchText(s[1..], WordOf(doc)[1..]).value)
  {
    var word := WordOf(doc);
    MatchedIsPattern(s[1..], word[1..]);
    var rest := MatchText(s[1..], word[1..]).value;
    hide MatchText, WordOf, DocThen;
    assert s == [s[0]] + s[1..] && word == [word[0]] + word[1..];
    assert s == word + rest && "" + s == s;
    WordText(doc, rest);
  }

  lemma NumberIsDoc(lib: Library, s: string) returns (doc: Doc)
    requires s != "" && ('0' <= s[0] <= '9' || s[0] == '-') && ParseValue(lib, s).Some?
    ensures HasDoc(lib, s, "", doc, ParseValue(lib, s).value.0, ParseValue(lib, s).value.1)
  {
    NumberOpens(lib, s);
    hide ParseValue;
    var text := NumberIsTaken(lib, s);
    hide TakeNumber, Localized, HasDoc;
    doc := NumberDoc(text);
    NumberHasDoc(lib, s, text, TakeNumber(lib, s).1);
  }

  lemma NumberHasDoc(lib: Library, s: string, text: string, rest: string)
    requires IsNumberText(lib, text) && s == text + rest && R.Closed(rest)
    ensures HasDoc(lib, s, "", NumberDoc(text), Number(lib.strtod(Localized(lib, text)).value), rest)
  {
    hide IsNumberText, Localized, R.Closed;
    assert "" + s == s;
  }

  lemma NumberOpens(lib: Library, s: string)
    requires s != "" && ('0' <= s[0] <= '9' || s[0] == '-')
    ensures ParseValue(lib, s) == Json.ParseNumber(lib, s) && IsNumberChar(s[0])
  {
    hide Json.ParseNumber;
    assert SkipWs(s) == s;
  }

  lemma StringIsDoc(lib: Library, s: string) returns (doc: Doc)
    requires s != "" && s[0] == '\"' && ParseValue(lib, s).Some?
    ensures HasDoc(lib, s, "", doc, ParseValue(lib, s).value.0, ParseValue(lib, s).value.1)
  {
    assert s == "\"" + s[1..] && "" + s == s;
    QuoteOpens(lib, s[1..]);
    var ps := CharsArePieces(s[1..]);
    hide ParseValue, Chars, PiecesThen, PiecesBytes, ArePieces;
    doc := StringDoc(ps);
  }

  /** White space, then a character that came as expected, or not. */
  lemma ExpectedIsThere(t: string, c: char) returns (w: string)
    ensures IsBlank(w) && t == w + SkipWs(t)
    ensures Expect(t, c).0 ==> t == w + ([c] + Expect(t, c).1)
    ensures !Expect(t, c).0 ==> t == w + Expect(t, c).1
  {
    w := SkippedIsBlank(t);
    hide SkipWs, IsBlank;
    var s := SkipWs(t);
    if s != "" { assert s == [s[0]] + s[1..]; }
  }

  lemma ValueStarts(lib: Library, t: string)
    requires ParseValue(lib, t).Some?
    ensures var s := SkipWs(t);
            && s != "" && ParseValue(lib, s) == ParseValue(lib, t)
            && (s[0] in "\"[{ntf" || '0' <= s[0] <= '9' || s[0] == '-')
  {
    var first := "\"[{ntf";
    assert first[0] == '\"' && first[1] == '[' && first[2] == '{' && first[3] == 'n' && first[4] == 't' &&
           first[5] == 'f';
    R.SkipTwice(t);
    hide ParseArray, ParseObject, Json.ParseNumber, Chars, Keyword;
  }

  lemma {:induction false} ParsedIsDoc(lib: Library, t: string) returns (before: string, doc: Doc)
    requires ParseValue(lib, t).Some?
    ensures HasDoc(lib, t, before, doc, ParseValue(lib, t).value.0, ParseValue(lib, t).value.1)
    decreases |t|, 2
  {
    before := SkippedIsBlank(t);
    var s := SkipWs(t);
    ValueStarts(lib, t);
    hide ParseValue, SkipWs, HasDoc;
    doc := UnspacedIsDoc(lib, s);
    SpaceBefore(lib, t, before, s, doc, ParseValue(lib, t).value.0, ParseValue(lib, t).value.1);
  }

  lemma {:induction false} UnspacedIsDoc(lib: Library, s: string) returns (doc: Doc)
    requires s != "" && ParseValue(lib, s).Some?
    requires s[0] in "\"[{ntf" || '0' <= s[0] <= '9' || s[0] == '-'
    ensures HasDoc(lib, s, "", doc, ParseValue(lib, s).value.0, ParseValue(lib, s).value.1)
    decreases |s|, 1
  {
    hide ParseValue, HasDoc;
    if s[0] == '\"' {
      doc := StringIsDoc(lib, s);
    } else if s[0] == '[' {
      doc := ArrayIsDoc(lib, s);
    } else if s[0] == '{' {
      doc := ObjectIsDoc(lib, s);
    } else if s[0] == 'n' || s[0] == 't' || s[0] == 'f' {
      doc := KeywordIsDoc(lib, s);
    } else {
      doc := NumberIsDoc(lib, s);
    }
  }

  lemma SpaceBefore(lib: Library, t: string, before: string, s: string, doc: Doc, v: Value, rest: string)
    requires IsBlank(before) && t == before + s && HasDoc(lib, s, "", doc, v, rest)
    ensures HasDoc(lib, t, before, doc, v, rest)
  {
    hide IsDoc, DocThen, DocValue, MayFollow;
    assert "" + DocThen(doc, rest) == DocThen(doc, rest);
  }

  lemma {:induction false} ItemsAreDocs(lib: Library, t: string) returns (items: seq<ItemDoc>)
    requires ParseItems(lib, t).Some?
    ensures items != [] && AreItems(lib, items) && t == ItemsThen(items, ParseItems(lib, t).value.1)
    ensures ItemValues(lib, items) == ParseItems(lib, t).value.0
    ensures SkipWs(ParseItems(lib, t).value.1) == ParseItems(lib, t).value.1
    decreases |t|, 3
  {
    var before, doc := ParsedIsDoc(lib, t);
    var v, behind := ParseValue(lib, t).value.0, ParseValue(lib, t).value.1;
    var e := Expect(behind, ',');
    var after := ExpectedIsThere(behind, ',');
    R.ItemsStep(lib, t, v, behind);
    var item := ItemDoc(before, doc, after);
    if e.0 {
      var more := ItemsAreDocs(lib, e.1);
      items := [item] + more;
      ItemInFront(lib, item, more, t, ParseItems(lib, t).value.1);
    } else {
      items := [item];
      R.SkipTwice(behind);
      ItemAlone(lib, item);
    }
  }

  lemma ItemAlone(lib: Library, item: ItemDoc)
    requires IsItem(lib, item)
    ensures AreItems(lib, [item]) && ItemValues(lib, [item]) == [ItemValue(lib, item)]
    ensures forall k :: ItemsThen([item], k) == ItemThen(item, k)
  {
    assert [item][1..] == [];
    assert [ItemValue(lib, item)] + [] == [ItemValue(lib, item)];
  }

  lemma ItemInFront(lib: Library, item: ItemDoc, more: seq<ItemDoc>, t: string, k: string)
    requires IsItem(lib, item) && AreItems(lib, more) && more != [] && t == ItemThen(item, "," + ItemsThen(more, k))
    ensures AreItems(lib, [item] + more) && t == ItemsThen([item] + more, k)
    ensures ItemValues(lib, [item] + more) == [ItemValue(lib, item)] + ItemValues(lib, more)
  {
    assert ([item] + more)[1..] == more;
    hide ItemThen;
  }

  lemma {:induction false} ArrayIsDoc(lib: Library, s: string) returns (doc: Doc)
    requires s != "" && s[0] == '[' && ParseValue(lib, s).Some?
    ensures HasDoc(lib, s, "", doc, ParseValue(lib, s).value.0, ParseValue(lib, s).value.1)
    decreases |s|, 0
  {
    var inner := s[1..];
    assert s == "[" + inner && "" + s == s;
    Opens(lib, inner);
    var e := Expect(inner, ']');
    var gap := ExpectedIsThere(inner, ']');
    if e.0 {
      doc := ArrayDoc([], gap);
    } else {
      R.ItemsSpaceInFront(lib, inner);
      var items := ItemsAreDocs(lib, inner);
      doc := ArrayDoc(items, "");
      var rest := ParseItems(lib, inner).value.1;
      ClosedBy(rest, ']');
    }
  }

  lemma ClosedBy(rest: string, c: char)
    requires SkipWs(rest) == rest && Expect(rest, c).0
    ensures rest == [c] + Expect(rest, c).1
  {
  }

  lemma KeyIsDoc(t: string) returns (before: string, ps: seq<Piece>, beforeColon: string)
    requires ParseKey(t).Some?
    ensures IsBlank(before) && ArePieces(ps) && IsBlank(beforeColon)
    ensures PiecesBytes(ps) == ParseKey(t).value.0
    ensures t == before + ("\"" + PiecesThen(ps, beforeColon + (":" + ParseKey(t).value.1)))
  {
    before := ExpectedIsThere(t, '\"');
    var q := Expect(t, '\"');
    ps := CharsArePieces(q.1);
    beforeColon := ExpectedIsThere(Chars(q.1).value.1, ':');
  }

  lemma {:induction false} EntriesAreDocs(lib: Library, t: string, ms: seq<Member>) returns (entries: seq<EntryDoc>)
    requires ParseMembers(lib, t, ms).Some?
    ensures entries != [] && AreEntries(lib, entries) && t == EntriesThen(entries, ParseMembers(lib, t, ms).value.1)
    ensures EntryValues(lib, entries, ms) == ParseMembers(lib, t, ms).value.0
    ensures SkipWs(ParseMembers(lib, t, ms).value.1) == ParseMembers(lib, t, ms).value.1
    decreases |t|, 4
  {
    var entry, comma, rest := EntryIsDoc(lib, t, ms);
    hide ParseMembers, EntryThen, IsEntry, EntryPut;
    if comma {
      var more := EntriesAreDocs(lib, rest, EntryPut(lib, entry, ms));
      entries := [entry] + more;
      EntryInFront(lib, entry, more, t, ParseMembers(lib, t, ms).value.1, ms);
    } else {
      entries := [entry];
      EntryAlone(lib, entry, ms);
    }
  }

  /** One entry, and what is left behind it or behind the comma that follows it. */
  lemma {:induction false} EntryIsDoc(lib: Library, t: string, ms: seq<Member>)
    returns (entry: EntryDoc, comma: bool, rest: string)
    requires ParseMembers(lib, t, ms).Some?
    ensures IsEntry(lib, entry) && t == EntryThen(entry, if comma then "," + rest else rest) && |rest| < |t|
    ensures ParseMembers(lib, t, ms) ==
            if comma then ParseMembers(lib, rest, EntryPut(lib, entry, ms)) else Some((EntryPut(lib, entry, ms), rest))
    ensures comma || SkipWs(rest) == rest
    decreases |t|, 3
  {
    var before, key, beforeColon := KeyIsDoc(t);
    var name, afterKey := ParseKey(t).value.0, ParseKey(t).value.1;
    var space, doc := ParsedIsDoc(lib, afterKey);
    var v, behind := ParseValue(lib, afterKey).value.0, ParseValue(lib, afterKey).value.1;
    var after := ExpectedIsThere(behind, ',');
    R.SkipTwice(behind);
    EntryStep(lib, t, ms, name, afterKey, v, behind);
    comma, rest := Expect(behind, ',').0, Expect(behind, ',').1;
    entry := EntryDoc(before, key, beforeColon, ItemDoc(space, doc, after));
    hide ParseMembers, ParseKey, ParseValue;
    EntryText(t, entry, afterKey, behind, if comma then "," + rest else rest);
    EntryParts(lib, entry, ms, name, v);
  }

  lemma EntryParts(lib: Library, e: EntryDoc, ms: seq<Member>, name: string, v: Value)
    requires IsBlank(e.before) && ArePieces(e.key) && IsBlank(e.beforeColon) && PiecesBytes(e.key) == name
    requires IsBlank(e.item.before) && IsBlank(e.item.after) && IsDoc(lib, e.item.doc) && DocValue(lib, e.item.doc) == v
    ensures IsEntry(lib, e) && EntryPut(lib, e, ms) == Put(ms, name, v)
  {
    hide IsDoc, IsBlank, DocValue, Put;
  }

  /** The text of one entry, put together. */
  lemma EntryText(t: string, e: EntryDoc, afterKey: string, behind: string, k: string)
    requires t == e.before + ("\"" + PiecesThen(e.key, e.beforeColon + (":" + afterKey)))
    requires afterKey == e.item.before + DocThen(e.item.doc, behind) && behind == e.item.after + k
    ensures t == EntryThen(e, k)
  {
    hide PiecesThen, DocThen;
  }

  lemma EntryAlone(lib: Library, entry: EntryDoc, ms: seq<Member>)
    requires IsEntry(lib, entry)
    ensures AreEntries(lib, [entry]) && EntryValues(lib, [entry], ms) == EntryPut(lib, entry, ms)
    ensures forall k :: EntriesThen([entry], k) == EntryThen(entry, k)
  {
    assert [entry][1..] == [];
  }

  lemma EntryInFront(lib: Library, entry: EntryDoc, more: seq<EntryDoc>, t: string, k: string, ms: seq<Member>)
    requires IsEntry(lib, entry) && AreEntries(lib, more) && more != []
    requires t == EntryThen(entry, "," + EntriesThen(more, k))
    ensures AreEntries(lib, [entry] + more) && t == EntriesThen([entry] + more, k)
    ensures EntryValues(lib, [entry] + more, ms) == EntryValues(lib, more, EntryPut(lib, entry, ms))
  {
    assert ([entry] + more)[1..] == more;
    hide EntryThen;
  }

  lemma {:induction false} ObjectIsDoc(lib: Library, s: string) returns (doc: Doc)
    requires s != "" && s[0] == '{' && ParseValue(lib, s).Some?
    ensures HasDoc(lib, s, "", doc, ParseValue(lib, s).value.0, ParseValue(lib, s).value.1)
    decreases |s|, 0
  {
    var inner := s[1..];
    assert s == "{" + inner && "" + s == s;
    Opens(lib, inner);
    var e := Expect(inner, '}');
    var gap := ExpectedIsThere(inner, '}');
    if e.0 {
      doc := ObjectDoc([], gap);
    } else {
      R.MembersSpaceInFront(lib, inner);
      var entries := EntriesAreDocs(lib, inner, []);
      doc := ObjectDoc(entries, "");
      var rest := ParseMembers(lib, inner, []).value.1;
      ClosedBy(rest, '}');
    }
  }

  // ---------------------------------------------------------------------------------
  // Main result
  // ---------------------------------------------------------------------------------

  /** For any split of a text: the parser takes the front for the value and leaves the rest if and only if the front
      consists of white space and the parts of that value, and does not end inside a number. So of two splits of one
      text at most one is taken. */
  lemma ParsesExactly(lib: Library, t: string, v: Value, rest: string)
    ensures ParseValue(lib, t) == Some((v, rest)) <==>
            exists before, doc :: HasDoc(lib, t, before, doc, v, rest)
  {
    if ParseValue(lib, t) == Some((v, rest)) {
      var before, doc := ParsedIsDoc(lib, t);
    }
    if before, doc :| HasDoc(lib, t, before, doc, v, rest) {
      DocReads(lib, doc, rest);
      SkipBlank(before, DocThen(doc, rest));
      R.SpaceInFront(lib, before, DocThen(doc, rest));
    }
  }

  // ---------------------------------------------------------------------------------
  // What the map holds
  // ---------------------------------------------------------------------------------

  lemma {:induction false} PutFinds(ms: seq<Member>, key: string, value: Value, other: string)
    requires Sorted(ms)
    ensures Find(Put(ms, key, value), other) == if other == key then Some(value) else Find(ms, other)
    ensures Sorted(Put(ms, key, value))
    ensures forall m :: m in Put(ms, key, value) ==> m in ms || m == Member(key, value)
  {
    if ms != [] {
      LessTotal(key, ms[0].key);
      if Less(key, ms[0].key) {
        PutInFront(ms, key, value, other);
      } else if ms[0].key != key {
        PutFinds(ms[1..], key, value, other);
        PutBehind(ms, key, value);
      } else {
        assert ([Member(key, value)] + ms[1..])[1..] == ms[1..];
      }
    } else {
      assert [Member(key, value)][1..] == [];
    }
  }

  lemma PutInFront(ms: seq<Member>, key: string, value: Value, other: string)
    requires Sorted(ms) && ms != [] && Less(key, ms[0].key)
    ensures Find([Member(key, value)] + ms, other) == if other == key then Some(value) else Find(ms, other)
    ensures Sorted([Member(key, value)] + ms)
  {
    assert ([Member(key, value)] + ms)[1..] == ms;
    forall i | 0 < i < |ms|
      ensures Less(key, ms[i].key)
    {
      LessTransitive(key, ms[0].key, ms[i].key);
    }
  }

  lemma PutBehind(ms: seq<Member>, key: string, value: Value)
    requires Sorted(ms) && ms != [] && Less(ms[0].key, key) && Sorted(Put(ms[1..], key, value))
    requires forall m :: m in Put(ms[1..], key, value) ==> m in ms[1..] || m == Member(key, value)
    ensures Sorted([ms[0]] + Put(ms[1..], key, value))
  {
    var rest := Put(ms[1..], key, value);
    forall i | 0 <= i < |rest|
      ensures Less(ms[0].key, rest[i].key)
    {
      assert rest[i] in rest;
    }
  }

  ghost function EntryKey(lib: Library, e: EntryDoc): string
    requires IsEntry(lib, e)
  {
    PiecesBytes(e.key)
  }

  ghost function EntryValue(lib: Library, e: EntryDoc): Value
    requires IsEntry(lib, e)
  {
    ItemValue(lib, e.item)
  }

  /** The value of an object has its keys in order, and for each key the value of the last entry with that key. */
  lemma {:induction false} LastEntryCounts(lib: Library, entries: seq<EntryDoc>, ms: seq<Member>, key: string)
    requires AreEntries(lib, entries) && Sorted(ms)
    ensures Sorted(EntryValues(lib, entries, ms))
    ensures Find(EntryValues(lib, entries, ms), key) ==
            if LastWith(lib, entries, key).Some? then LastWith(lib, entries, key) else Find(ms, key)
    decreases |entries|
  {
    if entries != [] {
      var e := entries[0];
      assert IsEntry(lib, e);
      PutFinds(ms, PiecesBytes(e.key), ItemValue(lib, e.item), key);
      LastEntryCounts(lib, entries[1..], EntryPut(lib, e, ms), key);
    }
  }

  ghost function LastWith(lib: Library, entries: seq<EntryDoc>, key: string): Option<Value>
    requires AreEntries(lib, entries)
    decreases |entries|
  {
    if entries == [] then None
    else if LastWith(lib, entries[1..], key).Some? then LastWith(lib, entries[1..], key)
    else if EntryKey(lib, entries[0]) == key then Some(EntryValue(lib, entries[0]))
    else None
  }
}
