/** The grammar of mangled names that the demangler of the logging library follows (demangle.cc), as a function from a
    place in the text to the place behind what was recognised. Alternatives are ordered: the first that succeeds is
    taken, and whatever comes later in a sequence never makes an earlier choice be taken back. */
module Mangling {
  import opened Arith

  /** Back: the rule comes upon a source name with a length below -1, at which the code moves its cursor back. No rule
      says what happens from there on. */
  datatype Pos = Fail | At(i: nat) | Back {
    predicate IsFailure() {
      !At?
    }

    function PropagateFailure(): Pos {
      this
    }

    function Extract(): nat
      requires At?
    {
      i
    }

    /** For an optional token behind `from`. */
    function Or(from: nat): nat {
      if At? then i else from
    }

    /** For an optional part behind `from`. */
    function Opt(from: nat): Pos {
      if Fail? then At(from) else this
    }
  }

  /** Every success moves forward, and not beyond the end of the text. */
  ghost predicate Ahead(t: string, i: nat, p: Pos) {
    (p.At? ==> i < p.i <= |t|) && (p.Back? ==> HasStepBack(t))
  }

  /** The same for what may be empty and cannot fail. */
  ghost predicate NotBehind(t: string, i: nat, p: Pos) {
    !p.Fail? && (p.At? ==> i <= p.i <= |t|) && (p.Back? ==> HasStepBack(t))
  }

  predicate IsDigit(c: char) {
    '0' <= c <= '9'
  }

  predicate IsLower(c: char) {
    'a' <= c <= 'z'
  }

  predicate IsAlpha(c: char) {
    'a' <= c <= 'z' || 'A' <= c <= 'Z'
  }

  // ---------------------------------------------------------------------------------
  // Tables
  // ---------------------------------------------------------------------------------

  /** kOperatorList and kBuiltinTypeList: abbreviation and name. */
  const OPERATORS: seq<(char, char, string)> := [
    ('n', 'w', "new"), ('n', 'a', "new[]"), ('d', 'l', "delete"), ('d', 'a', "delete[]"), ('p', 's', "+"),
    ('n', 'g', "-"), ('a', 'd', "&"), ('d', 'e', "*"), ('c', 'o', "~"), ('p', 'l', "+"), ('m', 'i', "-"),
    ('m', 'l', "*"), ('d', 'v', "/"), ('r', 'm', "%"), ('a', 'n', "&"), ('o', 'r', "|"), ('e', 'o', "^"),
    ('a', 'S', "="), ('p', 'L', "+="), ('m', 'I', "-="), ('m', 'L', "*="), ('d', 'V', "/="), ('r', 'M', "%=")] + [
    ('a', 'N', "&="), ('o', 'R', "|="), ('e', 'O', "^="), ('l', 's', "<<"), ('r', 's', ">>"), ('l', 'S', "<<="),
    ('r', 'S', ">>="), ('e', 'q', "=="), ('n', 'e', "!="), ('l', 't', "<"), ('g', 't', ">"), ('l', 'e', "<="),
    ('g', 'e', ">="), ('n', 't', "!"), ('a', 'a', "&&"), ('o', 'o', "||"), ('p', 'p', "++"), ('m', 'm', "--"),
    ('c', 'm', ","), ('p', 'm', "->*"), ('p', 't', "->"), ('c', 'l', "()"), ('i', 'x', "[]"), ('q', 'u', "?"),
    ('s', 't', "sizeof"), ('s', 'z', "sizeof")]

  const BUILTIN_TYPES: seq<(char, string)> := [
    ('v', "void"), ('w', "wchar_t"), ('b', "bool"), ('c', "char"), ('a', "signed char"), ('h', "unsigned char"),
    ('s', "short"), ('t', "unsigned short"), ('i', "int"), ('j', "unsigned int"), ('l', "long"), ('m', "unsigned long"),
    ('x', "long long"), ('y', "unsigned long long"), ('n', "__int128"), ('o', "unsigned __int128"), ('f', "float"),
    ('d', "double"), ('e', "long double"), ('g', "__float128"), ('z', "ellipsis")]

  /** The second letter of each entry of kSubstitutionList and its name. */
  const SUBSTITUTIONS: seq<(char, string)> := [
    ('t', ""), ('a', "allocator"), ('b', "basic_string"), ('s', "string"), ('i', "istream"), ('o', "ostream"),
    ('d', "iostream")]

  // ---------------------------------------------------------------------------------
  // Tokens
  // ---------------------------------------------------------------------------------

  function Tok(t: string, i: nat, c: char): (p: Pos)
    requires i <= |t|
    ensures Ahead(t, i, p)
  {
    if i < |t| && t[i] == c then At(i + 1) else Fail
  }

  function Tok2(t: string, i: nat, c: char, d: char): (p: Pos)
    requires i <= |t|
    ensures Ahead(t, i, p)
  {
    if i + 1 < |t| && t[i] == c && t[i + 1] == d then At(i + 2) else Fail
  }

  function OneOf(t: string, i: nat, cs: string): (p: Pos)
    requires i <= |t|
    ensures Ahead(t, i, p)
  {
    if i < |t| && t[i] in cs then At(i + 1) else Fail
  }

  /** End of the run of digits at `i`. */
  function DigitsEnd(t: string, i: nat): (end: nat)
    requires i <= |t|
    ensures i <= end <= |t|
    decreases |t| - i
  {
    if i < |t| && IsDigit(t[i]) then DigitsEnd(t, i + 1) else i
  }

  function DigitsValue(t: string, from: nat, end: nat): int
    requires from <= end <= |t|
    decreases end
  {
    if from == end then 0 else DigitsValue(t, from, end - 1) * 10 + (t[end - 1] as int - '0' as int)
  }

  const TWO31: int := 0x8000_0000

  /** The value of an int in two's complement whose exact value is x. */
  function Int32(x: int): (v: int)
    ensures 0 - TWO31 <= v < TWO31
    ensures 0 - TWO31 <= x < TWO31 ==> v == x
  {
    (x + TWO31) % TWO32 - TWO31
  }

  /** Wrapping at every step gives the same as wrapping once. */
  lemma Int32Step(a: int, c: int)
    ensures Int32(Int32(a) * 10 + c) == Int32(a * 10 + c)
    ensures Int32(0 - Int32(a)) == Int32(0 - a)
  {
    var q := (a + TWO31) / TWO32;
    DivModIdentity(a + TWO31, TWO32);
    ModAddMultiple(a * 10 + c + TWO31, 0 - 10 * q, TWO32);
    ModAddMultiple(0 - a + TWO31, q, TWO32);
  }

  /** Where a number stops and its value as the code computes it, in an int; none without a digit. */
  datatype Numeral = NoNumber | Numeral(end: nat, value: int)

  /** The number at `i` has a sign, and where its digits begin. */
  predicate Signed(t: string, i: nat) {
    i < |t| && t[i] == 'n'
  }

  function DigitsStart(t: string, i: nat): (from: nat)
    requires i <= |t|
    ensures i <= from <= |t|
  {
    if Signed(t, i) then i + 1 else i
  }

  /** The decimal value of the digits. */
  function Decimal(t: string, i: nat): int
    requires i <= |t|
  {
    DigitsValue(t, DigitsStart(t, i), DigitsEnd(t, DigitsStart(t, i)))
  }

  function NumberAt(t: string, i: nat): (n: Numeral)
    requires i <= |t|
    ensures n.Numeral? ==> i < n.end <= |t|
  {
    var end := DigitsEnd(t, DigitsStart(t, i));
    if end == DigitsStart(t, i) then NoNumber
    else Numeral(end, Int32(if Signed(t, i) then 0 - Decimal(t, i) else Decimal(t, i)))
  }

  /** A number that would move the cursor back as the length of a source name. */
  predicate StepsBack(t: string, i: nat)
    requires i <= |t|
  {
    NumberAt(t, i).Numeral? && NumberAt(t, i).value < -1
  }

  ghost predicate HasStepBack(t: string) {
    exists k :: 0 <= k <= |t| && StepsBack(t, k)
  }

  function Number(t: string, i: nat): (p: Pos)
    requires i <= |t|
    ensures Ahead(t, i, p)
  {
    var n := NumberAt(t, i);
    if n.Numeral? then At(n.end) else Fail
  }

  /** End of the run of characters from a class. */
  function RunEnd(t: string, i: nat, low: char, high: char): (end: nat)
    requires i <= |t|
    ensures i <= end <= |t|
    decreases |t| - i
  {
    if i < |t| && (IsDigit(t[i]) || low <= t[i] <= high) then RunEnd(t, i + 1, low, high) else i
  }

  function Run(t: string, i: nat, low: char, high: char): (p: Pos)
    requires i <= |t|
    ensures Ahead(t, i, p)
  {
    var end := RunEnd(t, i, low, high);
    if end > i then At(end) else Fail
  }

  // ---------------------------------------------------------------------------------
  // Names that contain no types
  // ---------------------------------------------------------------------------------

  /** source-name: a length and that many characters. */
  function SourceName(t: string, i: nat): (p: Pos)
    requires i <= |t|
    ensures Ahead(t, i, p)
  {
    var n := NumberAt(t, i);
    if n.Numeral? && n.value >= 0 && n.end + n.value <= |t| then At(n.end + n.value)
    else if StepsBack(t, i) then Back
    else Fail
  }

  function AbiTag(t: string, i: nat): (p: Pos)
    requires i <= |t|
    ensures Ahead(t, i, p)
  {
    var j :- Tok(t, i, 'B');
    SourceName(t, j)
  }

  /** More tags; a last letter B without a name is skipped too. */
  function MoreAbiTags(t: string, i: nat): (p: Pos)
    requires i <= |t|
    ensures NotBehind(t, i, p)
    decreases |t| - i
  {
    var a := AbiTag(t, i);
    if a.At? then MoreAbiTags(t, a.i) else if a.Back? then Back else At(Tok(t, i, 'B').Or(i))
  }

  function AbiTags(t: string, i: nat): (p: Pos)
    requires i <= |t|
    ensures Ahead(t, i, p)
  {
    var j :- AbiTag(t, i);
    MoreAbiTags(t, j)
  }

  function Discriminator(t: string, i: nat): (p: Pos)
    requires i <= |t|
    ensures Ahead(t, i, p)
  {
    var j :- Tok(t, i, '_');
    Number(t, j)
  }

  function LocalSourceName(t: string, i: nat): (p: Pos)
    requires i <= |t|
    ensures Ahead(t, i, p)
  {
    var j :- Tok(t, i, 'L');
    var k :- SourceName(t, j);
    At(Discriminator(t, k).Or(k))
  }

  function VOffset(t: string, i: nat): (p: Pos)
    requires i <= |t|
    ensures Ahead(t, i, p)
  {
    var j :- Number(t, i);
    var k :- Tok(t, j, '_');
    Number(t, k)
  }

  /** call-offset: h number _ or v number _ number _ */
  function CallOffset(t: string, i: nat): (p: Pos)
    requires i <= |t|
    ensures Ahead(t, i, p)
  {
    var a := NonVirtualOffset(t, i);
    if !a.Fail? then a else VirtualOffset(t, i)
  }

  function NonVirtualOffset(t: string, i: nat): (p: Pos)
    requires i <= |t|
    ensures Ahead(t, i, p)
  {
    var j :- Tok(t, i, 'h');
    var k :- Number(t, j);
    Tok(t, k, '_')
  }

  function VirtualOffset(t: string, i: nat): (p: Pos)
    requires i <= |t|
    ensures Ahead(t, i, p)
  {
    var j :- Tok(t, i, 'v');
    var k :- VOffset(t, j);
    Tok(t, k, '_')
  }

  /** CV-qualifiers: r, V and K in this order, at least one of them. */
  function CVQualifiers(t: string, i: nat): (p: Pos)
    requires i <= |t|
    ensures Ahead(t, i, p)
  {
    var j := Tok(t, i, 'r').Or(i);
    var k := Tok(t, j, 'V').Or(j);
    var l := Tok(t, k, 'K').Or(k);
    if l > i then At(l) else Fail
  }

  function CtorDtorName(t: string, i: nat): (p: Pos)
    requires i <= |t|
    ensures Ahead(t, i, p)
  {
    var a := var j :- Tok(t, i, 'C'); OneOf(t, j, "123");
    if !a.Fail? then a else
    var j :- Tok(t, i, 'D');
    OneOf(t, j, "012")
  }

  /** template-param: T_ or T number _ */
  function TemplateParam(t: string, i: nat): (p: Pos)
    requires i <= |t|
    ensures Ahead(t, i, p)
  {
    var a := Tok2(t, i, 'T', '_');
    if !a.Fail? then a else
    var j :- Tok(t, i, 'T');
    var k :- Number(t, j);
    Tok(t, k, '_')
  }

  predicate IsSubstitution(c: char) {
    exists k :: 0 <= k < |SUBSTITUTIONS| && SUBSTITUTIONS[k].0 == c
  }

  /** The letter of an abbreviated standard name. */
  function Abbreviation(t: string, i: nat): (p: Pos)
    requires i <= |t|
    ensures Ahead(t, i, p)
  {
    if i < |t| && IsSubstitution(t[i]) then At(i + 1) else Fail
  }

  /** substitution: S_ or S seq-id _ or S with an abbreviation. */
  function Substitution(t: string, i: nat): (p: Pos)
    requires i <= |t|
    ensures Ahead(t, i, p)
  {
    var a := Tok2(t, i, 'S', '_');
    if !a.Fail? then a else
    var b := var j :- Tok(t, i, 'S'); var k :- Run(t, j, 'A', 'Z'); Tok(t, k, '_');
    if !b.Fail? then b else
    var j :- Tok(t, i, 'S');
    Abbreviation(t, j)
  }

  function TemplateTemplateParam(t: string, i: nat): (p: Pos)
    requires i <= |t|
    ensures Ahead(t, i, p)
  {
    var a := TemplateParam(t, i);
    if !a.Fail? then a else Substitution(t, i)
  }

  predicate IsBuiltin(c: char) {
    exists k :: 0 <= k < |BUILTIN_TYPES| && BUILTIN_TYPES[k].0 == c
  }

  /** builtin-type: a letter, or u source-name */
  function BuiltinType(t: string, i: nat): (p: Pos)
    requires i <= |t|
    ensures Ahead(t, i, p)
  {
    if i < |t| && IsBuiltin(t[i]) then At(i + 1) else
    var j :- Tok(t, i, 'u');
    SourceName(t, j)
  }

  predicate IsOperator(c: char, d: char) {
    exists k :: 0 <= k < |OPERATORS| && OPERATORS[k].0 == c && OPERATORS[k].1 == d
  }

  function ListedOperator(t: string, i: nat): (p: Pos)
    requires i <= |t|
    ensures Ahead(t, i, p)
  {
    if i + 1 < |t| && IsOperator(t[i], t[i + 1]) then At(i + 2) else Fail
  }

  /** v digit source-name */
  function VendorOperator(t: string, i: nat): (p: Pos)
    requires i <= |t|
    ensures Ahead(t, i, p)
  {
    var j :- Tok(t, i, 'v');
    var k :- OneOf(t, j, "0123456789");
    SourceName(t, k)
  }

  // ---------------------------------------------------------------------------------
  // The recursive rules. At one place a rule only tries rules of lower rank.
  // ---------------------------------------------------------------------------------

  /** operator-name: cv type, or a vendor's, or one of the list */
  function OperatorName(t: string, i: nat): (p: Pos)
    requires i <= |t|
    ensures Ahead(t, i, p)
    decreases |t| - i, 1
  {
    if i + 2 > |t| then Fail else
    var a := CastOperator(t, i);
    if !a.Fail? then a else
    var b := VendorOperator(t, i);
    if !b.Fail? then b
    else if IsLower(t[i]) && IsAlpha(t[i + 1]) then ListedOperator(t, i)
    else Fail
  }

  function CastOperator(t: string, i: nat): (p: Pos)
    requires i <= |t|
    ensures Ahead(t, i, p)
    decreases |t| - i, 0
  {
    var j :- Tok2(t, i, 'c', 'v');
    Type(t, j)
  }

  function UnqualifiedName(t: string, i: nat): (p: Pos)
    requires i <= |t|
    ensures Ahead(t, i, p)
    decreases |t| - i, 2
  {
    var a := OperatorName(t, i);
    if !a.Fail? then a else
    var b := CtorDtorName(t, i);
    if !b.Fail? then b else
    var c := SourceName(t, i);
    var d :- (if !c.Fail? then c else LocalSourceName(t, i));
    AbiTags(t, d).Opt(d)
  }

  function UnscopedName(t: string, i: nat): (p: Pos)
    requires i <= |t|
    ensures Ahead(t, i, p)
    decreases |t| - i, 3
  {
    var a := UnqualifiedName(t, i);
    if !a.Fail? then a else
    var j :- Tok2(t, i, 'S', 't');
    UnqualifiedName(t, j)
  }

  function UnscopedTemplateName(t: string, i: nat): (p: Pos)
    requires i <= |t|
    ensures Ahead(t, i, p)
    decreases |t| - i, 4
  {
    var a := UnscopedName(t, i);
    if !a.Fail? then a else Substitution(t, i)
  }

  /** nested-name: N [CV-qualifiers] prefix E */
  function NestedName(t: string, i: nat): (p: Pos)
    requires i <= |t|
    ensures Ahead(t, i, p)
    decreases |t| - i, 0
  {
    var j :- Tok(t, i, 'N');
    var k := CVQualifiers(t, j).Or(j);
    var l :- Prefix(t, k, false);
    Tok(t, l, 'E')
  }

  /** One component of a prefix. */
  function Component(t: string, i: nat): (p: Pos)
    requires i <= |t|
    ensures Ahead(t, i, p)
    decreases |t| - i, 4
  {
    var a := TemplateParam(t, i);
    if !a.Fail? then a else
    var b := Substitution(t, i);
    if !b.Fail? then b else UnscopedName(t, i)
  }

  /** prefix: components, with template arguments behind any run of them; possibly nothing. `some` says that a component
      has been seen since the last template arguments. */
  function Prefix(t: string, i: nat, some: bool): (p: Pos)
    requires i <= |t|
    ensures NotBehind(t, i, p)
    decreases |t| - i, 5
  {
    var a := Component(t, i);
    if a.At? then Prefix(t, a.i, true)
    else if a.Back? then Back
    else
      var b := if some then TemplateArgs(t, i) else Fail;
      if b.At? then Prefix(t, b.i, false) else b.Opt(i)
  }

  /** name: nested-name, local-name, unscoped-template-name template-args, or unscoped-name */
  function Name(t: string, i: nat): (p: Pos)
    requires i <= |t|
    ensures Ahead(t, i, p)
    decreases |t| - i, 5
  {
    var a := NestedName(t, i);
    if !a.Fail? then a else
    var b := LocalName(t, i);
    if !b.Fail? then b else
    var c := var j :- UnscopedTemplateName(t, i); TemplateArgs(t, j);
    if !c.Fail? then c else UnscopedName(t, i)
  }

  /** encoding: name bare-function-type, name, or special-name */
  function Encoding(t: string, i: nat): (p: Pos)
    requires i <= |t|
    ensures Ahead(t, i, p)
    decreases |t| - i, 6
  {
    var a := var j :- Name(t, i); BareFunctionType(t, j);
    if !a.Fail? then a else
    var b := Name(t, i);
    if !b.Fail? then b else SpecialName(t, i)
  }

  /** mangled-name: _Z encoding */
  function MangledName(t: string, i: nat): (p: Pos)
    requires i <= |t|
    ensures Ahead(t, i, p)
    decreases |t| - i, 0
  {
    var j :- Tok2(t, i, '_', 'Z');
    Encoding(t, j)
  }

  /** special-name: virtual tables, thunks, guards and the like */
  function SpecialName(t: string, i: nat): (p: Pos)
    requires i <= |t|
    ensures Ahead(t, i, p)
    decreases |t| - i, 1
  {
    var a := SpecialData(t, i);
    if !a.Fail? then a else
    var b := CovariantThunk(t, i);
    if !b.Fail? then b else
    var c := Thunk(t, i);
    if !c.Fail? then c else
    var d := ConstructionTable(t, i);
    if !d.Fail? then d else
    var e := SpecialExtension(t, i);
    if !e.Fail? then e else NamedThunk(t, i)
  }

  function SpecialData(t: string, i: nat): (p: Pos)
    requires i <= |t|
    ensures Ahead(t, i, p)
    decreases |t| - i, 0
  {
    var j :- Tok(t, i, 'T');
    var k :- OneOf(t, j, "VTIS");
    Type(t, k)
  }

  function CovariantThunk(t: string, i: nat): (p: Pos)
    requires i <= |t|
    ensures Ahead(t, i, p)
    decreases |t| - i, 0
  {
    var j :- Tok2(t, i, 'T', 'c');
    var k :- CallOffset(t, j);
    var l :- CallOffset(t, k);
    Encoding(t, l)
  }

  function Thunk(t: string, i: nat): (p: Pos)
    requires i <= |t|
    ensures Ahead(t, i, p)
    decreases |t| - i, 0
  {
    var a := var j :- Tok2(t, i, 'G', 'V'); Name(t, j);
    if !a.Fail? then a else
    var j :- Tok(t, i, 'T');
    var k :- CallOffset(t, j);
    Encoding(t, k)
  }

  function ConstructionTable(t: string, i: nat): (p: Pos)
    requires i <= |t|
    ensures Ahead(t, i, p)
    decreases |t| - i, 0
  {
    var j :- Tok2(t, i, 'T', 'C');
    var k :- Type(t, j);
    var l :- Number(t, k);
    var m :- Tok(t, l, '_');
    Type(t, m)
  }

  function SpecialExtension(t: string, i: nat): (p: Pos)
    requires i <= |t|
    ensures Ahead(t, i, p)
    decreases |t| - i, 0
  {
    var a := var j :- Tok(t, i, 'T'); var k :- OneOf(t, j, "FJ"); Type(t, k);
    if !a.Fail? then a else
    var j :- Tok2(t, i, 'G', 'R');
    Name(t, j)
  }

  function NamedThunk(t: string, i: nat): (p: Pos)
    requires i <= |t|
    ensures Ahead(t, i, p)
    decreases |t| - i, 0
  {
    var a := var j :- Tok2(t, i, 'G', 'A'); Encoding(t, j);
    if !a.Fail? then a else
    var j :- Tok(t, i, 'T');
    var k :- OneOf(t, j, "hv");
    var l :- CallOffset(t, k);
    Encoding(t, l)
  }

  /** type */
  function Type(t: string, i: nat): (p: Pos)
    requires i <= |t|
    ensures Ahead(t, i, p)
    decreases |t| - i, 8
  {
    var a := QualifiedType(t, i);
    if !a.Fail? then a else
    var b := ExtendedType(t, i);
    if !b.Fail? then b else
    var c := PlainType(t, i);
    if !c.Fail? then c else
    var d := var j :- TemplateTemplateParam(t, i); TemplateArgs(t, j);
    if !d.Fail? then d else TemplateParam(t, i)
  }

  /** CV-qualifiers type, or one of O P R C G and a type, or Dp type */
  function QualifiedType(t: string, i: nat): (p: Pos)
    requires i <= |t|
    ensures Ahead(t, i, p)
    decreases |t| - i, 1
  {
    var a := CVQualifiedType(t, i);
    if !a.Fail? then a else
    var b := ReferenceType(t, i);
    if !b.Fail? then b else PackExpansion(t, i)
  }

  function CVQualifiedType(t: string, i: nat): (p: Pos)
    requires i <= |t|
    ensures Ahead(t, i, p)
    decreases |t| - i, 0
  {
    var j :- CVQualifiers(t, i);
    Type(t, j)
  }

  function ReferenceType(t: string, i: nat): (p: Pos)
    requires i <= |t|
    ensures Ahead(t, i, p)
    decreases |t| - i, 0
  {
    var j :- OneOf(t, i, "OPRCG");
    Type(t, j)
  }

  function PackExpansion(t: string, i: nat): (p: Pos)
    requires i <= |t|
    ensures Ahead(t, i, p)
    decreases |t| - i, 0
  {
    var j :- Tok2(t, i, 'D', 'p');
    Type(t, j)
  }

  function ExtendedType(t: string, i: nat): (p: Pos)
    requires i <= |t|
    ensures Ahead(t, i, p)
    decreases |t| - i, 1
  {
    var a := Decltype(t, i);
    if !a.Fail? then a else VendorType(t, i)
  }

  /** Dt expression E, or DT expression E */
  function Decltype(t: string, i: nat): (p: Pos)
    requires i <= |t|
    ensures Ahead(t, i, p)
    decreases |t| - i, 0
  {
    var j :- Tok(t, i, 'D');
    var k :- OneOf(t, j, "tT");
    var l :- Expression(t, k);
    Tok(t, l, 'E')
  }

  /** U source-name type */
  function VendorType(t: string, i: nat): (p: Pos)
    requires i <= |t|
    ensures Ahead(t, i, p)
    decreases |t| - i, 0
  {
    var j :- Tok(t, i, 'U');
    var k :- SourceName(t, j);
    Type(t, k)
  }

  function PlainType(t: string, i: nat): (p: Pos)
    requires i <= |t|
    ensures Ahead(t, i, p)
    decreases |t| - i, 7
  {
    var a := BuiltinType(t, i);
    if !a.Fail? then a else
    var b := FunctionType(t, i);
    if !b.Fail? then b else
    var c := Name(t, i);
    if !c.Fail? then c else
    var d := ArrayType(t, i);
    if !d.Fail? then d else
    var e := PointerToMemberType(t, i);
    if !e.Fail? then e else Substitution(t, i)
  }

  /** function-type: F [Y] bare-function-type E */
  function FunctionType(t: string, i: nat): (p: Pos)
    requires i <= |t|
    ensures Ahead(t, i, p)
    decreases |t| - i, 0
  {
    var j :- Tok(t, i, 'F');
    var k := Tok(t, j, 'Y').Or(j);
    var l :- BareFunctionType(t, k);
    Tok(t, l, 'E')
  }

  /** bare-function-type: one type or more */
  function BareFunctionType(t: string, i: nat): (p: Pos)
    requires i <= |t|
    ensures Ahead(t, i, p)
    decreases |t| - i, 9
  {
    var j :- Type(t, i);
    MoreTypes(t, j)
  }

  function MoreTypes(t: string, i: nat): (p: Pos)
    requires i <= |t|
    ensures NotBehind(t, i, p)
    decreases |t| - i, 9
  {
    var a := Type(t, i);
    if a.At? then MoreTypes(t, a.i) else a.Opt(i)
  }

  /** array-type: A number _ type, or A [expression] _ type */
  function ArrayType(t: string, i: nat): (p: Pos)
    requires i <= |t|
    ensures Ahead(t, i, p)
    decreases |t| - i, 1
  {
    var a := NumberedArray(t, i);
    if !a.Fail? then a else DependentArray(t, i)
  }

  function NumberedArray(t: string, i: nat): (p: Pos)
    requires i <= |t|
    ensures Ahead(t, i, p)
    decreases |t| - i, 0
  {
    var j :- Tok(t, i, 'A');
    var k :- Number(t, j);
    var l :- Tok(t, k, '_');
    Type(t, l)
  }

  function DependentArray(t: string, i: nat): (p: Pos)
    requires i <= |t|
    ensures Ahead(t, i, p)
    decreases |t| - i, 0
  {
    var j :- Tok(t, i, 'A');
    var k :- Expression(t, j).Opt(j);
    var l :- Tok(t, k, '_');
    Type(t, l)
  }

  /** pointer-to-member-type: M type type */
  function PointerToMemberType(t: string, i: nat): (p: Pos)
    requires i <= |t|
    ensures Ahead(t, i, p)
    decreases |t| - i, 0
  {
    var j :- Tok(t, i, 'M');
    var k :- Type(t, j);
    Type(t, k)
  }

  /** template-args: I, one template-arg or more, E */
  function TemplateArgs(t: string, i: nat): (p: Pos)
    requires i <= |t|
    ensures Ahead(t, i, p)
    decreases |t| - i, 0
  {
    var j :- Tok(t, i, 'I');
    var k :- TemplateArgList(t, j);
    Tok(t, k, 'E')
  }

  function TemplateArgList(t: string, i: nat): (p: Pos)
    requires i <= |t|
    ensures Ahead(t, i, p)
    decreases |t| - i, 10
  {
    var j :- TemplateArg(t, i);
    MoreTemplateArgs(t, j)
  }

  function MoreTemplateArgs(t: string, i: nat): (p: Pos)
    requires i <= |t|
    ensures NotBehind(t, i, p)
    decreases |t| - i, 10
  {
    var a := TemplateArg(t, i);
    if a.At? then MoreTemplateArgs(t, a.i) else a.Opt(i)
  }

  /** template-arg: a pack between I or J and E, a type, an expr-primary, or X expression E */
  function TemplateArg(t: string, i: nat): (p: Pos)
    requires i <= |t|
    ensures Ahead(t, i, p)
    decreases |t| - i, 9
  {
    var a := ArgumentPack(t, i);
    if !a.Fail? then a else
    var b := Type(t, i);
    if !b.Fail? then b else
    var c := ExprPrimary(t, i);
    if !c.Fail? then c else BracketedExpression(t, i)
  }

  function ArgumentPack(t: string, i: nat): (p: Pos)
    requires i <= |t|
    ensures Ahead(t, i, p)
    decreases |t| - i, 0
  {
    var j :- OneOf(t, i, "IJ");
    var k :- MoreTemplateArgs(t, j);
    Tok(t, k, 'E')
  }

  function BracketedExpression(t: string, i: nat): (p: Pos)
    requires i <= |t|
    ensures Ahead(t, i, p)
    decreases |t| - i, 0
  {
    var j :- Tok(t, i, 'X');
    var k :- Expression(t, j);
    Tok(t, k, 'E')
  }

  function Expression(t: string, i: nat): (p: Pos)
    requires i <= |t|
    ensures Ahead(t, i, p)
    decreases |t| - i, 4
  {
    var a := TemplateParam(t, i);
    if !a.Fail? then a else
    var b := ExprPrimary(t, i);
    if !b.Fail? then b else
    var c := Operation(t, i);
    if !c.Fail? then c else TypeExpression(t, i)
  }

  /** An operator with three expressions, or two, or one. */
  function Operation(t: string, i: nat): (p: Pos)
    requires i <= |t|
    ensures Ahead(t, i, p)
    decreases |t| - i, 3
  {
    var a := Trinary(t, i);
    if !a.Fail? then a else
    var b := Binary(t, i);
    if !b.Fail? then b else Unary(t, i)
  }

  function Trinary(t: string, i: nat): (p: Pos)
    requires i <= |t|
    ensures Ahead(t, i, p)
    decreases |t| - i, 2
  {
    var j :- OperatorName(t, i);
    var k :- Expression(t, j);
    var l :- Expression(t, k);
    Expression(t, l)
  }

  function Binary(t: string, i: nat): (p: Pos)
    requires i <= |t|
    ensures Ahead(t, i, p)
    decreases |t| - i, 2
  {
    var j :- OperatorName(t, i);
    var k :- Expression(t, j);
    Expression(t, k)
  }

  function Unary(t: string, i: nat): (p: Pos)
    requires i <= |t|
    ensures Ahead(t, i, p)
    decreases |t| - i, 2
  {
    var j :- OperatorName(t, i);
    Expression(t, j)
  }

  /** st type, sr type unqualified-name template-args, or sr type unqualified-name */
  function TypeExpression(t: string, i: nat): (p: Pos)
    requires i <= |t|
    ensures Ahead(t, i, p)
    decreases |t| - i, 1
  {
    var a := SizeofType(t, i);
    if !a.Fail? then a else
    var b := ScopedTemplate(t, i);
    if !b.Fail? then b else ScopedName(t, i)
  }

  function SizeofType(t: string, i: nat): (p: Pos)
    requires i <= |t|
    ensures Ahead(t, i, p)
    decreases |t| - i, 0
  {
    var j :- Tok2(t, i, 's', 't');
    Type(t, j)
  }

  function ScopedTemplate(t: string, i: nat): (p: Pos)
    requires i <= |t|
    ensures Ahead(t, i, p)
    decreases |t| - i, 0
  {
    var j :- Tok2(t, i, 's', 'r');
    var k :- Type(t, j);
    var l :- UnqualifiedName(t, k);
    TemplateArgs(t, l)
  }

  function ScopedName(t: string, i: nat): (p: Pos)
    requires i <= |t|
    ensures Ahead(t, i, p)
    decreases |t| - i, 0
  {
    var j :- Tok2(t, i, 's', 'r');
    var k :- Type(t, j);
    UnqualifiedName(t, k)
  }

  /** L type number E, L type float E, L mangled-name E, or LZ encoding E */
  function ExprPrimary(t: string, i: nat): (p: Pos)
    requires i <= |t|
    ensures Ahead(t, i, p)
    decreases |t| - i, 1
  {
    var a := IntegerLiteral(t, i);
    if !a.Fail? then a else
    var b := FloatLiteral(t, i);
    if !b.Fail? then b else
    var c := ExternalLiteral(t, i);
    if !c.Fail? then c else OldLiteral(t, i)
  }

  function IntegerLiteral(t: string, i: nat): (p: Pos)
    requires i <= |t|
    ensures Ahead(t, i, p)
    decreases |t| - i, 0
  {
    var j :- Tok(t, i, 'L');
    var k :- Type(t, j);
    var l :- Number(t, k);
    Tok(t, l, 'E')
  }

  function FloatLiteral(t: string, i: nat): (p: Pos)
    requires i <= |t|
    ensures Ahead(t, i, p)
    decreases |t| - i, 0
  {
    var j :- Tok(t, i, 'L');
    var k :- Type(t, j);
    var l :- Run(t, k, 'a', 'f');
    Tok(t, l, 'E')
  }

  function ExternalLiteral(t: string, i: nat): (p: Pos)
    requires i <= |t|
    ensures Ahead(t, i, p)
    decreases |t| - i, 0
  {
    var j :- Tok(t, i, 'L');
    var k :- MangledName(t, j);
    Tok(t, k, 'E')
  }

  function OldLiteral(t: string, i: nat): (p: Pos)
    requires i <= |t|
    ensures Ahead(t, i, p)
    decreases |t| - i, 0
  {
    var j :- Tok2(t, i, 'L', 'Z');
    var k :- Encoding(t, j);
    Tok(t, k, 'E')
  }

  /** local-name: Z encoding E name [discriminator], or Z encoding Es [discriminator] */
  function LocalName(t: string, i: nat): (p: Pos)
    requires i <= |t|
    ensures Ahead(t, i, p)
    decreases |t| - i, 1
  {
    var a := LocalEntity(t, i);
    if !a.Fail? then a else LocalString(t, i)
  }

  function LocalEntity(t: string, i: nat): (p: Pos)
    requires i <= |t|
    ensures Ahead(t, i, p)
    decreases |t| - i, 0
  {
    var j :- Tok(t, i, 'Z');
    var k :- Encoding(t, j);
    var l :- Tok(t, k, 'E');
    var m :- Name(t, l);
    At(Discriminator(t, m).Or(m))
  }

  function LocalString(t: string, i: nat): (p: Pos)
    requires i <= |t|
    ensures Ahead(t, i, p)
    decreases |t| - i, 0
  {
    var j :- Tok(t, i, 'Z');
    var k :- Encoding(t, j);
    var l :- Tok2(t, k, 'E', 's');
    At(Discriminator(t, l).Or(l))
  }

  // ---------------------------------------------------------------------------------
  // Going back repeats work but finds nothing else
  // ---------------------------------------------------------------------------------

  /** Alternatives with a common beginning, read in one pass. */
  function OperationOnce(t: string, i: nat): Pos
    requires i <= |t|
  {
    var j :- OperatorName(t, i);
    var k :- Expression(t, j);
    var l := Expression(t, k);
    if l.At? then Expression(t, l.i).Opt(l.i) else l.Opt(k)
  }

  function ScopedOnce(t: string, i: nat): Pos
    requires i <= |t|
  {
    var j :- Tok2(t, i, 's', 'r');
    var k :- Type(t, j);
    var l :- UnqualifiedName(t, k);
    TemplateArgs(t, l).Opt(l)
  }

  function EncodingOnce(t: string, i: nat): Pos
    requires i <= |t|
  {
    var n := Name(t, i);
    if n.At? then BareFunctionType(t, n.i).Opt(n.i) else if n.Back? then Back else SpecialName(t, i)
  }

  function LocalNameOnce(t: string, i: nat): Pos
    requires i <= |t|
  {
    var j :- Tok(t, i, 'Z');
    var k :- Encoding(t, j);
    var a := var l :- Tok(t, k, 'E'); var m :- Name(t, l); At(Discriminator(t, m).Or(m));
    if !a.Fail? then a else
    var l :- Tok2(t, k, 'E', 's');
    At(Discriminator(t, l).Or(l))
  }

  /** The code reads a common beginning again for every alternative, an operator once for each number of operands;
      reading it once gives the same. */
  lemma OnePassForExpressions(t: string, i: nat)
    requires i <= |t|
    ensures Operation(t, i) == OperationOnce(t, i)
    ensures TypeExpression(t, i) == (if !SizeofType(t, i).Fail? then SizeofType(t, i) else ScopedOnce(t, i))
  {
  }

  lemma OnePassForNames(t: string, i: nat)
    requires i <= |t|
    ensures Encoding(t, i) == EncodingOnce(t, i)
    ensures LocalName(t, i) == LocalNameOnce(t, i)
  {
  }

  // ---------------------------------------------------------------------------------
  // The whole name
  // ---------------------------------------------------------------------------------

  function AlphaEnd(t: string, i: nat): (end: nat)
    requires i <= |t|
    ensures i <= end <= |t|
    decreases |t| - i
  {
    if i < |t| && IsAlpha(t[i]) then AlphaEnd(t, i + 1) else i
  }

  /** A dot and a letter or more, a dot and a digit or more, any number of times. */
  predicate CloneSuffix(t: string, i: nat)
    requires i <= |t|
    decreases |t| - i
  {
    if i == |t| then true
    else if t[i] != '.' then false
    else
      var j := AlphaEnd(t, i + 1);
      j > i + 1 && j < |t| && t[j] == '.' && DigitsEnd(t, j + 1) > j + 1 && CloneSuffix(t, DigitsEnd(t, j + 1))
  }

  /** A mangled name with nothing, a clone suffix or a version suffix behind it. */
  predicate IsMangled(t: string) {
    var p := MangledName(t, 0);
    p.At? && (CloneSuffix(t, p.i) || (p.i < |t| && t[p.i] == '@'))
  }
}
