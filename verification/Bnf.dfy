/** The grammar of mangled names as the comments of demangle.cc write it down, and the words it has: alternatives
    without an order, and no rule about which part of the text an alternative has to take. The code lets more pass than
    the comments say; the alternatives for that are kept apart. A word is a written word if none of those is needed. */
module Bnf {
  import M = Mangling

  datatype Rule =
    | MangledName | Encoding | Name | UnscopedName | UnscopedTemplateName | NestedName | NestedBody | Prefix
    | TemplatePrefix | UnqualifiedName | LocalSourceName | AbiTags | AbiTag | OperatorName | SpecialName | CallOffset
    | CtorDtorName | Type | PlainType | CVQualifiers | BuiltinType | FunctionType | BareFunctionType | ArrayType
    | PointerToMemberType | TemplateParam | TemplateTemplateParam | TemplateArgs | TemplateArgList | TemplateArg
    | Expression | OperatorFor(n: nat) | ExprPrimary | LocalName | Discriminator | Substitution

  /** The terminal parts: a character, one of several, digits, a number, a name behind its length, a run of hexadecimal
      digits or of digits and capitals, an operator of the table, one that takes n operands, and the letters of the
      other two tables; then rules, and parts that may be missing. */
  datatype Symbol =
    | Char(c: char)
    | Among(cs: string)
    | Digits
    | Number
    | SourceName
    | Hex
    | SeqId
    | Operator
    | Taking(n: nat)
    | BuiltinLetter
    | Abbreviation
    | Sub(rule: Rule)
    | Maybe(s: Symbol)

  /** How many operands the C++ operator behind an entry of kOperatorList takes. The comments speak of unary, binary and
      trinary operators and leave it at that. */
  function Operands(c: char, d: char): nat {
    if (c, d) == ('q', 'u') then 3
    else if (c, d) in {('n', 'w'), ('n', 'a'), ('d', 'l'), ('d', 'a'), ('p', 's'), ('n', 'g'), ('a', 'd'), ('d', 'e'),
                       ('c', 'o'), ('n', 't'), ('p', 'p'), ('m', 'm'), ('s', 't'), ('s', 'z')} then 1
    else 2
  }

  /** The digit of a vendor's operator says how many operands it takes. */
  function DigitFor(n: nat): char {
    if n == 1 then '1' else if n == 2 then '2' else '3'
  }

  /** The right-hand sides of a rule in the comments. */
  predicate IsAlternative(r: Rule, ss: seq<Symbol>) {
    match r
    case MangledName =>
      ss == [Char('_'), Char('Z'), Sub(Encoding)]
    case Encoding =>
      || ss == [Sub(Name), Sub(BareFunctionType)]
      || ss == [Sub(Name)]
      || ss == [Sub(SpecialName)]
    case Name =>
      || ss == [Sub(NestedName)]
      || ss == [Sub(UnscopedTemplateName), Sub(TemplateArgs)]
      || ss == [Sub(UnscopedName)]
      || ss == [Sub(LocalName)]
    case UnscopedName =>
      || ss == [Sub(UnqualifiedName)]
      || ss == [Char('S'), Char('t'), Sub(UnqualifiedName)]
    case UnscopedTemplateName =>
      || ss == [Sub(UnscopedName)]
      || ss == [Sub(Substitution)]
    case NestedName =>
      ss == [Char('N'), Maybe(Sub(CVQualifiers)), Sub(NestedBody), Char('E')]
    case NestedBody =>
      || ss == [Sub(Prefix), Sub(UnqualifiedName)]
      || ss == [Sub(TemplatePrefix), Sub(TemplateArgs)]
    case Prefix =>
      || ss == [Sub(Prefix), Sub(UnqualifiedName)]
      || ss == [Sub(TemplatePrefix), Sub(TemplateArgs)]
      || ss == [Sub(TemplateParam)]
      || ss == [Sub(Substitution)]
      || ss == []
    case TemplatePrefix =>
      || ss == [Sub(Prefix), Sub(UnqualifiedName)]
      || ss == [Sub(TemplateParam)]
      || ss == [Sub(Substitution)]
    case UnqualifiedName =>
      || ss == [Sub(OperatorName)]
      || ss == [Sub(CtorDtorName)]
      || ss == [SourceName, Maybe(Sub(AbiTags))]
      || ss == [Sub(LocalSourceName), Maybe(Sub(AbiTags))]
    case LocalSourceName =>
      ss == [Char('L'), SourceName, Maybe(Sub(Discriminator))]
    case AbiTags =>
      || ss == [Sub(AbiTag)]
      || ss == [Sub(AbiTag), Sub(AbiTags)]
    case AbiTag =>
      ss == [Char('B'), SourceName]
    case OperatorName =>
      || ss == [Operator]
      || ss == [Char('c'), Char('v'), Sub(Type)]
      || ss == [Char('v'), Among("0123456789"), SourceName]
    case SpecialName =>
      || ss == [Char('T'), Among("VTIS"), Sub(Type)]
      || ss == [Char('T'), Char('c'), Sub(CallOffset), Sub(CallOffset), Sub(Encoding)]
      || ss == [Char('G'), Char('V'), Sub(Name)]
      || ss == [Char('T'), Sub(CallOffset), Sub(Encoding)]
      || ss == [Char('T'), Char('C'), Sub(Type), Number, Char('_'), Sub(Type)]
      || ss == [Char('T'), Among("FJ"), Sub(Type)]
      || ss == [Char('G'), Char('R'), Sub(Name)]
      || ss == [Char('G'), Char('A'), Sub(Encoding)]
      || ss == [Char('T'), Among("hv"), Sub(CallOffset), Sub(Encoding)]
    case CallOffset =>
      || ss == [Char('h'), Number, Char('_')]
      || ss == [Char('v'), Number, Char('_'), Number, Char('_')]
    case CtorDtorName =>
      || ss == [Char('C'), Among("123")]
      || ss == [Char('D'), Among("012")]
    case Type =>
      || ss == [Sub(CVQualifiers), Sub(Type)]
      || ss == [Among("OPRCG"), Sub(Type)]
      || ss == [Char('U'), SourceName, Sub(Type)]
      || ss == [Sub(PlainType)]
      || ss == [Sub(TemplateTemplateParam), Sub(TemplateArgs)]
      || ss == [Sub(TemplateParam)]
      || ss == [Char('D'), Char('p'), Sub(Type)]
      || ss == [Char('D'), Among("tT"), Sub(Expression), Char('E')]
    case PlainType =>
      || ss == [Sub(BuiltinType)]
      || ss == [Sub(FunctionType)]
      || ss == [Sub(Name)]
      || ss == [Sub(ArrayType)]
      || ss == [Sub(PointerToMemberType)]
      || ss == [Sub(Substitution)]
    case CVQualifiers =>
      || ss == [Char('r')]
      || ss == [Char('V')]
      || ss == [Char('K')]
      || ss == [Char('r'), Char('V')]
      || ss == [Char('r'), Char('K')]
      || ss == [Char('V'), Char('K')]
      || ss == [Char('r'), Char('V'), Char('K')]
    case BuiltinType =>
      || ss == [BuiltinLetter]
      || ss == [Char('u'), SourceName]
    case FunctionType =>
      ss == [Char('F'), Maybe(Char('Y')), Sub(BareFunctionType), Char('E')]
    case BareFunctionType =>
      || ss == [Sub(Type)]
      || ss == [Sub(Type), Sub(BareFunctionType)]
    case ArrayType =>
      || ss == [Char('A'), Number, Char('_'), Sub(Type)]
      || ss == [Char('A'), Maybe(Sub(Expression)), Char('_'), Sub(Type)]
    case PointerToMemberType =>
      ss == [Char('M'), Sub(Type), Sub(Type)]
    case TemplateParam =>
      || ss == [Char('T'), Char('_')]
      || ss == [Char('T'), Digits, Char('_')]
    case TemplateTemplateParam =>
      || ss == [Sub(TemplateParam)]
      || ss == [Sub(Substitution)]
    case TemplateArgs =>
      ss == [Char('I'), Sub(TemplateArgList), Char('E')]
    case TemplateArgList =>
      || ss == [Sub(TemplateArg)]
      || ss == [Sub(TemplateArg), Sub(TemplateArgList)]
    case TemplateArg =>
      || ss == [Sub(Type)]
      || ss == [Sub(ExprPrimary)]
      || ss == [Among("IJ"), Maybe(Sub(TemplateArgList)), Char('E')]
      || ss == [Char('X'), Sub(Expression), Char('E')]
    case Expression =>
      || ss == [Sub(TemplateParam)]
      || ss == [Sub(ExprPrimary)]
      || ss == [Sub(OperatorFor(1)), Sub(Expression)]
      || ss == [Sub(OperatorFor(2)), Sub(Expression), Sub(Expression)]
      || ss == [Sub(OperatorFor(3)), Sub(Expression), Sub(Expression), Sub(Expression)]
      || ss == [Char('s'), Char('t'), Sub(Type)]
      || ss == [Char('s'), Char('r'), Sub(Type), Sub(UnqualifiedName), Sub(TemplateArgs)]
      || ss == [Char('s'), Char('r'), Sub(Type), Sub(UnqualifiedName)]
    case OperatorFor(n) =>
      || ss == [Taking(n)]
      || (n == 1 && ss == [Char('c'), Char('v'), Sub(Type)])
      || ss == [Char('v'), Char(DigitFor(n)), SourceName]
    case ExprPrimary =>
      || ss == [Char('L'), Sub(Type), Number, Char('E')]
      || ss == [Char('L'), Sub(Type), Hex, Char('E')]
      || ss == [Char('L'), Sub(MangledName), Char('E')]
      || ss == [Char('L'), Char('Z'), Sub(Encoding), Char('E')]
    case LocalName =>
      || ss == [Char('Z'), Sub(Encoding), Char('E'), Sub(Name), Maybe(Sub(Discriminator))]
      || ss == [Char('Z'), Sub(Encoding), Char('E'), Char('s'), Maybe(Sub(Discriminator))]
    case Discriminator =>
      ss == [Char('_'), Number]
    case Substitution =>
      || ss == [Char('S'), Char('_')]
      || ss == [Char('S'), SeqId, Char('_')]
      || ss == [Char('S'), Abbreviation]
  }

  /** What the code takes besides: a nested name without components or ending in a parameter or a substitution, one of
      these or a St behind other components, a letter B without a name behind the last tag, a negative number of a
      parameter, and operators with any number of operands from one to three. */
  predicate IsMarked(r: Rule, ss: seq<Symbol>) {
    match r
    case NestedBody =>
      ss == [Sub(Prefix)]
    case Prefix => IsMarkedComponent(ss)
    case TemplatePrefix => IsMarkedComponent(ss)
    case AbiTags =>
      ss == [Sub(AbiTag), Char('B')]
    case TemplateParam =>
      ss == [Char('T'), Number, Char('_')]
    case Expression =>
      || ss == [Sub(OperatorName), Sub(Expression)]
      || ss == [Sub(OperatorName), Sub(Expression), Sub(Expression)]
      || ss == [Sub(OperatorName), Sub(Expression), Sub(Expression), Sub(Expression)]
    case _ => false
  }

  predicate IsMarkedComponent(ss: seq<Symbol>) {
    || ss == [Sub(Prefix), Sub(TemplateParam)]
    || ss == [Sub(Prefix), Sub(Substitution)]
    || ss == [Sub(Prefix), Char('S'), Char('t'), Sub(UnqualifiedName)]
  }

  predicate MayUse(written: bool, r: Rule, ss: seq<Symbol>) {
    IsAlternative(r, ss) || (!written && IsMarked(r, ss))
  }

  // ---------------------------------------------------------------------------------
  // Words
  // ---------------------------------------------------------------------------------

  ghost predicate IsDigits(t: string, from: nat, j: nat) {
    from < j <= |t| && forall k :: from <= k < j ==> M.IsDigit(t[k])
  }

  /** An n or nothing, then digits. */
  ghost predicate IsNumber(t: string, i: nat, j: nat) {
    i <= |t| && IsDigits(t, M.DigitsStart(t, i), j)
  }

  /** A positive length and so many characters. */
  ghost predicate HasLength(t: string, i: nat, m: nat, j: nat) {
    j <= |t| && IsDigits(t, i, m) && M.DigitsValue(t, i, m) > 0 && m + M.DigitsValue(t, i, m) == j
  }

  /** What the code takes for a length besides: zero, also with an n in front, and what a number beyond the range of an
      int becomes. */
  ghost predicate HasIntLength(t: string, i: nat, m: nat, j: nat) {
    && j <= |t| && IsNumber(t, i, m)
    && var d := M.DigitsValue(t, M.DigitsStart(t, i), m);
       m + M.Int32(if M.Signed(t, i) then 0 - d else d) == j
  }

  ghost predicate IsSourceName(t: string, written: bool, i: nat, j: nat) {
    exists m: nat :: HasLength(t, i, m, j) || (!written && m <= j && HasIntLength(t, i, m, j))
  }

  ghost predicate IsRun(t: string, i: nat, j: nat, low: char, high: char) {
    i < j <= |t| && forall k :: i <= k < j ==> M.IsDigit(t[k]) || low <= t[k] <= high
  }

  /** An operator of the table, which all begin with a small letter. */
  ghost predicate IsOperatorAt(t: string, i: nat) {
    i + 1 < |t| && M.IsLower(t[i]) && M.IsOperator(t[i], t[i + 1])
  }

  /** Characters [i, j) of the text are a word of a symbol, of a sequence of symbols, of a rule. */
  least predicate IsSymbol[nat](t: string, written: bool, s: Symbol, i: nat, j: nat) {
    match s
    case Char(c) => i < |t| && t[i] == c && j == i + 1
    case Among(cs) => i < |t| && t[i] in cs && j == i + 1
    case Digits => IsDigits(t, i, j)
    case Number => IsNumber(t, i, j)
    case SourceName => IsSourceName(t, written, i, j)
    case Hex => IsRun(t, i, j, 'a', 'f')
    case SeqId => IsRun(t, i, j, 'A', 'Z')
    case Operator => IsOperatorAt(t, i) && j == i + 2
    case Taking(n) => IsOperatorAt(t, i) && Operands(t[i], t[i + 1]) == n && j == i + 2
    case BuiltinLetter => i < |t| && M.IsBuiltin(t[i]) && j == i + 1
    case Abbreviation => i < |t| && M.IsSubstitution(t[i]) && j == i + 1
    case Sub(rule) => IsWord(t, written, rule, i, j)
    case Maybe(s') => i == j || IsSymbol(t, written, s', i, j)
  }

  least predicate IsSequence[nat](t: string, written: bool, ss: seq<Symbol>, i: nat, j: nat) {
    if ss == [] then i == j
    else exists k: nat :: IsSymbol(t, written, ss[0], i, k) && IsSequence(t, written, ss[1..], k, j)
  }

  least predicate IsWord[nat](t: string, written: bool, r: Rule, i: nat, j: nat) {
    exists ss: seq<Symbol> :: MayUse(written, r, ss) && IsSequence(t, written, ss, i, j)
  }

  /** A word for mangled-name with nothing, a clone suffix or a version suffix behind it. */
  ghost predicate IsName(t: string, written: bool) {
    exists j: nat :: IsWord(t, written, MangledName, 0, j) && j <= |t| &&
      (M.CloneSuffix(t, j) || (j < |t| && t[j] == '@'))
  }

  // ---------------------------------------------------------------------------------
  // Every written word is one that the code's additions leave a word
  // ---------------------------------------------------------------------------------

  least lemma WrittenSymbol[nat](t: string, s: Symbol, i: nat, j: nat)
    requires IsSymbol(t, true, s, i, j)
    ensures IsSymbol(t, false, s, i, j)
  {
    match s
    case Sub(rule) => WrittenWord(t, rule, i, j);
    case Maybe(s') => if i != j { WrittenSymbol(t, s', i, j); }
    case _ =>
  }

  least lemma WrittenSequence[nat](t: string, ss: seq<Symbol>, i: nat, j: nat)
    requires IsSequence(t, true, ss, i, j)
    ensures IsSequence(t, false, ss, i, j)
  {
    if ss != [] {
      var k: nat :| IsSymbol#[_k - 1](t, true, ss[0], i, k) && IsSequence#[_k - 1](t, true, ss[1..], k, j);
      WrittenSymbol(t, ss[0], i, k);
      WrittenSequence(t, ss[1..], k, j);
    }
  }

  least lemma WrittenWord[nat](t: string, r: Rule, i: nat, j: nat)
    requires IsWord(t, true, r, i, j)
    ensures IsWord(t, false, r, i, j)
  {
    var ss: seq<Symbol> :| MayUse(true, r, ss) && IsSequence#[_k - 1](t, true, ss, i, j);
    WrittenSequence(t, ss, i, j);
    assert MayUse(false, r, ss);
  }

  lemma WrittenNameIsName(t: string)
    requires IsName(t, true)
    ensures IsName(t, false)
  {
    var j: nat :| IsWord(t, true, MangledName, 0, j) && j <= |t| && (M.CloneSuffix(t, j) || (j < |t| && t[j] == '@'));
    WrittenWord(t, MangledName, 0, j);
  }
}
