/** Names that the comments of demangle.cc have, against names that the code accepts. */
module Written {
  import M = Mangling
  import opened Bnf
  import R = Reading
  import StepBack

  // ---------------------------------------------------------------------------------
  // What is no written name
  // ---------------------------------------------------------------------------------

  /** The text ends, or has an E, or a zero that is a whole number, behind any count of letters N. */
  predicate IsDead(t: string, i: nat)
    requires i <= |t|
    decreases |t| - i
  {
    || i == |t|
    || t[i] == 'E'
    || (t[i] == '0' && (i + 1 == |t| || !M.IsDigit(t[i + 1])))
    || (t[i] == 'N' && IsDead(t, i + 1))
  }

  /** Terminal parts that begin with something else. */
  predicate NeedsMore(s: Symbol) {
    match s
    case Char(c) => c != 'E' && c != '0' && c != 'N'
    case Among(cs) => cs == "OPRCG" || cs == "IJ"
    case SourceName => true
    case Operator => true
    case Taking(n) => true
    case BuiltinLetter => true
    case _ => false
  }

  /** How an alternative begins: with nothing, with such a part, with a rule, or as a nested name. */
  predicate IsOpening(r: Rule, ss: seq<Symbol>) {
    if ss == [] then r == Prefix
    else if ss[0] == Sub(Prefix) then |ss| == 2 && ss[1] == Sub(UnqualifiedName)
    else if ss[0] == Char('N') then |ss| == 4 && ss[1] == Maybe(Sub(CVQualifiers)) && ss[2] == Sub(NestedBody)
    else ss[0].Sub? || NeedsMore(ss[0])
  }

  lemma Openings(r: Rule, ss: seq<Symbol>)
    requires IsAlternative(r, ss)
    ensures IsOpening(r, ss)
  {
  }

  lemma TerminalNeedsMore(t: string, s: Symbol, i: nat, k: nat, n: nat)
    requires i <= |t| && IsDead(t, i) && NeedsMore(s)
    ensures !IsSymbol#[n](t, true, s, i, k)
  {
    if n > 0 && IsSymbol#[n](t, true, s, i, k) {
      match s
      case BuiltinLetter => BuiltinIsLower(t[i]);
      case SourceName => LengthIsAlive(t, i, k);
      case _ =>
    }
  }

  lemma LengthIsAlive(t: string, i: nat, j: nat)
    requires i <= |t| && IsSourceName(t, true, i, j)
    ensures !IsDead(t, i)
  {
    var m: nat :| HasLength(t, i, m, j);
    assert M.IsDigit(t[i]);
    if m > i + 1 {
      assert M.IsDigit(t[i + 1]);
    } else {
      assert M.DigitsValue(t, i, i + 1) == M.DigitsValue(t, i, i) * 10 + (t[i] as int - '0' as int);
    }
  }

  lemma NestedIsDead(t: string, i: nat, k: nat, n: nat)
    requires i <= |t| && IsDead(t, i) && IsSymbol#[n](t, true, Char('N'), i, k)
    ensures k <= |t| && IsDead(t, k)
  {
  }

  lemma BuiltinIsLower(c: char)
    requires M.IsBuiltin(c)
    ensures M.IsLower(c)
  {
  }

  /** No rule has a written word at such a place, but for the empty prefix. */
  lemma {:induction false} DeadWord(t: string, r: Rule, i: nat, j: nat, n: nat)
    requires i <= |t| && IsDead(t, i) && IsWord#[n](t, true, r, i, j)
    ensures r == Prefix && j == i
    decreases n, 1
  {
    hide IsAlternative, IsDead;
    var ss: seq<Symbol> :| MayUse(true, r, ss) && IsSequence#[n - 1](t, true, ss, i, j);
    Openings(r, ss);
    if ss != [] {
      var k: nat :| IsSymbol#[n - 2](t, true, ss[0], i, k) && IsSequence#[n - 2](t, true, ss[1..], k, j);
      DeadStart(t, r, ss, i, j, k, n);
    }
  }

  lemma {:induction false} DeadStart(t: string, r: Rule, ss: seq<Symbol>, i: nat, j: nat, k: nat, n: nat)
    requires i <= |t| && IsDead(t, i) && n >= 3 && ss != [] && IsOpening(r, ss)
    ensures !(IsSymbol#[n - 2](t, true, ss[0], i, k) && IsSequence#[n - 2](t, true, ss[1..], k, j))
    decreases n, 0
  {
    hide IsDead, IsWord;
    if !IsSymbol#[n - 2](t, true, ss[0], i, k) || !IsSequence#[n - 2](t, true, ss[1..], k, j) {
    } else if NeedsMore(ss[0]) {
      TerminalNeedsMore(t, ss[0], i, k, n - 2);
    } else if ss[0] == Char('N') {
      NestedIsDead(t, i, k, n - 2);
      DeadNested(t, ss[1..], k, j, n - 2);
    } else {
      DeadWord(t, ss[0].rule, i, k, n - 3);
      DeadName(t, ss[1..], k, j, n - 2);
    }
  }

  lemma {:induction false} DeadName(t: string, ss: seq<Symbol>, i: nat, j: nat, n: nat)
    requires i <= |t| && IsDead(t, i) && ss == [Sub(UnqualifiedName)]
    ensures !IsSequence#[n](t, true, ss, i, j)
    decreases n, 0
  {
    if IsSequence#[n](t, true, ss, i, j) {
      var k: nat :| IsSymbol#[n - 1](t, true, ss[0], i, k);
      DeadWord(t, UnqualifiedName, i, k, n - 2);
    }
  }

  lemma {:induction false} DeadNested(t: string, ss: seq<Symbol>, i: nat, j: nat, n: nat)
    requires i <= |t| && IsDead(t, i) && |ss| >= 2 && ss[0] == Maybe(Sub(CVQualifiers)) && ss[1] == Sub(NestedBody)
    ensures !IsSequence#[n](t, true, ss, i, j)
    decreases n, 0
  {
    if IsSequence#[n](t, true, ss, i, j) {
      var k: nat :| IsSymbol#[n - 1](t, true, ss[0], i, k) && IsSequence#[n - 1](t, true, ss[1..], k, j);
      if k != i {
        assert IsSymbol#[n - 2](t, true, Sub(CVQualifiers), i, k);
        DeadWord(t, CVQualifiers, i, k, n - 3);
      }
      var l: nat :| IsSymbol#[n - 2](t, true, ss[1..][0], i, l);
      DeadWord(t, NestedBody, i, l, n - 3);
    }
  }

  lemma DeadEncoding(t: string, ss: seq<Symbol>, j: nat, n: nat)
    requires |t| >= 2 && IsDead(t, 2) && ss == [Char('_'), Char('Z'), Sub(Encoding)]
    ensures !IsSequence#[n](t, true, ss, 0, j)
  {
    hide IsDead;
    if IsSequence#[n](t, true, ss, 0, j) {
      var k: nat :| IsSymbol#[n - 1](t, true, ss[0], 0, k) && IsSequence#[n - 1](t, true, ss[1..], k, j);
      var l: nat :| IsSymbol#[n - 2](t, true, ss[1..][0], k, l) && IsSequence#[n - 2](t, true, ss[1..][1..], l, j);
      var m: nat :| IsSymbol#[n - 3](t, true, ss[1..][1..][0], l, m);
      DeadWord(t, Encoding, 2, m, n - 4);
    }
  }

  lemma DeadMangledName(t: string, j: nat, n: nat)
    requires |t| >= 2 && IsDead(t, 2)
    ensures !IsWord#[n](t, true, MangledName, 0, j)
  {
    if IsWord#[n](t, true, MangledName, 0, j) {
      var ss: seq<Symbol> :| MayUse(true, MangledName, ss) && IsSequence#[n - 1](t, true, ss, 0, j);
      DeadEncoding(t, ss, j, n - 1);
    }
  }

  /** A text at whose encoding nothing begins is no written name. */
  lemma NothingBegins(t: string)
    requires |t| >= 2 && IsDead(t, 2)
    ensures !IsName(t, true)
  {
    forall j: nat
      ensures !IsWord(t, true, MangledName, 0, j)
    {
      forall n: nat
        ensures !IsWord#[n](t, true, MangledName, 0, j)
      {
        DeadMangledName(t, j, n);
      }
    }
  }

  // ---------------------------------------------------------------------------------
  // What is accepted all the same
  // ---------------------------------------------------------------------------------

  /** Two texts that the code accepts and the comments exclude: a nested name without any component, and a name of
      length zero. */
  lemma AcceptsMoreThanWritten()
    ensures M.IsMangled("_ZNE") && IsName("_ZNE", false) && !IsName("_ZNE", true)
    ensures M.IsMangled("_Z0") && IsName("_Z0", false) && !IsName("_Z0", true)
  {
    EmptyNestedName();
    EmptySourceName();
    R.AcceptedIsDerived("_ZNE");
    R.AcceptedIsDerived("_Z0");
    assert IsDead("_ZNE", 3) && IsDead("_ZNE", 2) && IsDead("_Z0", 2);
    NothingBegins("_ZNE");
    NothingBegins("_Z0");
  }

  lemma NothingAtE(t: string, i: nat)
    requires i < |t| && t[i] == 'E'
    ensures M.Component(t, i) == M.Fail && M.TemplateArgs(t, i) == M.Fail
  {
    assert M.CastOperator(t, i) == M.Fail && M.VendorOperator(t, i) == M.Fail && M.OperatorName(t, i) == M.Fail;
    assert M.CtorDtorName(t, i) == M.Fail && M.SourceName(t, i) == M.Fail && M.LocalSourceName(t, i) == M.Fail;
    assert M.UnqualifiedName(t, i) == M.Fail && M.UnscopedName(t, i) == M.Fail;
    assert M.TemplateParam(t, i) == M.Fail && M.Substitution(t, i) == M.Fail;
  }

  lemma EmptyNestedName()
    ensures M.IsMangled("_ZNE")
  {
    var t := "_ZNE";
    NothingAtE(t, 3);
    assert M.Prefix(t, 3, false) == M.At(3);
    assert M.NestedName(t, 2) == M.At(4);
    assert M.Name(t, 2) == M.At(4);
    StepBack.NoTypeAtEnd(t, 4);
    assert M.Encoding(t, 2) == M.At(4);
  }

  lemma EmptySourceName()
    ensures M.IsMangled("_Z0")
  {
    var t := "_Z0";
    assert M.DigitsEnd(t, 3) == 3 && M.DigitsEnd(t, 2) == 3;
    assert M.NumberAt(t, 2) == M.Numeral(3, 0);
    assert M.SourceName(t, 2) == M.At(3);
    assert M.AbiTags(t, 3) == M.Fail;
    assert M.UnqualifiedName(t, 2) == M.At(3);
    assert M.UnscopedName(t, 2) == M.At(3);
    assert M.TemplateArgs(t, 3) == M.Fail;
    assert M.Name(t, 2) == M.At(3);
    StepBack.NoTypeAtEnd(t, 3);
    assert M.Encoding(t, 2) == M.At(3);
  }

  // ---------------------------------------------------------------------------------
  // A written name that is not read as one
  // ---------------------------------------------------------------------------------

  /** A reading that is not clean does not yet make a name an unwritten one: the operator ng is tried with three
      operands first, then with two, and takes the second operand of the pl in front of it, which is left with one. */
  lemma CleanIsNotNecessary()
    ensures var t := "_Z1fDtplngT_T_E"; M.IsMangled(t) && IsName(t, true) && !R.CleanMangledName(t, 0)
  {
    var t := "_Z1fDtplngT_T_E";
    assert IsExample(t);
    ExampleIsMangled(t);
    ExampleIsWritten(t);
    ExampleIsNotClean(t);
  }

  predicate IsExample(t: string) {
    && |t| == 15 && t[0] == '_' && t[1] == 'Z' && t[2] == '1' && t[3] == 'f' && t[4] == 'D' && t[5] == 't'
    && t[6] == 'p' && t[7] == 'l' && t[8] == 'n' && t[9] == 'g' && t[10] == 'T' && t[11] == '_'
    && t[12] == 'T' && t[13] == '_' && t[14] == 'E'
  }

  lemma ExampleName(t: string)
    requires IsExample(t)
    ensures M.SourceName(t, 2) == M.At(4) && M.Name(t, 2) == M.At(4) && R.CleanName(t, 2)
  {
    assert M.DigitsEnd(t, 3) == 3 && M.DigitsEnd(t, 2) == 3;
    assert M.DigitsValue(t, 2, 3) == M.DigitsValue(t, 2, 2) * 10 + 1;
    assert M.NumberAt(t, 2) == M.Numeral(3, 1);
    assert M.SourceName(t, 2) == M.At(4) && R.CleanSourceName(t, 2);
    assert M.OperatorName(t, 2) == M.Fail && M.CtorDtorName(t, 2) == M.Fail && M.AbiTags(t, 4) == M.Fail;
    assert M.UnqualifiedName(t, 2) == M.At(4) && R.CleanAbiTags(t, 4) && R.CleanUnqualifiedName(t, 2);
    assert M.UnscopedName(t, 2) == M.At(4) && R.CleanUnscopedName(t, 2);
    assert M.NestedName(t, 2) == M.Fail && M.LocalEntity(t, 2) == M.Fail && M.LocalString(t, 2) == M.Fail;
    assert M.LocalName(t, 2) == M.Fail && M.UnscopedTemplateName(t, 2) == M.At(4) && M.TemplateArgs(t, 4) == M.Fail;
  }

  /** The operands, and nothing behind them. */
  lemma ExampleOperands(t: string)
    requires IsExample(t)
    ensures M.Expression(t, 10) == M.At(12) && M.Expression(t, 12) == M.At(14) && M.Expression(t, 14) == M.Fail
    ensures R.CleanExpression(t, 10) && R.CleanExpression(t, 12)
  {
    assert M.TemplateParam(t, 10) == M.At(12) && M.TemplateParam(t, 12) == M.At(14);
    assert M.TemplateParam(t, 14) == M.Fail && M.OperatorName(t, 14) == M.Fail;
    assert M.Trinary(t, 14) == M.Fail && M.Binary(t, 14) == M.Fail && M.Unary(t, 14) == M.Fail;
    assert M.IntegerLiteral(t, 14) == M.Fail && M.FloatLiteral(t, 14) == M.Fail;
    assert M.ExternalLiteral(t, 14) == M.Fail && M.OldLiteral(t, 14) == M.Fail;
    assert M.SizeofType(t, 14) == M.Fail && M.ScopedTemplate(t, 14) == M.Fail && M.ScopedName(t, 14) == M.Fail;
  }

  lemma ExampleOperators(t: string)
    requires IsExample(t)
    ensures M.OperatorName(t, 6) == M.At(8) && M.OperatorName(t, 8) == M.At(10)
    ensures M.IsOperator('p', 'l') && M.IsOperator('n', 'g')
  {
    assert M.OPERATORS[5] == ('n', 'g', "-") && M.OPERATORS[9] == ('p', 'l', "+");
    assert M.CastOperator(t, 6) == M.Fail && M.VendorOperator(t, 6) == M.Fail;
    assert M.CastOperator(t, 8) == M.Fail && M.VendorOperator(t, 8) == M.Fail;
  }

  lemma ExampleExpressions(t: string)
    requires IsExample(t)
    ensures M.Expression(t, 8) == M.At(14) && M.Expression(t, 6) == M.At(14)
    ensures M.Trinary(t, 6) == M.Fail && M.Binary(t, 6) == M.Fail && M.Unary(t, 6) == M.At(14)
  {
    ExampleOperands(t);
    ExampleOperators(t);
    ExampleInner(t);
    assert M.Trinary(t, 6) == M.Fail && M.Binary(t, 6) == M.Fail && M.Unary(t, 6) == M.At(14);
    NoPrimary(t, 6);
    assert M.Operation(t, 6) == M.At(14);
  }

  lemma NoPrimary(t: string, i: nat)
    requires i <= |t| && i < |t| && t[i] != 'T' && t[i] != 'L'
    ensures M.TemplateParam(t, i) == M.Fail && M.ExprPrimary(t, i) == M.Fail
  {
    assert M.IntegerLiteral(t, i) == M.Fail && M.FloatLiteral(t, i) == M.Fail;
    assert M.ExternalLiteral(t, i) == M.Fail && M.OldLiteral(t, i) == M.Fail;
  }

  lemma ExampleInner(t: string)
    requires IsExample(t)
    ensures M.Expression(t, 8) == M.At(14)
  {
    ExampleOperands(t);
    ExampleOperators(t);
    assert M.Trinary(t, 8) == M.Fail && M.Binary(t, 8) == M.At(14);
    NoPrimary(t, 8);
    assert M.Operation(t, 8) == M.At(14);
  }

  lemma ExampleType(t: string)
    requires IsExample(t)
    ensures M.Decltype(t, 4) == M.At(15) && M.QualifiedType(t, 4) == M.Fail && M.Type(t, 4) == M.At(15)
  {
    ExampleExpressions(t);
    assert M.CVQualifiedType(t, 4) == M.Fail && M.ReferenceType(t, 4) == M.Fail && M.PackExpansion(t, 4) == M.Fail;
    assert M.ExtendedType(t, 4) == M.At(15);
  }

  lemma ExampleIsMangled(t: string)
    requires IsExample(t)
    ensures M.IsMangled(t) && M.BareFunctionType(t, 4) == M.At(15) && M.Encoding(t, 2) == M.At(15)
  {
    ExampleName(t);
    ExampleType(t);
    StepBack.NoTypeAtEnd(t, 15);
    assert M.MoreTypes(t, 15) == M.At(15);
    assert M.BareFunctionType(t, 4) == M.At(15);
    assert M.Encoding(t, 2) == M.At(15);
  }

  lemma ExampleIsNotClean(t: string)
    requires IsExample(t)
    ensures !R.CleanMangledName(t, 0)
  {
    ExampleIsMangled(t);
    ExampleName(t);
    ExampleType(t);
    ExampleExpressions(t);
    ExampleOperators(t);
    NoPrimary(t, 6);
    assert M.VendorOperator(t, 6) == M.Fail && M.CastOperator(t, 6) == M.Fail && !R.Takes(t, 6, 1);
    assert !R.CleanUnary(t, 6);
    assert !R.CleanOperation(t, 6);
    assert !R.CleanExpression(t, 6);
    assert !R.CleanDecltype(t, 4);
    assert !R.CleanExtendedType(t, 4);
    assert !R.CleanType(t, 4);
    assert !R.CleanBareFunctionType(t, 4);
    assert !R.CleanEncoding(t, 2);
  }

  lemma ExampleExpressionIsWritten(t: string)
    requires IsExample(t)
    ensures IsWord(t, true, Expression, 6, 14)
  {
    hide IsWord, IsSequence;
    ExampleOperands(t);
    R.ExpressionIs(t, true, 10);
    R.ExpressionIs(t, true, 12);
    ExampleOperatorsAreWritten(t);
    R.Alt2(t, true, Expression, Sub(OperatorFor(1)), Sub(Expression), 8, 10, 12);
    R.Alt3(t, true, Expression, Sub(OperatorFor(2)), Sub(Expression), Sub(Expression), 6, 8, 12, 14);
  }

  lemma ExampleOperatorsAreWritten(t: string)
    requires IsExample(t)
    ensures IsWord(t, true, OperatorFor(2), 6, 8) && IsWord(t, true, OperatorFor(1), 8, 10)
  {
    hide IsWord, IsSequence;
    ExampleOperators(t);
    R.Alt1(t, true, OperatorFor(1), Taking(1), 8, 10);
    R.Alt1(t, true, OperatorFor(2), Taking(2), 6, 8);
  }

  lemma ExampleTypeIsWritten(t: string)
    requires IsExample(t)
    ensures IsWord(t, true, BareFunctionType, 4, 15)
  {
    hide IsWord, IsSequence;
    ExampleExpressionIsWritten(t);
    R.Alt4(t, true, Type, Char('D'), Among("tT"), Sub(Expression), Char('E'), 4, 5, 6, 14, 15);
    R.Alt1(t, true, BareFunctionType, Sub(Type), 4, 15);
  }

  lemma ExampleIsWritten(t: string)
    requires IsExample(t)
    ensures IsName(t, true)
  {
    hide IsWord, IsSequence;
    ExampleName(t);
    R.NameIs(t, true, 2);
    ExampleTypeIsWritten(t);
    R.Alt2(t, true, Encoding, Sub(Name), Sub(BareFunctionType), 2, 4, 15);
    R.Alt3(t, true, MangledName, Char('_'), Char('Z'), Sub(Encoding), 0, 1, 2, 15);
    assert M.CloneSuffix(t, 15);
  }
}
