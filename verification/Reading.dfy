/** What the demangler's ordered, greedy reading takes is a word of the grammar in module Bnf, rule by rule; and a
    written word, if the reading came upon none of the things that only the code lets pass. */
module Reading {
  import M = Mangling
  import opened Bnf

  // ---------------------------------------------------------------------------------
  // Sequences of symbols
  // ---------------------------------------------------------------------------------

  lemma Seq1(t: string, w: bool, a: Symbol, i: nat, j: nat)
    requires IsSymbol(t, w, a, i, j)
    ensures IsSequence(t, w, [a], i, j)
  {
    assert IsSequence(t, w, [a][1..], j, j);
  }

  lemma Seq2(t: string, w: bool, a: Symbol, b: Symbol, i: nat, j: nat, k: nat)
    requires IsSymbol(t, w, a, i, j) && IsSymbol(t, w, b, j, k)
    ensures IsSequence(t, w, [a, b], i, k)
  {
    Seq1(t, w, b, j, k);
    assert [a, b][1..] == [b];
  }

  lemma Seq3(t: string, w: bool, a: Symbol, b: Symbol, c: Symbol, i: nat, j: nat, k: nat, l: nat)
    requires IsSymbol(t, w, a, i, j) && IsSymbol(t, w, b, j, k) && IsSymbol(t, w, c, k, l)
    ensures IsSequence(t, w, [a, b, c], i, l)
  {
    Seq2(t, w, b, c, j, k, l);
    assert [a, b, c][1..] == [b, c];
  }

  lemma Seq4(t: string, w: bool, a: Symbol, b: Symbol, c: Symbol, d: Symbol, i: nat, j: nat, k: nat, l: nat, m: nat)
    requires IsSymbol(t, w, a, i, j) && IsSymbol(t, w, b, j, k)
    requires IsSymbol(t, w, c, k, l) && IsSymbol(t, w, d, l, m)
    ensures IsSequence(t, w, [a, b, c, d], i, m)
  {
    Seq3(t, w, b, c, d, j, k, l, m);
    assert [a, b, c, d][1..] == [b, c, d];
  }

  lemma Seq5(t: string, w: bool, a: Symbol, b: Symbol, c: Symbol, d: Symbol, e: Symbol, i: nat, j: nat, k: nat, l: nat,
             m: nat, n: nat)
    requires IsSymbol(t, w, a, i, j) && IsSymbol(t, w, b, j, k) && IsSymbol(t, w, c, k, l)
    requires IsSymbol(t, w, d, l, m) && IsSymbol(t, w, e, m, n)
    ensures IsSequence(t, w, [a, b, c, d, e], i, n)
  {
    Seq4(t, w, b, c, d, e, j, k, l, m, n);
    assert [a, b, c, d, e][1..] == [b, c, d, e];
  }

  lemma Seq6(t: string, w: bool, a: Symbol, b: Symbol, c: Symbol, d: Symbol, e: Symbol, f: Symbol, i: nat, j: nat,
             k: nat, l: nat, m: nat, n: nat, o: nat)
    requires IsSymbol(t, w, a, i, j) && IsSymbol(t, w, b, j, k) && IsSymbol(t, w, c, k, l)
    requires IsSymbol(t, w, d, l, m) && IsSymbol(t, w, e, m, n) && IsSymbol(t, w, f, n, o)
    ensures IsSequence(t, w, [a, b, c, d, e, f], i, o)
  {
    Seq5(t, w, b, c, d, e, f, j, k, l, m, n, o);
    assert [a, b, c, d, e, f][1..] == [b, c, d, e, f];
  }

  lemma Fits(t: string, w: bool, r: Rule, ss: seq<Symbol>, i: nat, j: nat)
    requires MayUse(w, r, ss) && IsSequence(t, w, ss, i, j)
    ensures IsWord(t, w, r, i, j)
  {
  }

  lemma Alt1(t: string, w: bool, r: Rule, a: Symbol, i: nat, j: nat)
    requires MayUse(w, r, [a])
    requires IsSymbol(t, w, a, i, j)
    ensures IsWord(t, w, r, i, j)
  {
    hide IsSymbol;
    Seq1(t, w, a, i, j);
    Fits(t, w, r, [a], i, j);
  }

  lemma Alt2(t: string, w: bool, r: Rule, a: Symbol, b: Symbol, i: nat, j: nat, k: nat)
    requires MayUse(w, r, [a, b])
    requires IsSymbol(t, w, a, i, j) && IsSymbol(t, w, b, j, k)
    ensures IsWord(t, w, r, i, k)
  {
    hide IsSymbol;
    Seq2(t, w, a, b, i, j, k);
    Fits(t, w, r, [a, b], i, k);
  }

  lemma Alt3(t: string, w: bool, r: Rule, a: Symbol, b: Symbol, c: Symbol, i: nat, j: nat, k: nat, l: nat)
    requires MayUse(w, r, [a, b, c])
    requires IsSymbol(t, w, a, i, j) && IsSymbol(t, w, b, j, k) && IsSymbol(t, w, c, k, l)
    ensures IsWord(t, w, r, i, l)
  {
    hide IsSymbol;
    Seq3(t, w, a, b, c, i, j, k, l);
    Fits(t, w, r, [a, b, c], i, l);
  }

  lemma Alt4(t: string, w: bool, r: Rule, a: Symbol, b: Symbol, c: Symbol, d: Symbol, i: nat, j: nat, k: nat, l: nat,
             m: nat)
    requires MayUse(w, r, [a, b, c, d])
    requires IsSymbol(t, w, a, i, j) && IsSymbol(t, w, b, j, k)
    requires IsSymbol(t, w, c, k, l) && IsSymbol(t, w, d, l, m)
    ensures IsWord(t, w, r, i, m)
  {
    hide IsSymbol;
    Seq4(t, w, a, b, c, d, i, j, k, l, m);
    Fits(t, w, r, [a, b, c, d], i, m);
  }

  lemma Alt5(t: string, w: bool, r: Rule, a: Symbol, b: Symbol, c: Symbol, d: Symbol, e: Symbol, i: nat, j: nat,
             k: nat, l: nat, m: nat, n: nat)
    requires MayUse(w, r, [a, b, c, d, e])
    requires IsSymbol(t, w, a, i, j) && IsSymbol(t, w, b, j, k) && IsSymbol(t, w, c, k, l)
    requires IsSymbol(t, w, d, l, m) && IsSymbol(t, w, e, m, n)
    ensures IsWord(t, w, r, i, n)
  {
    hide IsSymbol;
    Seq5(t, w, a, b, c, d, e, i, j, k, l, m, n);
    Fits(t, w, r, [a, b, c, d, e], i, n);
  }

  lemma Alt6(t: string, w: bool, r: Rule, a: Symbol, b: Symbol, c: Symbol, d: Symbol, e: Symbol, f: Symbol, i: nat,
             j: nat, k: nat, l: nat, m: nat, n: nat, o: nat)
    requires MayUse(w, r, [a, b, c, d, e, f])
    requires IsSymbol(t, w, a, i, j) && IsSymbol(t, w, b, j, k) && IsSymbol(t, w, c, k, l)
    requires IsSymbol(t, w, d, l, m) && IsSymbol(t, w, e, m, n) && IsSymbol(t, w, f, n, o)
    ensures IsWord(t, w, r, i, o)
  {
    hide IsSymbol;
    Seq6(t, w, a, b, c, d, e, f, i, j, k, l, m, n, o);
    Fits(t, w, r, [a, b, c, d, e, f], i, o);
  }

  // ---------------------------------------------------------------------------------
  // A clean reading: nothing was taken on the way that the comments do not have
  // ---------------------------------------------------------------------------------

  /** A length that is written as the grammar has it and that an int can hold. */
  predicate CleanSourceName(t: string, i: nat)
    requires i <= |t|
  {
    M.SourceName(t, i).At? ==>
      !M.Signed(t, i) && 0 < M.Decimal(t, i) < M.TWO31
  }

  predicate CleanAbiTag(t: string, i: nat)
    requires i <= |t|
  {
    M.AbiTag(t, i).At? ==>
      CleanSourceName(t, i + 1)
  }

  predicate CleanAbiTags(t: string, i: nat)
    requires i <= |t|
    decreases |t| - i, 0
  {
    M.AbiTags(t, i).At? ==>
      && CleanAbiTag(t, i)
      && var j := M.AbiTag(t, i).i;
         if M.AbiTag(t, j).At? then CleanAbiTags(t, j) else M.Tok(t, j, 'B') == M.Fail
  }

  predicate CleanLocalSourceName(t: string, i: nat)
    requires i <= |t|
  {
    M.LocalSourceName(t, i).At? ==>
      CleanSourceName(t, i + 1)
  }

  predicate CleanTemplateParam(t: string, i: nat)
    requires i <= |t|
  {
    M.TemplateParam(t, i).At? ==>
      M.Tok2(t, i, 'T', '_').At? || !M.Signed(t, i + 1)
  }

  predicate CleanTemplateTemplateParam(t: string, i: nat)
    requires i <= |t|
  {
    M.TemplateTemplateParam(t, i).At? ==>
      CleanTemplateParam(t, i)
  }

  predicate CleanBuiltinType(t: string, i: nat)
    requires i <= |t|
  {
    M.BuiltinType(t, i).At? ==>
      M.IsBuiltin(t[i]) || CleanSourceName(t, i + 1)
  }

  predicate CleanOperatorName(t: string, i: nat)
    requires i <= |t|
    decreases |t| - i, 1
  {
    M.OperatorName(t, i).At? ==>
      if M.CastOperator(t, i).At? then CleanType(t, i + 2)
      else M.VendorOperator(t, i).At? ==> CleanSourceName(t, i + 2)
  }

  /** The operator at i takes n operands. */
  predicate Takes(t: string, i: nat, n: nat)
    requires i <= |t| && M.OperatorName(t, i).At?
  {
    if M.CastOperator(t, i).At? then n == 1
    else if M.VendorOperator(t, i).At? then t[i + 1] == DigitFor(n)
    else Operands(t[i], t[i + 1]) == n
  }

  predicate CleanUnqualifiedName(t: string, i: nat)
    requires i <= |t|
    decreases |t| - i, 2
  {
    M.UnqualifiedName(t, i).At? ==>
      if M.OperatorName(t, i).At? then CleanOperatorName(t, i)
      else if M.CtorDtorName(t, i).At? then true
      else if M.SourceName(t, i).At? then CleanSourceName(t, i) && CleanAbiTags(t, M.SourceName(t, i).i)
      else CleanLocalSourceName(t, i) && CleanAbiTags(t, M.LocalSourceName(t, i).i)
  }

  predicate CleanUnscopedName(t: string, i: nat)
    requires i <= |t|
    decreases |t| - i, 3
  {
    M.UnscopedName(t, i).At? ==>
      if M.UnqualifiedName(t, i).At? then CleanUnqualifiedName(t, i) else CleanUnqualifiedName(t, i + 2)
  }

  predicate CleanUnscopedTemplateName(t: string, i: nat)
    requires i <= |t|
    decreases |t| - i, 4
  {
    M.UnscopedTemplateName(t, i).At? ==>
      M.UnscopedName(t, i).At? ==> CleanUnscopedName(t, i)
  }

  predicate CleanNestedName(t: string, i: nat)
    requires i <= |t|
    decreases |t| - i, 0
  {
    M.NestedName(t, i).At? ==>
      CleanPrefix(t, M.CVQualifiers(t, i + 1).Or(i + 1), false, true, false)
  }

  /** The prefix of a nested name from i on. `first`: nothing was read of it before; `ends`: what was read of it is the
      body of a nested name, because it ends in a name or in template arguments. */
  predicate CleanPrefix(t: string, i: nat, some: bool, first: bool, ends: bool)
    requires i <= |t|
    decreases |t| - i, 5
  {
    if M.Component(t, i).At? then
      var j := M.Component(t, i).i;
      if M.TemplateParam(t, i).At? then first && CleanTemplateParam(t, i) && CleanPrefix(t, j, true, false, false)
      else if M.Substitution(t, i).At? then first && CleanPrefix(t, j, true, false, false)
      else M.UnqualifiedName(t, i).At? && CleanUnqualifiedName(t, i) && CleanPrefix(t, j, true, false, true)
    else if some && M.TemplateArgs(t, i).At? then
      CleanTemplateArgs(t, i) && CleanPrefix(t, M.TemplateArgs(t, i).i, false, false, true)
    else ends
  }

  predicate CleanName(t: string, i: nat)
    requires i <= |t|
    decreases |t| - i, 5
  {
    M.Name(t, i).At? ==>
      if M.NestedName(t, i).At? then CleanNestedName(t, i)
      else if M.LocalName(t, i).At? then CleanLocalName(t, i)
      else
        var u := M.UnscopedTemplateName(t, i);
        if u.At? && M.TemplateArgs(t, u.i).At? then CleanUnscopedTemplateName(t, i) && CleanTemplateArgs(t, u.i)
        else CleanUnscopedName(t, i)
  }

  predicate CleanEncoding(t: string, i: nat)
    requires i <= |t|
    decreases |t| - i, 6
  {
    M.Encoding(t, i).At? ==>
      if M.Name(t, i).At? then CleanName(t, i) && CleanBareFunctionType(t, M.Name(t, i).i) else CleanSpecialName(t, i)
  }

  predicate CleanMangledName(t: string, i: nat)
    requires i <= |t|
    decreases |t| - i, 0
  {
    M.MangledName(t, i).At? ==>
      CleanEncoding(t, i + 2)
  }

  predicate CleanSpecialData(t: string, i: nat)
    requires i <= |t|
    decreases |t| - i, 0
  {
    M.SpecialData(t, i).At? ==>
      CleanType(t, i + 2)
  }

  predicate CleanCovariantThunk(t: string, i: nat)
    requires i <= |t|
    decreases |t| - i, 0
  {
    M.CovariantThunk(t, i).At? ==>
      CleanEncoding(t, M.CallOffset(t, M.CallOffset(t, i + 2).i).i)
  }

  predicate CleanThunk(t: string, i: nat)
    requires i <= |t|
    decreases |t| - i, 0
  {
    M.Thunk(t, i).At? ==>
      if t[i] == 'G' then CleanName(t, i + 2) else CleanEncoding(t, M.CallOffset(t, i + 1).i)
  }

  predicate CleanConstructionTable(t: string, i: nat)
    requires i <= |t|
    decreases |t| - i, 0
  {
    M.ConstructionTable(t, i).At? ==>
      CleanType(t, i + 2) && CleanType(t, M.Number(t, M.Type(t, i + 2).i).i + 1)
  }

  predicate CleanSpecialExtension(t: string, i: nat)
    requires i <= |t|
    decreases |t| - i, 0
  {
    M.SpecialExtension(t, i).At? ==>
      if t[i] == 'T' then CleanType(t, i + 2) else CleanName(t, i + 2)
  }

  predicate CleanNamedThunk(t: string, i: nat)
    requires i <= |t|
    decreases |t| - i, 0
  {
    M.NamedThunk(t, i).At? ==>
      if t[i] == 'G' then CleanEncoding(t, i + 2) else CleanEncoding(t, M.CallOffset(t, i + 2).i)
  }

  predicate CleanSpecialName(t: string, i: nat)
    requires i <= |t|
    decreases |t| - i, 1
  {
    M.SpecialName(t, i).At? ==>
      if M.SpecialData(t, i).At? then CleanSpecialData(t, i)
      else if M.CovariantThunk(t, i).At? then CleanCovariantThunk(t, i)
      else if M.Thunk(t, i).At? then CleanThunk(t, i)
      else if M.ConstructionTable(t, i).At? then CleanConstructionTable(t, i)
      else if M.SpecialExtension(t, i).At? then CleanSpecialExtension(t, i)
      else CleanNamedThunk(t, i)
  }

  predicate CleanQualifiedType(t: string, i: nat)
    requires i <= |t|
    decreases |t| - i, 1
  {
    M.QualifiedType(t, i).At? ==>
      if M.CVQualifiedType(t, i).At? then CleanType(t, M.CVQualifiers(t, i).i)
      else if M.ReferenceType(t, i).At? then CleanType(t, i + 1)
      else M.PackExpansion(t, i).At? ==> CleanType(t, i + 2)
  }

  predicate CleanDecltype(t: string, i: nat)
    requires i <= |t|
    decreases |t| - i, 0
  {
    M.Decltype(t, i).At? ==>
      CleanExpression(t, i + 2)
  }

  predicate CleanVendorType(t: string, i: nat)
    requires i <= |t|
    decreases |t| - i, 0
  {
    M.VendorType(t, i).At? ==>
      CleanSourceName(t, i + 1) && CleanType(t, M.SourceName(t, i + 1).i)
  }

  predicate CleanExtendedType(t: string, i: nat)
    requires i <= |t|
    decreases |t| - i, 1
  {
    M.ExtendedType(t, i).At? ==>
      if M.Decltype(t, i).At? then CleanDecltype(t, i)
      else CleanVendorType(t, i)
  }

  predicate CleanType(t: string, i: nat)
    requires i <= |t|
    decreases |t| - i, 8
  {
    M.Type(t, i).At? ==>
      if M.QualifiedType(t, i).At? then CleanQualifiedType(t, i)
      else if M.ExtendedType(t, i).At? then CleanExtendedType(t, i)
      else if M.PlainType(t, i).At? then CleanPlainType(t, i)
      else CleanParameterType(t, i)
  }

  predicate CleanParameterType(t: string, i: nat)
    requires i <= |t|
    decreases |t| - i, 7
  {
    var p := M.TemplateTemplateParam(t, i);
    CleanTemplateParam(t, i) && (p.At? ==> CleanTemplateArgs(t, p.i))
  }

  predicate CleanPlainType(t: string, i: nat)
    requires i <= |t|
    decreases |t| - i, 7
  {
    M.PlainType(t, i).At? ==>
      if M.BuiltinType(t, i).At? then CleanBuiltinType(t, i)
      else if M.FunctionType(t, i).At? then CleanFunctionType(t, i)
      else if M.Name(t, i).At? then CleanName(t, i)
      else if M.ArrayType(t, i).At? then CleanArrayType(t, i)
      else if M.PointerToMemberType(t, i).At? then CleanPointerToMemberType(t, i)
      else true
  }

  predicate CleanFunctionType(t: string, i: nat)
    requires i <= |t|
    decreases |t| - i, 0
  {
    M.FunctionType(t, i).At? ==>
      CleanBareFunctionType(t, M.Tok(t, i + 1, 'Y').Or(i + 1))
  }

  predicate CleanBareFunctionType(t: string, i: nat)
    requires i <= |t|
    decreases |t| - i, 9
  {
    M.BareFunctionType(t, i).At? ==>
      CleanType(t, i) && CleanBareFunctionType(t, M.Type(t, i).i)
  }

  predicate CleanNumberedArray(t: string, i: nat)
    requires i <= |t|
    decreases |t| - i, 0
  {
    M.NumberedArray(t, i).At? ==>
      CleanType(t, M.Number(t, i + 1).i + 1)
  }

  predicate CleanDependentArray(t: string, i: nat)
    requires i <= |t|
    decreases |t| - i, 0
  {
    M.DependentArray(t, i).At? ==>
      CleanExpression(t, i + 1) && CleanType(t, M.Expression(t, i + 1).Opt(i + 1).i + 1)
  }

  predicate CleanArrayType(t: string, i: nat)
    requires i <= |t|
    decreases |t| - i, 1
  {
    M.ArrayType(t, i).At? ==>
      if M.NumberedArray(t, i).At? then CleanNumberedArray(t, i)
      else CleanDependentArray(t, i)
  }

  predicate CleanPointerToMemberType(t: string, i: nat)
    requires i <= |t|
    decreases |t| - i, 0
  {
    M.PointerToMemberType(t, i).At? ==>
      CleanType(t, i + 1) && CleanType(t, M.Type(t, i + 1).i)
  }

  predicate CleanTemplateArgs(t: string, i: nat)
    requires i <= |t|
    decreases |t| - i, 0
  {
    M.TemplateArgs(t, i).At? ==>
      CleanTemplateArgList(t, i + 1)
  }

  predicate CleanTemplateArgList(t: string, i: nat)
    requires i <= |t|
    decreases |t| - i, 10
  {
    M.TemplateArgList(t, i).At? ==>
      CleanTemplateArg(t, i) && CleanTemplateArgList(t, M.TemplateArg(t, i).i)
  }

  predicate CleanArgumentPack(t: string, i: nat)
    requires i <= |t|
    decreases |t| - i, 0
  {
    M.ArgumentPack(t, i).At? ==>
      CleanTemplateArgList(t, i + 1)
  }

  predicate CleanBracketedExpression(t: string, i: nat)
    requires i <= |t|
    decreases |t| - i, 0
  {
    M.BracketedExpression(t, i).At? ==>
      CleanExpression(t, i + 1)
  }

  predicate CleanTemplateArg(t: string, i: nat)
    requires i <= |t|
    decreases |t| - i, 9
  {
    M.TemplateArg(t, i).At? ==>
      if M.ArgumentPack(t, i).At? then CleanArgumentPack(t, i)
      else if M.Type(t, i).At? then CleanType(t, i)
      else if M.ExprPrimary(t, i).At? then CleanExprPrimary(t, i)
      else CleanBracketedExpression(t, i)
  }

  predicate CleanTrinary(t: string, i: nat)
    requires i <= |t|
    decreases |t| - i, 3
  {
    M.Trinary(t, i).At? ==>
      var j := M.OperatorName(t, i).i;
      var k := M.Expression(t, j).i;
      && CleanOperatorName(t, i) && Takes(t, i, 3)
      && CleanExpression(t, j) && CleanExpression(t, k) && CleanExpression(t, M.Expression(t, k).i)
  }

  predicate CleanBinary(t: string, i: nat)
    requires i <= |t|
    decreases |t| - i, 3
  {
    M.Binary(t, i).At? ==>
      var j := M.OperatorName(t, i).i;
      && CleanOperatorName(t, i) && Takes(t, i, 2)
      && CleanExpression(t, j) && CleanExpression(t, M.Expression(t, j).i)
  }

  predicate CleanUnary(t: string, i: nat)
    requires i <= |t|
    decreases |t| - i, 3
  {
    M.Unary(t, i).At? ==>
      CleanOperatorName(t, i) && Takes(t, i, 1) && CleanExpression(t, M.OperatorName(t, i).i)
  }

  predicate CleanOperation(t: string, i: nat)
    requires i <= |t|
    decreases |t| - i, 4
  {
    M.Operation(t, i).At? ==>
      if M.Trinary(t, i).At? then CleanTrinary(t, i)
      else if M.Binary(t, i).At? then CleanBinary(t, i)
      else CleanUnary(t, i)
  }

  predicate CleanSizeofType(t: string, i: nat)
    requires i <= |t|
    decreases |t| - i, 0
  {
    M.SizeofType(t, i).At? ==>
      CleanType(t, i + 2)
  }

  predicate CleanScopedTemplate(t: string, i: nat)
    requires i <= |t|
    decreases |t| - i, 0
  {
    M.ScopedTemplate(t, i).At? ==>
      var k := M.Type(t, i + 2).i;
      CleanType(t, i + 2) && CleanUnqualifiedName(t, k) && CleanTemplateArgs(t, M.UnqualifiedName(t, k).i)
  }

  predicate CleanScopedName(t: string, i: nat)
    requires i <= |t|
    decreases |t| - i, 0
  {
    M.ScopedName(t, i).At? ==>
      CleanType(t, i + 2) && CleanUnqualifiedName(t, M.Type(t, i + 2).i)
  }

  predicate CleanTypeExpression(t: string, i: nat)
    requires i <= |t|
    decreases |t| - i, 1
  {
    M.TypeExpression(t, i).At? ==>
      if M.SizeofType(t, i).At? then CleanSizeofType(t, i)
      else if M.ScopedTemplate(t, i).At? then CleanScopedTemplate(t, i)
      else CleanScopedName(t, i)
  }

  predicate CleanExpression(t: string, i: nat)
    requires i <= |t|
    decreases |t| - i, 5
  {
    M.Expression(t, i).At? ==>
      if M.TemplateParam(t, i).At? then CleanTemplateParam(t, i)
      else if M.ExprPrimary(t, i).At? then CleanExprPrimary(t, i)
      else if M.Operation(t, i).At? then CleanOperation(t, i)
      else CleanTypeExpression(t, i)
  }

  predicate CleanIntegerLiteral(t: string, i: nat)
    requires i <= |t|
    decreases |t| - i, 0
  {
    M.IntegerLiteral(t, i).At? ==>
      CleanType(t, i + 1)
  }

  predicate CleanFloatLiteral(t: string, i: nat)
    requires i <= |t|
    decreases |t| - i, 0
  {
    M.FloatLiteral(t, i).At? ==>
      CleanType(t, i + 1)
  }

  predicate CleanExternalLiteral(t: string, i: nat)
    requires i <= |t|
    decreases |t| - i, 0
  {
    M.ExternalLiteral(t, i).At? ==>
      CleanMangledName(t, i + 1)
  }

  predicate CleanOldLiteral(t: string, i: nat)
    requires i <= |t|
    decreases |t| - i, 0
  {
    M.OldLiteral(t, i).At? ==>
      CleanEncoding(t, i + 2)
  }

  predicate CleanExprPrimary(t: string, i: nat)
    requires i <= |t|
    decreases |t| - i, 1
  {
    M.ExprPrimary(t, i).At? ==>
      if M.IntegerLiteral(t, i).At? then CleanIntegerLiteral(t, i)
      else if M.FloatLiteral(t, i).At? then CleanFloatLiteral(t, i)
      else if M.ExternalLiteral(t, i).At? then CleanExternalLiteral(t, i)
      else CleanOldLiteral(t, i)
  }

  predicate CleanLocalEntity(t: string, i: nat)
    requires i <= |t|
    decreases |t| - i, 0
  {
    M.LocalEntity(t, i).At? ==>
      CleanEncoding(t, i + 1) && CleanName(t, M.Encoding(t, i + 1).i + 1)
  }

  predicate CleanLocalString(t: string, i: nat)
    requires i <= |t|
    decreases |t| - i, 0
  {
    M.LocalString(t, i).At? ==>
      CleanEncoding(t, i + 1)
  }

  predicate CleanLocalName(t: string, i: nat)
    requires i <= |t|
    decreases |t| - i, 1
  {
    M.LocalName(t, i).At? ==>
      if M.LocalEntity(t, i).At? then CleanLocalEntity(t, i)
      else CleanLocalString(t, i)
  }

  // ---------------------------------------------------------------------------------
  // Rule by rule, from the bottom up
  // ---------------------------------------------------------------------------------

  lemma {:induction false} DigitsAre(t: string, i: nat)
    requires i <= |t| && i < M.DigitsEnd(t, i)
    ensures IsDigits(t, i, M.DigitsEnd(t, i))
    decreases |t| - i
  {
    if i + 1 < M.DigitsEnd(t, i + 1) { DigitsAre(t, i + 1); }
  }

  lemma NumberIs(t: string, w: bool, i: nat)
    requires i <= |t| && M.Number(t, i).At?
    ensures IsSymbol(t, w, Number, i, M.Number(t, i).i)
  {
    DigitsAre(t, M.DigitsStart(t, i));
  }

  lemma SourceNameIs(t: string, w: bool, i: nat)
    requires i <= |t| && M.SourceName(t, i).At? && (w ==> CleanSourceName(t, i))
    ensures IsSymbol(t, w, SourceName, i, M.SourceName(t, i).i)
  {
    var m, end := M.NumberAt(t, i).end, M.SourceName(t, i).i;
    DigitsAre(t, M.DigitsStart(t, i));
    assert if w then HasLength(t, i, m, end) else HasIntLength(t, i, m, end);
    assert IsSourceName(t, w, i, end);
  }

  lemma {:induction false} RunIs(t: string, i: nat, low: char, high: char)
    requires i <= |t|
    ensures forall k :: i <= k < M.RunEnd(t, i, low, high) ==> M.IsDigit(t[k]) || low <= t[k] <= high
    decreases |t| - i
  {
    if i < M.RunEnd(t, i, low, high) { RunIs(t, i + 1, low, high); }
  }

  lemma {:induction false} AbiTagIs(t: string, w: bool, i: nat)
    requires i <= |t| && M.AbiTag(t, i).At? && (w ==> CleanAbiTag(t, i))
    ensures IsWord(t, w, AbiTag, i, M.AbiTag(t, i).i)
  {
    SourceNameIs(t, w, i + 1);
    Alt2(t, w, AbiTag, Char('B'), SourceName, i, i + 1, M.AbiTag(t, i).i);
  }

  lemma {:induction false} AbiTagsIs(t: string, w: bool, i: nat)
    requires i <= |t| && M.AbiTags(t, i).At? && (w ==> CleanAbiTags(t, i))
    ensures IsWord(t, w, AbiTags, i, M.AbiTags(t, i).i)
    decreases |t| - i, 0
  {
    AbiTagIs(t, w, i);
    var j, end := M.AbiTag(t, i).i, M.AbiTags(t, i).i;
    if M.AbiTag(t, j).At? {
      AbiTagsIs(t, w, j);
      Alt2(t, w, AbiTags, Sub(AbiTag), Sub(AbiTags), i, j, end);
    } else if end == j {
      Alt1(t, w, AbiTags, Sub(AbiTag), i, j);
    } else {
      Alt2(t, w, AbiTags, Sub(AbiTag), Char('B'), i, j, end);
    }
  }

  lemma {:induction false} DiscriminatorIs(t: string, w: bool, i: nat)
    requires i <= |t| && M.Discriminator(t, i).At?
    ensures IsWord(t, w, Discriminator, i, M.Discriminator(t, i).i)
  {
    NumberIs(t, w, i + 1);
    Alt2(t, w, Discriminator, Char('_'), Number, i, i + 1, M.Discriminator(t, i).i);
  }

  lemma MaybeDiscriminatorIs(t: string, w: bool, i: nat)
    requires i <= |t|
    ensures IsSymbol(t, w, Maybe(Sub(Discriminator)), i, M.Discriminator(t, i).Or(i))
  {
    if M.Discriminator(t, i).At? { DiscriminatorIs(t, w, i); }
  }

  lemma {:induction false} LocalSourceNameIs(t: string, w: bool, i: nat)
    requires i <= |t| && M.LocalSourceName(t, i).At? && (w ==> CleanLocalSourceName(t, i))
    ensures IsWord(t, w, LocalSourceName, i, M.LocalSourceName(t, i).i)
  {
    hide IsWord, IsSequence, M.SourceName, CleanSourceName;
    var k := M.SourceName(t, i + 1).i;
    SourceNameIs(t, w, i + 1);
    MaybeDiscriminatorIs(t, w, k);
    Alt3(t, w, LocalSourceName, Char('L'), SourceName, Maybe(Sub(Discriminator)),
         i, i + 1, k, M.LocalSourceName(t, i).i);
  }

  lemma {:induction false} CallOffsetIs(t: string, w: bool, i: nat)
    requires i <= |t| && M.CallOffset(t, i).At?
    ensures IsWord(t, w, CallOffset, i, M.CallOffset(t, i).i)
  {
    if M.NonVirtualOffset(t, i).At? {
      NumberIs(t, w, i + 1);
      Alt3(t, w, CallOffset, Char('h'), Number, Char('_'), i, i + 1, M.Number(t, i + 1).i, M.CallOffset(t, i).i);
    } else {
      VirtualOffsetIs(t, w, i);
    }
  }

  lemma VirtualOffsetIs(t: string, w: bool, i: nat)
    requires i <= |t| && M.VirtualOffset(t, i).At?
    ensures IsWord(t, w, CallOffset, i, M.VirtualOffset(t, i).i)
  {
    var k := M.Number(t, i + 1).i;
    NumberIs(t, w, i + 1);
    NumberIs(t, w, k + 1);
    Alt5(t, w, CallOffset, Char('v'), Number, Char('_'), Number, Char('_'),
         i, i + 1, k, k + 1, M.VOffset(t, i + 1).i, M.VirtualOffset(t, i).i);
  }

  lemma {:induction false} CVQualifiersIs(t: string, w: bool, i: nat)
    requires i <= |t| && M.CVQualifiers(t, i).At?
    ensures IsWord(t, w, CVQualifiers, i, M.CVQualifiers(t, i).i)
  {
    hide IsWord, IsSequence;
    if M.Tok(t, i, 'r').At? {
      if M.Tok(t, i + 1, 'V').At? {
        if M.Tok(t, i + 2, 'K').At? {
          Alt3(t, w, CVQualifiers, Char('r'), Char('V'), Char('K'), i, i + 1, i + 2, i + 3);
        } else {
          Alt2(t, w, CVQualifiers, Char('r'), Char('V'), i, i + 1, i + 2);
        }
      } else if M.Tok(t, i + 1, 'K').At? {
        Alt2(t, w, CVQualifiers, Char('r'), Char('K'), i, i + 1, i + 2);
      } else {
        Alt1(t, w, CVQualifiers, Char('r'), i, i + 1);
      }
    } else if M.Tok(t, i, 'V').At? {
      if M.Tok(t, i + 1, 'K').At? {
        Alt2(t, w, CVQualifiers, Char('V'), Char('K'), i, i + 1, i + 2);
      } else {
        Alt1(t, w, CVQualifiers, Char('V'), i, i + 1);
      }
    } else {
      Alt1(t, w, CVQualifiers, Char('K'), i, i + 1);
    }
  }

  lemma {:induction false} CtorDtorNameIs(t: string, w: bool, i: nat)
    requires i <= |t| && M.CtorDtorName(t, i).At?
    ensures IsWord(t, w, CtorDtorName, i, M.CtorDtorName(t, i).i)
  {
    if t[i] == 'C' {
      Alt2(t, w, CtorDtorName, Char('C'), Among("123"), i, i + 1, i + 2);
    } else {
      Alt2(t, w, CtorDtorName, Char('D'), Among("012"), i, i + 1, i + 2);
    }
  }

  lemma {:induction false} TemplateParamIs(t: string, w: bool, i: nat)
    requires i <= |t| && M.TemplateParam(t, i).At? && (w ==> CleanTemplateParam(t, i))
    ensures IsWord(t, w, TemplateParam, i, M.TemplateParam(t, i).i)
  {
    if M.Tok2(t, i, 'T', '_').At? {
      Alt2(t, w, TemplateParam, Char('T'), Char('_'), i, i + 1, i + 2);
    } else {
      var k := M.Number(t, i + 1).i;
      NumberIs(t, w, i + 1);
      DigitsAre(t, M.DigitsStart(t, i + 1));
      Alt3(t, w, TemplateParam, Char('T'), if w then Digits else Number, Char('_'), i, i + 1, k, k + 1);
    }
  }

  lemma {:induction false} SubstitutionIs(t: string, w: bool, i: nat)
    requires i <= |t| && M.Substitution(t, i).At?
    ensures IsWord(t, w, Substitution, i, M.Substitution(t, i).i)
  {
    if M.Tok2(t, i, 'S', '_').At? {
      Alt2(t, w, Substitution, Char('S'), Char('_'), i, i + 1, i + 2);
    } else {
      var k := M.RunEnd(t, i + 1, 'A', 'Z');
      if k > i + 1 && k < |t| && t[k] == '_' {
        RunIs(t, i + 1, 'A', 'Z');
        assert IsSymbol(t, w, SeqId, i + 1, k);
        Alt3(t, w, Substitution, Char('S'), SeqId, Char('_'), i, i + 1, k, k + 1);
      } else {
        Alt2(t, w, Substitution, Char('S'), Abbreviation, i, i + 1, i + 2);
      }
    }
  }

  lemma {:induction false} TemplateTemplateParamIs(t: string, w: bool, i: nat)
    requires i <= |t| && M.TemplateTemplateParam(t, i).At? && (w ==> CleanTemplateTemplateParam(t, i))
    ensures IsWord(t, w, TemplateTemplateParam, i, M.TemplateTemplateParam(t, i).i)
  {
    hide IsWord, IsSequence, M.TemplateParam, M.Substitution;
    if M.TemplateParam(t, i).At? {
      TemplateParamIs(t, w, i);
      Alt1(t, w, TemplateTemplateParam, Sub(TemplateParam), i, M.TemplateParam(t, i).i);
    } else {
      SubstitutionIs(t, w, i);
      Alt1(t, w, TemplateTemplateParam, Sub(Substitution), i, M.Substitution(t, i).i);
    }
  }

  lemma {:induction false} BuiltinTypeIs(t: string, w: bool, i: nat)
    requires i <= |t| && M.BuiltinType(t, i).At? && (w ==> CleanBuiltinType(t, i))
    ensures IsWord(t, w, BuiltinType, i, M.BuiltinType(t, i).i)
  {
    if M.IsBuiltin(t[i]) {
      Alt1(t, w, BuiltinType, BuiltinLetter, i, i + 1);
    } else {
      SourceNameIs(t, w, i + 1);
      Alt2(t, w, BuiltinType, Char('u'), SourceName, i, i + 1, M.BuiltinType(t, i).i);
    }
  }

  lemma VendorOperatorIs(t: string, w: bool, i: nat)
    requires i <= |t| && M.VendorOperator(t, i).At? && (w ==> CleanSourceName(t, i + 2))
    ensures IsWord(t, w, OperatorName, i, M.VendorOperator(t, i).i)
  {
    hide IsWord, IsSequence, M.SourceName, CleanSourceName;
    SourceNameIs(t, w, i + 2);
    Alt3(t, w, OperatorName, Char('v'), Among("0123456789"), SourceName, i, i + 1, i + 2, M.VendorOperator(t, i).i);
  }

  lemma {:induction false} OperatorNameIs(t: string, w: bool, i: nat)
    requires i <= |t| && M.OperatorName(t, i).At? && (w ==> CleanOperatorName(t, i))
    ensures IsWord(t, w, OperatorName, i, M.OperatorName(t, i).i)
    decreases |t| - i, 1
  {
    hide IsWord, IsSequence, M.Type, CleanType;
    if M.CastOperator(t, i).At? {
      TypeIs(t, w, i + 2);
      Alt3(t, w, OperatorName, Char('c'), Char('v'), Sub(Type), i, i + 1, i + 2, M.CastOperator(t, i).i);
    } else if M.VendorOperator(t, i).At? {
      VendorOperatorIs(t, w, i);
    } else {
      Alt1(t, w, OperatorName, Operator, i, i + 2);
    }
  }

  function OperatorSymbol(w: bool, n: nat): Symbol {
    if w then Sub(OperatorFor(n)) else Sub(OperatorName)
  }

  lemma VendorOperatorTakes(t: string, i: nat, n: nat)
    requires i <= |t| && M.VendorOperator(t, i).At? && CleanSourceName(t, i + 2) && t[i + 1] == DigitFor(n)
    ensures IsWord(t, true, OperatorFor(n), i, M.VendorOperator(t, i).i)
  {
    hide IsWord, IsSequence, M.SourceName, CleanSourceName;
    SourceNameIs(t, true, i + 2);
    Alt3(t, true, OperatorFor(n), Char('v'), Char(DigitFor(n)), SourceName, i, i + 1, i + 2, M.VendorOperator(t, i).i);
  }

  /** An operator in front of its operands. */
  lemma {:induction false} OperatorIs(t: string, w: bool, i: nat, n: nat)
    requires i <= |t| && 1 <= n <= 3 && M.OperatorName(t, i).At?
    requires w ==> CleanOperatorName(t, i) && Takes(t, i, n)
    ensures IsSymbol(t, w, OperatorSymbol(w, n), i, M.OperatorName(t, i).i)
    decreases |t| - i, 2
  {
    hide IsWord, IsSequence, M.Type, M.VendorOperator, M.SourceName, CleanType, CleanSourceName;
    if !w {
      OperatorNameIs(t, w, i);
    } else if M.CastOperator(t, i).At? {
      TypeIs(t, w, i + 2);
      Alt3(t, w, OperatorFor(1), Char('c'), Char('v'), Sub(Type), i, i + 1, i + 2, M.CastOperator(t, i).i);
    } else if M.VendorOperator(t, i).At? {
      VendorOperatorTakes(t, i, n);
    } else {
      Alt1(t, w, OperatorFor(n), Taking(n), i, i + 2);
    }
  }

  /** A name with tags behind it or without. */
  lemma TaggedIs(t: string, w: bool, i: nat, j: nat, name: Symbol)
    requires j <= |t| && (name == SourceName || name == Sub(LocalSourceName)) && IsSymbol(t, w, name, i, j)
    requires !M.AbiTags(t, j).Back? && (w ==> CleanAbiTags(t, j))
    ensures IsWord(t, w, UnqualifiedName, i, M.AbiTags(t, j).Opt(j).i)
  {
    if M.AbiTags(t, j).At? { AbiTagsIs(t, w, j); }
    Alt2(t, w, UnqualifiedName, name, Maybe(Sub(AbiTags)), i, j, M.AbiTags(t, j).Opt(j).i);
  }

  lemma {:induction false} UnqualifiedNameIs(t: string, w: bool, i: nat)
    requires i <= |t| && M.UnqualifiedName(t, i).At? && (w ==> CleanUnqualifiedName(t, i))
    ensures IsWord(t, w, UnqualifiedName, i, M.UnqualifiedName(t, i).i)
    decreases |t| - i, 2
  {
    hide IsWord, IsSequence, M.OperatorName, M.SourceName, CleanOperatorName, CleanSourceName;
    if M.OperatorName(t, i).At? {
      OperatorNameIs(t, w, i);
      Alt1(t, w, UnqualifiedName, Sub(OperatorName), i, M.UnqualifiedName(t, i).i);
    } else if M.CtorDtorName(t, i).At? {
      CtorDtorNameIs(t, w, i);
      Alt1(t, w, UnqualifiedName, Sub(CtorDtorName), i, M.UnqualifiedName(t, i).i);
    } else if M.SourceName(t, i).At? {
      SourceNameIs(t, w, i);
      TaggedIs(t, w, i, M.SourceName(t, i).i, SourceName);
    } else {
      LocalSourceNameIs(t, w, i);
      TaggedIs(t, w, i, M.LocalSourceName(t, i).i, Sub(LocalSourceName));
    }
  }

  lemma {:induction false} UnscopedNameIs(t: string, w: bool, i: nat)
    requires i <= |t| && M.UnscopedName(t, i).At? && (w ==> CleanUnscopedName(t, i))
    ensures IsWord(t, w, UnscopedName, i, M.UnscopedName(t, i).i)
    decreases |t| - i, 3
  {
    if M.UnqualifiedName(t, i).At? {
      UnqualifiedNameIs(t, w, i);
      Alt1(t, w, UnscopedName, Sub(UnqualifiedName), i, M.UnscopedName(t, i).i);
    } else {
      UnqualifiedNameIs(t, w, i + 2);
      Alt3(t, w, UnscopedName, Char('S'), Char('t'), Sub(UnqualifiedName), i, i + 1, i + 2, M.UnscopedName(t, i).i);
    }
  }

  lemma {:induction false} UnscopedTemplateNameIs(t: string, w: bool, i: nat)
    requires i <= |t| && M.UnscopedTemplateName(t, i).At? && (w ==> CleanUnscopedTemplateName(t, i))
    ensures IsWord(t, w, UnscopedTemplateName, i, M.UnscopedTemplateName(t, i).i)
    decreases |t| - i, 4
  {
    if M.UnscopedName(t, i).At? {
      UnscopedNameIs(t, w, i);
      Alt1(t, w, UnscopedTemplateName, Sub(UnscopedName), i, M.UnscopedTemplateName(t, i).i);
    } else {
      SubstitutionIs(t, w, i);
      Alt1(t, w, UnscopedTemplateName, Sub(Substitution), i, M.UnscopedTemplateName(t, i).i);
    }
  }

  /** One more component behind what was read of a prefix from s to i. */
  lemma {:induction false} ComponentIs(t: string, w: bool, s: nat, i: nat)
    requires s <= i <= |t| && M.Component(t, i).At? && IsWord(t, w, Prefix, s, i)
    requires w && (M.TemplateParam(t, i).At? || M.Substitution(t, i).At?) ==> s == i && CleanTemplateParam(t, i)
    requires w && M.TemplateParam(t, i).Fail? && M.Substitution(t, i).Fail? ==>
               M.UnqualifiedName(t, i).At? && CleanUnqualifiedName(t, i)
    ensures IsWord(t, w, Prefix, s, M.Component(t, i).i) && IsWord(t, w, TemplatePrefix, s, M.Component(t, i).i)
    ensures w && M.TemplateParam(t, i).Fail? && M.Substitution(t, i).Fail? ==>
              IsWord(t, w, NestedBody, s, M.Component(t, i).i)
    decreases |t| - i, 4
  {
    var j := M.Component(t, i).i;
    if M.TemplateParam(t, i).At? {
      TemplateParamIs(t, w, i);
      ParameterComponent(t, w, s, i, j, TemplateParam);
    } else if M.Substitution(t, i).At? {
      SubstitutionIs(t, w, i);
      ParameterComponent(t, w, s, i, j, Substitution);
    } else {
      NameComponent(t, w, s, i);
    }
  }

  lemma ParameterComponent(t: string, w: bool, s: nat, i: nat, j: nat, r: Rule)
    requires (r == TemplateParam || r == Substitution) && IsWord(t, w, r, i, j)
    requires IsWord(t, w, Prefix, s, i) && (w ==> s == i)
    ensures IsWord(t, w, Prefix, s, j) && IsWord(t, w, TemplatePrefix, s, j)
  {
    if w {
      Alt1(t, w, Prefix, Sub(r), i, j);
      Alt1(t, w, TemplatePrefix, Sub(r), i, j);
    } else {
      Alt2(t, w, Prefix, Sub(Prefix), Sub(r), s, i, j);
      Alt2(t, w, TemplatePrefix, Sub(Prefix), Sub(r), s, i, j);
    }
  }

  lemma {:induction false} NameComponent(t: string, w: bool, s: nat, i: nat)
    requires s <= i <= |t| && M.UnscopedName(t, i).At? && IsWord(t, w, Prefix, s, i)
    requires w ==> M.UnqualifiedName(t, i).At? && CleanUnqualifiedName(t, i)
    ensures IsWord(t, w, Prefix, s, M.UnscopedName(t, i).i) && IsWord(t, w, TemplatePrefix, s, M.UnscopedName(t, i).i)
    ensures w ==> IsWord(t, w, NestedBody, s, M.UnscopedName(t, i).i)
    decreases |t| - i, 3
  {
    hide IsWord, IsSequence, M.UnqualifiedName, CleanUnqualifiedName;
    var j := M.UnscopedName(t, i).i;
    if M.UnqualifiedName(t, i).At? {
      UnqualifiedNameIs(t, w, i);
      Alt2(t, w, Prefix, Sub(Prefix), Sub(UnqualifiedName), s, i, j);
      Alt2(t, w, TemplatePrefix, Sub(Prefix), Sub(UnqualifiedName), s, i, j);
      Alt2(t, w, NestedBody, Sub(Prefix), Sub(UnqualifiedName), s, i, j);
    } else {
      UnqualifiedNameIs(t, w, i + 2);
      Alt4(t, w, Prefix, Sub(Prefix), Char('S'), Char('t'), Sub(UnqualifiedName), s, i, i + 1, i + 2, j);
      Alt4(t, w, TemplatePrefix, Sub(Prefix), Char('S'), Char('t'), Sub(UnqualifiedName), s, i, i + 1, i + 2, j);
    }
  }

  /** What was read from s to i is a prefix, the rest is read from i on, and together they are the body of a name. */
  lemma {:induction false} PrefixIs(t: string, w: bool, s: nat, i: nat, some: bool, ends: bool)
    requires s <= i <= |t| && M.Prefix(t, i, some).At? && IsWord(t, w, Prefix, s, i)
    requires some ==> IsWord(t, w, TemplatePrefix, s, i)
    requires w ==> CleanPrefix(t, i, some, s == i, ends) && (ends ==> IsWord(t, w, NestedBody, s, i))
    ensures IsWord(t, w, NestedBody, s, M.Prefix(t, i, some).i)
    decreases |t| - i, 5
  {
    hide IsWord, IsSequence;
    if M.Component(t, i).At? {
      ComponentIs(t, w, s, i);
      PrefixIs(t, w, s, M.Component(t, i).i, true, M.TemplateParam(t, i).Fail? && M.Substitution(t, i).Fail?);
    } else if some && M.TemplateArgs(t, i).At? {
      var j := M.TemplateArgs(t, i).i;
      TemplateArgsIs(t, w, i);
      Alt2(t, w, Prefix, Sub(TemplatePrefix), Sub(TemplateArgs), s, i, j);
      Alt2(t, w, NestedBody, Sub(TemplatePrefix), Sub(TemplateArgs), s, i, j);
      PrefixIs(t, w, s, j, false, true);
    } else if !w {
      Alt1(t, w, NestedBody, Sub(Prefix), s, i);
    }
  }

  lemma EmptyPrefix(t: string, w: bool, i: nat)
    ensures IsWord(t, w, Prefix, i, i)
  {
    assert IsSequence(t, w, [], i, i) && MayUse(w, Prefix, []);
  }

  lemma {:induction false} NestedNameIs(t: string, w: bool, i: nat)
    requires i <= |t| && M.NestedName(t, i).At? && (w ==> CleanNestedName(t, i))
    ensures IsWord(t, w, NestedName, i, M.NestedName(t, i).i)
    decreases |t| - i, 0
  {
    hide IsWord, IsSequence, M.CVQualifiers, M.Prefix, CleanPrefix;
    var end, k := M.NestedName(t, i).i, M.CVQualifiers(t, i + 1).Or(i + 1);
    if M.CVQualifiers(t, i + 1).At? { CVQualifiersIs(t, w, i + 1); }
    EmptyPrefix(t, w, k);
    PrefixIs(t, w, k, k, false, false);
    Alt4(t, w, NestedName, Char('N'), Maybe(Sub(CVQualifiers)), Sub(NestedBody), Char('E'), i, i + 1, k, end - 1, end);
  }

  lemma {:induction false} NameIs(t: string, w: bool, i: nat)
    requires i <= |t| && M.Name(t, i).At? && (w ==> CleanName(t, i))
    ensures IsWord(t, w, Name, i, M.Name(t, i).i)
    decreases |t| - i, 5
  {
    var end := M.Name(t, i).i;
    if M.NestedName(t, i).At? {
      NestedNameIs(t, w, i);
      Alt1(t, w, Name, Sub(NestedName), i, end);
    } else if M.LocalName(t, i).At? {
      LocalNameIs(t, w, i);
      Alt1(t, w, Name, Sub(LocalName), i, end);
    } else {
      PlainNameIs(t, w, i);
    }
  }

  /** The last two alternatives of a name. */
  lemma {:induction false} PlainNameIs(t: string, w: bool, i: nat)
    requires i <= |t| && M.Name(t, i).At? && M.NestedName(t, i).Fail? && M.LocalName(t, i).Fail? &&
             (w ==> CleanName(t, i))
    ensures IsWord(t, w, Name, i, M.Name(t, i).i)
    decreases |t| - i, 5, 0
  {
    var u := M.UnscopedTemplateName(t, i);
    if u.At? && M.TemplateArgs(t, u.i).At? {
      UnscopedTemplateNameIs(t, w, i);
      TemplateArgsIs(t, w, u.i);
      Alt2(t, w, Name, Sub(UnscopedTemplateName), Sub(TemplateArgs), i, u.i, M.Name(t, i).i);
    } else {
      UnscopedNameIs(t, w, i);
      Alt1(t, w, Name, Sub(UnscopedName), i, M.Name(t, i).i);
    }
  }

  lemma {:induction false} EncodingIs(t: string, w: bool, i: nat)
    requires i <= |t| && M.Encoding(t, i).At? && (w ==> CleanEncoding(t, i))
    ensures IsWord(t, w, Encoding, i, M.Encoding(t, i).i)
    decreases |t| - i, 6
  {
    hide IsWord, IsSequence, M.Name, M.BareFunctionType, CleanName, CleanBareFunctionType;
    var n := M.Name(t, i);
    if n.At? {
      NameIs(t, w, i);
      if M.BareFunctionType(t, n.i).At? {
        BareFunctionTypeIs(t, w, n.i);
        Alt2(t, w, Encoding, Sub(Name), Sub(BareFunctionType), i, n.i, M.Encoding(t, i).i);
      } else {
        Alt1(t, w, Encoding, Sub(Name), i, n.i);
      }
    } else {
      SpecialNameIs(t, w, i);
      Alt1(t, w, Encoding, Sub(SpecialName), i, M.Encoding(t, i).i);
    }
  }

  lemma {:induction false} MangledNameIs(t: string, w: bool, i: nat)
    requires i <= |t| && M.MangledName(t, i).At? && (w ==> CleanMangledName(t, i))
    ensures IsWord(t, w, MangledName, i, M.MangledName(t, i).i)
    decreases |t| - i, 0
  {
    EncodingIs(t, w, i + 2);
    Alt3(t, w, MangledName, Char('_'), Char('Z'), Sub(Encoding), i, i + 1, i + 2, M.MangledName(t, i).i);
  }

  lemma {:induction false} SpecialDataIs(t: string, w: bool, i: nat)
    requires i <= |t| && M.SpecialData(t, i).At? && (w ==> CleanSpecialData(t, i))
    ensures IsWord(t, w, SpecialName, i, M.SpecialData(t, i).i)
    decreases |t| - i, 0
  {
    hide IsWord, IsSequence, M.Type, CleanType;
    TypeIs(t, w, i + 2);
    Alt3(t, w, SpecialName, Char('T'), Among("VTIS"), Sub(Type), i, i + 1, i + 2, M.SpecialData(t, i).i);
  }

  lemma {:induction false} CovariantThunkIs(t: string, w: bool, i: nat)
    requires i <= |t| && M.CovariantThunk(t, i).At? && (w ==> CleanCovariantThunk(t, i))
    ensures IsWord(t, w, SpecialName, i, M.CovariantThunk(t, i).i)
    decreases |t| - i, 0
  {
    hide IsWord, IsSequence, M.CallOffset, M.Encoding, CleanEncoding;
    var k := M.CallOffset(t, i + 2).i;
    var l := M.CallOffset(t, k).i;
    CallOffsetIs(t, w, i + 2);
    CallOffsetIs(t, w, k);
    EncodingIs(t, w, l);
    Alt5(t, w, SpecialName, Char('T'), Char('c'), Sub(CallOffset), Sub(CallOffset), Sub(Encoding),
         i, i + 1, i + 2, k, l, M.CovariantThunk(t, i).i);
  }

  lemma {:induction false} ThunkIs(t: string, w: bool, i: nat)
    requires i <= |t| && M.Thunk(t, i).At? && (w ==> CleanThunk(t, i))
    ensures IsWord(t, w, SpecialName, i, M.Thunk(t, i).i)
    decreases |t| - i, 0
  {
    hide IsWord, IsSequence, M.Name, M.CallOffset, M.Encoding, CleanName, CleanEncoding;
    var end := M.Thunk(t, i).i;
    if t[i] == 'G' {
      NameIs(t, w, i + 2);
      Alt3(t, w, SpecialName, Char('G'), Char('V'), Sub(Name), i, i + 1, i + 2, end);
    } else {
      var k := M.CallOffset(t, i + 1).i;
      CallOffsetIs(t, w, i + 1);
      EncodingIs(t, w, k);
      Alt3(t, w, SpecialName, Char('T'), Sub(CallOffset), Sub(Encoding), i, i + 1, k, end);
    }
  }

  lemma {:induction false} ConstructionTableIs(t: string, w: bool, i: nat)
    requires i <= |t| && M.ConstructionTable(t, i).At? && (w ==> CleanConstructionTable(t, i))
    ensures IsWord(t, w, SpecialName, i, M.ConstructionTable(t, i).i)
    decreases |t| - i, 0
  {
    hide IsWord, IsSequence, M.Type, M.Number, CleanType;
    var k := M.Type(t, i + 2).i;
    var l := M.Number(t, k).i;
    TypeIs(t, w, i + 2);
    NumberIs(t, w, k);
    TypeIs(t, w, l + 1);
    Alt6(t, w, SpecialName, Char('T'), Char('C'), Sub(Type), Number, Char('_'), Sub(Type),
         i, i + 1, i + 2, k, l, l + 1, M.ConstructionTable(t, i).i);
  }

  lemma {:induction false} SpecialExtensionIs(t: string, w: bool, i: nat)
    requires i <= |t| && M.SpecialExtension(t, i).At? && (w ==> CleanSpecialExtension(t, i))
    ensures IsWord(t, w, SpecialName, i, M.SpecialExtension(t, i).i)
    decreases |t| - i, 0
  {
    hide IsWord, IsSequence, M.Type, M.Name, CleanType, CleanName;
    var end := M.SpecialExtension(t, i).i;
    if t[i] == 'T' {
      TypeIs(t, w, i + 2);
      Alt3(t, w, SpecialName, Char('T'), Among("FJ"), Sub(Type), i, i + 1, i + 2, end);
    } else {
      NameIs(t, w, i + 2);
      Alt3(t, w, SpecialName, Char('G'), Char('R'), Sub(Name), i, i + 1, i + 2, end);
    }
  }

  lemma {:induction false} NamedThunkIs(t: string, w: bool, i: nat)
    requires i <= |t| && M.NamedThunk(t, i).At? && (w ==> CleanNamedThunk(t, i))
    ensures IsWord(t, w, SpecialName, i, M.NamedThunk(t, i).i)
    decreases |t| - i, 0
  {
    hide IsWord, IsSequence, M.Encoding, M.CallOffset, CleanEncoding;
    var end := M.NamedThunk(t, i).i;
    if t[i] == 'G' {
      EncodingIs(t, w, i + 2);
      Alt3(t, w, SpecialName, Char('G'), Char('A'), Sub(Encoding), i, i + 1, i + 2, end);
    } else {
      var l := M.CallOffset(t, i + 2).i;
      CallOffsetIs(t, w, i + 2);
      EncodingIs(t, w, l);
      Alt4(t, w, SpecialName, Char('T'), Among("hv"), Sub(CallOffset), Sub(Encoding), i, i + 1, i + 2, l, end);
    }
  }

  lemma {:induction false} SpecialNameIs(t: string, w: bool, i: nat)
    requires i <= |t| && M.SpecialName(t, i).At? && (w ==> CleanSpecialName(t, i))
    ensures IsWord(t, w, SpecialName, i, M.SpecialName(t, i).i)
    decreases |t| - i, 1
  {
    if M.SpecialData(t, i).At? {
      SpecialDataIs(t, w, i);
    } else if M.CovariantThunk(t, i).At? {
      CovariantThunkIs(t, w, i);
    } else if M.Thunk(t, i).At? {
      ThunkIs(t, w, i);
    } else if M.ConstructionTable(t, i).At? {
      ConstructionTableIs(t, w, i);
    } else if M.SpecialExtension(t, i).At? {
      SpecialExtensionIs(t, w, i);
    } else {
      NamedThunkIs(t, w, i);
    }
  }

  lemma {:induction false} QualifiedTypeIs(t: string, w: bool, i: nat)
    requires i <= |t| && M.QualifiedType(t, i).At? && (w ==> CleanQualifiedType(t, i))
    ensures IsWord(t, w, Type, i, M.QualifiedType(t, i).i)
    decreases |t| - i, 1
  {
    hide IsWord, IsSequence, M.CVQualifiers, M.Type, CleanType;
    var end := M.QualifiedType(t, i).i;
    if M.CVQualifiedType(t, i).At? {
      var j := M.CVQualifiers(t, i).i;
      CVQualifiersIs(t, w, i);
      TypeIs(t, w, j);
      Alt2(t, w, Type, Sub(CVQualifiers), Sub(Type), i, j, end);
    } else if M.ReferenceType(t, i).At? {
      TypeIs(t, w, i + 1);
      Alt2(t, w, Type, Among("OPRCG"), Sub(Type), i, i + 1, end);
    } else {
      TypeIs(t, w, i + 2);
      Alt3(t, w, Type, Char('D'), Char('p'), Sub(Type), i, i + 1, i + 2, end);
    }
  }

  lemma {:induction false} DecltypeIs(t: string, w: bool, i: nat)
    requires i <= |t| && M.Decltype(t, i).At? && (w ==> CleanDecltype(t, i))
    ensures IsWord(t, w, Type, i, M.Decltype(t, i).i)
    decreases |t| - i, 0
  {
    hide IsWord, IsSequence, M.Expression, CleanExpression;
    var end := M.Decltype(t, i).i;
    ExpressionIs(t, w, i + 2);
    Alt4(t, w, Type, Char('D'), Among("tT"), Sub(Expression), Char('E'), i, i + 1, i + 2, end - 1, end);
  }

  lemma {:induction false} VendorTypeIs(t: string, w: bool, i: nat)
    requires i <= |t| && M.VendorType(t, i).At? && (w ==> CleanVendorType(t, i))
    ensures IsWord(t, w, Type, i, M.VendorType(t, i).i)
    decreases |t| - i, 0
  {
    var k := M.SourceName(t, i + 1).i;
    SourceNameIs(t, w, i + 1);
    TypeIs(t, w, k);
    Alt3(t, w, Type, Char('U'), SourceName, Sub(Type), i, i + 1, k, M.VendorType(t, i).i);
  }

  lemma {:induction false} ExtendedTypeIs(t: string, w: bool, i: nat)
    requires i <= |t| && M.ExtendedType(t, i).At? && (w ==> CleanExtendedType(t, i))
    ensures IsWord(t, w, Type, i, M.ExtendedType(t, i).i)
    decreases |t| - i, 1
  {
    if M.Decltype(t, i).At? {
      DecltypeIs(t, w, i);
    } else {
      VendorTypeIs(t, w, i);
    }
  }

  lemma {:induction false} TypeIs(t: string, w: bool, i: nat)
    requires i <= |t| && M.Type(t, i).At? && (w ==> CleanType(t, i))
    ensures IsWord(t, w, Type, i, M.Type(t, i).i)
    decreases |t| - i, 8
  {
    var end := M.Type(t, i).i;
    if M.QualifiedType(t, i).At? {
      QualifiedTypeIs(t, w, i);
    } else if M.ExtendedType(t, i).At? {
      ExtendedTypeIs(t, w, i);
    } else if M.PlainType(t, i).At? {
      PlainTypeIs(t, w, i);
      Alt1(t, w, Type, Sub(PlainType), i, end);
    } else {
      ParameterTypeIs(t, w, i);
    }
  }

  /** The last two alternatives of a type. */
  lemma {:induction false} ParameterTypeIs(t: string, w: bool, i: nat)
    requires i <= |t| && M.Type(t, i).At? && (w ==> CleanParameterType(t, i))
    requires M.QualifiedType(t, i).Fail? && M.ExtendedType(t, i).Fail? && M.PlainType(t, i).Fail?
    ensures IsWord(t, w, Type, i, M.Type(t, i).i)
    decreases |t| - i, 8, 0
  {
    hide IsWord, IsSequence, M.QualifiedType, M.ExtendedType, M.PlainType, M.TemplateArgs, CleanTemplateArgs;
    var p := M.TemplateTemplateParam(t, i);
    if p.At? && M.TemplateArgs(t, p.i).At? {
      TemplateTemplateParamIs(t, w, i);
      TemplateArgsIs(t, w, p.i);
      Alt2(t, w, Type, Sub(TemplateTemplateParam), Sub(TemplateArgs), i, p.i, M.Type(t, i).i);
    } else {
      TemplateParamIs(t, w, i);
      Alt1(t, w, Type, Sub(TemplateParam), i, M.Type(t, i).i);
    }
  }

  lemma {:induction false} PlainTypeIs(t: string, w: bool, i: nat)
    requires i <= |t| && M.PlainType(t, i).At? && (w ==> CleanPlainType(t, i))
    ensures IsWord(t, w, PlainType, i, M.PlainType(t, i).i)
    decreases |t| - i, 7
  {
    hide IsWord, IsSequence, M.Name, M.Substitution, CleanName;
    var end := M.PlainType(t, i).i;
    if M.BuiltinType(t, i).At? {
      BuiltinTypeIs(t, w, i);
      Alt1(t, w, PlainType, Sub(BuiltinType), i, end);
    } else if M.FunctionType(t, i).At? {
      FunctionTypeIs(t, w, i);
      Alt1(t, w, PlainType, Sub(FunctionType), i, end);
    } else if M.Name(t, i).At? {
      NameIs(t, w, i);
      Alt1(t, w, PlainType, Sub(Name), i, end);
    } else if M.ArrayType(t, i).At? {
      ArrayTypeIs(t, w, i);
      Alt1(t, w, PlainType, Sub(ArrayType), i, end);
    } else if M.PointerToMemberType(t, i).At? {
      PointerToMemberTypeIs(t, w, i);
      Alt1(t, w, PlainType, Sub(PointerToMemberType), i, end);
    } else {
      SubstitutionIs(t, w, i);
      Alt1(t, w, PlainType, Sub(Substitution), i, end);
    }
  }

  lemma {:induction false} FunctionTypeIs(t: string, w: bool, i: nat)
    requires i <= |t| && M.FunctionType(t, i).At? && (w ==> CleanFunctionType(t, i))
    ensures IsWord(t, w, FunctionType, i, M.FunctionType(t, i).i)
    decreases |t| - i, 0
  {
    hide IsWord, IsSequence, M.BareFunctionType, CleanBareFunctionType;
    var end, k := M.FunctionType(t, i).i, M.Tok(t, i + 1, 'Y').Or(i + 1);
    BareFunctionTypeIs(t, w, k);
    assert IsSymbol(t, w, Char('Y'), i + 1, k) || k == i + 1;
    Alt4(t, w, FunctionType, Char('F'), Maybe(Char('Y')), Sub(BareFunctionType), Char('E'), i, i + 1, k, end - 1, end);
  }

  lemma {:induction false} BareFunctionTypeIs(t: string, w: bool, i: nat)
    requires i <= |t| && M.BareFunctionType(t, i).At? && (w ==> CleanBareFunctionType(t, i))
    ensures IsWord(t, w, BareFunctionType, i, M.BareFunctionType(t, i).i)
    decreases |t| - i, 9
  {
    hide IsWord, IsSequence, M.Type, CleanType;
    var j := M.Type(t, i).i;
    TypeIs(t, w, i);
    if M.Type(t, j).At? {
      BareFunctionTypeIs(t, w, j);
      Alt2(t, w, BareFunctionType, Sub(Type), Sub(BareFunctionType), i, j, M.BareFunctionType(t, i).i);
    } else {
      Alt1(t, w, BareFunctionType, Sub(Type), i, j);
    }
  }

  lemma {:induction false} NumberedArrayIs(t: string, w: bool, i: nat)
    requires i <= |t| && M.NumberedArray(t, i).At? && (w ==> CleanNumberedArray(t, i))
    ensures IsWord(t, w, ArrayType, i, M.NumberedArray(t, i).i)
    decreases |t| - i, 0
  {
    hide IsWord, IsSequence, M.Number, M.Type, CleanType;
    var k := M.Number(t, i + 1).i;
    NumberIs(t, w, i + 1);
    TypeIs(t, w, k + 1);
    Alt4(t, w, ArrayType, Char('A'), Number, Char('_'), Sub(Type), i, i + 1, k, k + 1, M.NumberedArray(t, i).i);
  }

  lemma {:induction false} MaybeExpressionIs(t: string, w: bool, i: nat)
    requires i <= |t| && !M.Expression(t, i).Back? && (w ==> CleanExpression(t, i))
    ensures IsSymbol(t, w, Maybe(Sub(Expression)), i, M.Expression(t, i).Opt(i).i)
    decreases |t| - i, 6
  {
    hide IsWord, IsSequence, M.Expression;
    if M.Expression(t, i).At? { ExpressionIs(t, w, i); }
  }

  lemma {:induction false} DependentArrayIs(t: string, w: bool, i: nat)
    requires i <= |t| && M.DependentArray(t, i).At? && (w ==> CleanDependentArray(t, i))
    ensures IsWord(t, w, ArrayType, i, M.DependentArray(t, i).i)
    decreases |t| - i, 0
  {
    hide IsWord, IsSequence, M.Type, CleanType;
    var k := M.Expression(t, i + 1).Opt(i + 1).i;
    MaybeExpressionIs(t, w, i + 1);
    TypeIs(t, w, k + 1);
    Alt4(t, w, ArrayType, Char('A'), Maybe(Sub(Expression)), Char('_'), Sub(Type),
         i, i + 1, k, k + 1, M.DependentArray(t, i).i);
  }

  lemma {:induction false} ArrayTypeIs(t: string, w: bool, i: nat)
    requires i <= |t| && M.ArrayType(t, i).At? && (w ==> CleanArrayType(t, i))
    ensures IsWord(t, w, ArrayType, i, M.ArrayType(t, i).i)
    decreases |t| - i, 1
  {
    if M.NumberedArray(t, i).At? {
      NumberedArrayIs(t, w, i);
    } else {
      DependentArrayIs(t, w, i);
    }
  }

  lemma {:induction false} PointerToMemberTypeIs(t: string, w: bool, i: nat)
    requires i <= |t| && M.PointerToMemberType(t, i).At? && (w ==> CleanPointerToMemberType(t, i))
    ensures IsWord(t, w, PointerToMemberType, i, M.PointerToMemberType(t, i).i)
    decreases |t| - i, 0
  {
    hide IsWord, IsSequence, M.Type, CleanType;
    var k := M.Type(t, i + 1).i;
    TypeIs(t, w, i + 1);
    TypeIs(t, w, k);
    Alt3(t, w, PointerToMemberType, Char('M'), Sub(Type), Sub(Type), i, i + 1, k, M.PointerToMemberType(t, i).i);
  }

  lemma {:induction false} TemplateArgsIs(t: string, w: bool, i: nat)
    requires i <= |t| && M.TemplateArgs(t, i).At? && (w ==> CleanTemplateArgs(t, i))
    ensures IsWord(t, w, TemplateArgs, i, M.TemplateArgs(t, i).i)
    decreases |t| - i, 0
  {
    var end := M.TemplateArgs(t, i).i;
    TemplateArgListIs(t, w, i + 1);
    Alt3(t, w, TemplateArgs, Char('I'), Sub(TemplateArgList), Char('E'), i, i + 1, end - 1, end);
  }

  lemma {:induction false} TemplateArgListIs(t: string, w: bool, i: nat)
    requires i <= |t| && M.TemplateArgList(t, i).At? && (w ==> CleanTemplateArgList(t, i))
    ensures IsWord(t, w, TemplateArgList, i, M.TemplateArgList(t, i).i)
    decreases |t| - i, 10
  {
    hide IsWord, IsSequence, M.TemplateArg, CleanTemplateArg;
    var j := M.TemplateArg(t, i).i;
    TemplateArgIs(t, w, i);
    if M.TemplateArg(t, j).At? {
      TemplateArgListIs(t, w, j);
      Alt2(t, w, TemplateArgList, Sub(TemplateArg), Sub(TemplateArgList), i, j, M.TemplateArgList(t, i).i);
    } else {
      Alt1(t, w, TemplateArgList, Sub(TemplateArg), i, j);
    }
  }

  lemma {:induction false} ArgumentPackIs(t: string, w: bool, i: nat)
    requires i <= |t| && M.ArgumentPack(t, i).At? && (w ==> CleanArgumentPack(t, i))
    ensures IsWord(t, w, TemplateArg, i, M.ArgumentPack(t, i).i)
    decreases |t| - i, 0
  {
    hide IsWord, IsSequence;
    var end := M.ArgumentPack(t, i).i;
    if M.TemplateArg(t, i + 1).At? { TemplateArgListIs(t, w, i + 1); }
    Alt3(t, w, TemplateArg, Among("IJ"), Maybe(Sub(TemplateArgList)), Char('E'), i, i + 1, end - 1, end);
  }

  lemma {:induction false} BracketedExpressionIs(t: string, w: bool, i: nat)
    requires i <= |t| && M.BracketedExpression(t, i).At? && (w ==> CleanBracketedExpression(t, i))
    ensures IsWord(t, w, TemplateArg, i, M.BracketedExpression(t, i).i)
    decreases |t| - i, 0
  {
    hide IsWord, IsSequence, M.Expression, CleanExpression;
    var end := M.BracketedExpression(t, i).i;
    ExpressionIs(t, w, i + 1);
    Alt3(t, w, TemplateArg, Char('X'), Sub(Expression), Char('E'), i, i + 1, end - 1, end);
  }

  lemma {:induction false} TemplateArgIs(t: string, w: bool, i: nat)
    requires i <= |t| && M.TemplateArg(t, i).At? && (w ==> CleanTemplateArg(t, i))
    ensures IsWord(t, w, TemplateArg, i, M.TemplateArg(t, i).i)
    decreases |t| - i, 9
  {
    hide IsWord, IsSequence, M.Type, CleanType;
    var end := M.TemplateArg(t, i).i;
    if M.ArgumentPack(t, i).At? {
      ArgumentPackIs(t, w, i);
    } else if M.Type(t, i).At? {
      TypeIs(t, w, i);
      Alt1(t, w, TemplateArg, Sub(Type), i, end);
    } else if M.ExprPrimary(t, i).At? {
      ExprPrimaryIs(t, w, i);
      Alt1(t, w, TemplateArg, Sub(ExprPrimary), i, end);
    } else {
      BracketedExpressionIs(t, w, i);
    }
  }

  lemma {:induction false} TrinaryIs(t: string, w: bool, i: nat)
    requires i <= |t| && M.Trinary(t, i).At? && (w ==> CleanTrinary(t, i))
    ensures IsWord(t, w, Expression, i, M.Trinary(t, i).i)
    decreases |t| - i, 3
  {
    hide IsWord, IsSequence, M.Expression, CleanExpression;
    var j := M.OperatorName(t, i).i;
    var k := M.Expression(t, j).i;
    var l := M.Expression(t, k).i;
    OperatorIs(t, w, i, 3);
    ExpressionIs(t, w, j);
    ExpressionIs(t, w, k);
    ExpressionIs(t, w, l);
    Alt4(t, w, Expression, OperatorSymbol(w, 3), Sub(Expression), Sub(Expression), Sub(Expression),
         i, j, k, l, M.Trinary(t, i).i);
  }

  lemma {:induction false} BinaryIs(t: string, w: bool, i: nat)
    requires i <= |t| && M.Binary(t, i).At? && (w ==> CleanBinary(t, i))
    ensures IsWord(t, w, Expression, i, M.Binary(t, i).i)
    decreases |t| - i, 3
  {
    hide IsWord, IsSequence, M.Expression, CleanExpression;
    var j := M.OperatorName(t, i).i;
    var k := M.Expression(t, j).i;
    OperatorIs(t, w, i, 2);
    ExpressionIs(t, w, j);
    ExpressionIs(t, w, k);
    Alt3(t, w, Expression, OperatorSymbol(w, 2), Sub(Expression), Sub(Expression), i, j, k, M.Binary(t, i).i);
  }

  lemma {:induction false} UnaryIs(t: string, w: bool, i: nat)
    requires i <= |t| && M.Unary(t, i).At? && (w ==> CleanUnary(t, i))
    ensures IsWord(t, w, Expression, i, M.Unary(t, i).i)
    decreases |t| - i, 3
  {
    hide IsWord, IsSequence, M.Expression, CleanExpression;
    var j := M.OperatorName(t, i).i;
    OperatorIs(t, w, i, 1);
    ExpressionIs(t, w, j);
    Alt2(t, w, Expression, OperatorSymbol(w, 1), Sub(Expression), i, j, M.Unary(t, i).i);
  }

  lemma {:induction false} OperationIs(t: string, w: bool, i: nat)
    requires i <= |t| && M.Operation(t, i).At? && (w ==> CleanOperation(t, i))
    ensures IsWord(t, w, Expression, i, M.Operation(t, i).i)
    decreases |t| - i, 4
  {
    if M.Trinary(t, i).At? {
      TrinaryIs(t, w, i);
    } else if M.Binary(t, i).At? {
      BinaryIs(t, w, i);
    } else {
      UnaryIs(t, w, i);
    }
  }

  lemma {:induction false} SizeofTypeIs(t: string, w: bool, i: nat)
    requires i <= |t| && M.SizeofType(t, i).At? && (w ==> CleanSizeofType(t, i))
    ensures IsWord(t, w, Expression, i, M.SizeofType(t, i).i)
    decreases |t| - i, 0
  {
    hide IsWord, IsSequence, M.Type, CleanType;
    TypeIs(t, w, i + 2);
    Alt3(t, w, Expression, Char('s'), Char('t'), Sub(Type), i, i + 1, i + 2, M.SizeofType(t, i).i);
  }

  lemma {:induction false} ScopedTemplateIs(t: string, w: bool, i: nat)
    requires i <= |t| && M.ScopedTemplate(t, i).At? && (w ==> CleanScopedTemplate(t, i))
    ensures IsWord(t, w, Expression, i, M.ScopedTemplate(t, i).i)
    decreases |t| - i, 0
  {
    hide IsWord, IsSequence, M.Type, M.UnqualifiedName, M.TemplateArgs, CleanType, CleanUnqualifiedName,
      CleanTemplateArgs;
    var k := M.Type(t, i + 2).i;
    var l := M.UnqualifiedName(t, k).i;
    TypeIs(t, w, i + 2);
    UnqualifiedNameIs(t, w, k);
    TemplateArgsIs(t, w, l);
    Alt5(t, w, Expression, Char('s'), Char('r'), Sub(Type), Sub(UnqualifiedName), Sub(TemplateArgs),
         i, i + 1, i + 2, k, l, M.ScopedTemplate(t, i).i);
  }

  lemma {:induction false} ScopedNameIs(t: string, w: bool, i: nat)
    requires i <= |t| && M.ScopedName(t, i).At? && (w ==> CleanScopedName(t, i))
    ensures IsWord(t, w, Expression, i, M.ScopedName(t, i).i)
    decreases |t| - i, 0
  {
    hide IsWord, IsSequence, M.Type, M.UnqualifiedName, CleanType, CleanUnqualifiedName;
    var k := M.Type(t, i + 2).i;
    TypeIs(t, w, i + 2);
    UnqualifiedNameIs(t, w, k);
    Alt4(t, w, Expression, Char('s'), Char('r'), Sub(Type), Sub(UnqualifiedName),
         i, i + 1, i + 2, k, M.ScopedName(t, i).i);
  }

  lemma {:induction false} TypeExpressionIs(t: string, w: bool, i: nat)
    requires i <= |t| && M.TypeExpression(t, i).At? && (w ==> CleanTypeExpression(t, i))
    ensures IsWord(t, w, Expression, i, M.TypeExpression(t, i).i)
    decreases |t| - i, 1
  {
    if M.SizeofType(t, i).At? {
      SizeofTypeIs(t, w, i);
    } else if M.ScopedTemplate(t, i).At? {
      ScopedTemplateIs(t, w, i);
    } else {
      ScopedNameIs(t, w, i);
    }
  }

  lemma {:induction false} ExpressionIs(t: string, w: bool, i: nat)
    requires i <= |t| && M.Expression(t, i).At? && (w ==> CleanExpression(t, i))
    ensures IsWord(t, w, Expression, i, M.Expression(t, i).i)
    decreases |t| - i, 5
  {
    hide IsWord, IsSequence, M.TemplateParam, M.Operation, M.TypeExpression;
    var end := M.Expression(t, i).i;
    if M.TemplateParam(t, i).At? {
      TemplateParamIs(t, w, i);
      Alt1(t, w, Expression, Sub(TemplateParam), i, end);
    } else if M.ExprPrimary(t, i).At? {
      ExprPrimaryIs(t, w, i);
      Alt1(t, w, Expression, Sub(ExprPrimary), i, end);
    } else if M.Operation(t, i).At? {
      OperationIs(t, w, i);
    } else {
      TypeExpressionIs(t, w, i);
    }
  }

  lemma {:induction false} IntegerLiteralIs(t: string, w: bool, i: nat)
    requires i <= |t| && M.IntegerLiteral(t, i).At? && (w ==> CleanIntegerLiteral(t, i))
    ensures IsWord(t, w, ExprPrimary, i, M.IntegerLiteral(t, i).i)
    decreases |t| - i, 0
  {
    hide IsWord, IsSequence, M.Type, M.Number, CleanType;
    var k := M.Type(t, i + 1).i;
    var l := M.Number(t, k).i;
    TypeIs(t, w, i + 1);
    NumberIs(t, w, k);
    Alt4(t, w, ExprPrimary, Char('L'), Sub(Type), Number, Char('E'), i, i + 1, k, l, l + 1);
  }

  lemma {:induction false} FloatLiteralIs(t: string, w: bool, i: nat)
    requires i <= |t| && M.FloatLiteral(t, i).At? && (w ==> CleanFloatLiteral(t, i))
    ensures IsWord(t, w, ExprPrimary, i, M.FloatLiteral(t, i).i)
    decreases |t| - i, 0
  {
    hide IsWord, IsSequence, M.Type, CleanType;
    var k := M.Type(t, i + 1).i;
    var l := M.RunEnd(t, k, 'a', 'f');
    TypeIs(t, w, i + 1);
    RunIs(t, k, 'a', 'f');
    assert IsSymbol(t, w, Hex, k, l);
    Alt4(t, w, ExprPrimary, Char('L'), Sub(Type), Hex, Char('E'), i, i + 1, k, l, l + 1);
  }

  lemma {:induction false} ExternalLiteralIs(t: string, w: bool, i: nat)
    requires i <= |t| && M.ExternalLiteral(t, i).At? && (w ==> CleanExternalLiteral(t, i))
    ensures IsWord(t, w, ExprPrimary, i, M.ExternalLiteral(t, i).i)
    decreases |t| - i, 0
  {
    hide IsWord, IsSequence, M.MangledName, CleanMangledName;
    var end := M.ExternalLiteral(t, i).i;
    MangledNameIs(t, w, i + 1);
    Alt3(t, w, ExprPrimary, Char('L'), Sub(MangledName), Char('E'), i, i + 1, end - 1, end);
  }

  lemma {:induction false} OldLiteralIs(t: string, w: bool, i: nat)
    requires i <= |t| && M.OldLiteral(t, i).At? && (w ==> CleanOldLiteral(t, i))
    ensures IsWord(t, w, ExprPrimary, i, M.OldLiteral(t, i).i)
    decreases |t| - i, 0
  {
    var end := M.OldLiteral(t, i).i;
    EncodingIs(t, w, i + 2);
    Alt4(t, w, ExprPrimary, Char('L'), Char('Z'), Sub(Encoding), Char('E'), i, i + 1, i + 2, end - 1, end);
  }

  lemma {:induction false} ExprPrimaryIs(t: string, w: bool, i: nat)
    requires i <= |t| && M.ExprPrimary(t, i).At? && (w ==> CleanExprPrimary(t, i))
    ensures IsWord(t, w, ExprPrimary, i, M.ExprPrimary(t, i).i)
    decreases |t| - i, 1
  {
    if M.IntegerLiteral(t, i).At? {
      IntegerLiteralIs(t, w, i);
    } else if M.FloatLiteral(t, i).At? {
      FloatLiteralIs(t, w, i);
    } else if M.ExternalLiteral(t, i).At? {
      ExternalLiteralIs(t, w, i);
    } else {
      OldLiteralIs(t, w, i);
    }
  }

  lemma {:induction false} LocalEntityIs(t: string, w: bool, i: nat)
    requires i <= |t| && M.LocalEntity(t, i).At? && (w ==> CleanLocalEntity(t, i))
    ensures IsWord(t, w, LocalName, i, M.LocalEntity(t, i).i)
    decreases |t| - i, 0
  {
    hide IsWord, IsSequence, M.Discriminator, M.Encoding, M.Name, CleanEncoding, CleanName;
    var k := M.Encoding(t, i + 1).i;
    var m := M.Name(t, k + 1).i;
    EncodingIs(t, w, i + 1);
    NameIs(t, w, k + 1);
    MaybeDiscriminatorIs(t, w, m);
    Alt5(t, w, LocalName, Char('Z'), Sub(Encoding), Char('E'), Sub(Name), Maybe(Sub(Discriminator)),
         i, i + 1, k, k + 1, m, M.LocalEntity(t, i).i);
  }

  lemma {:induction false} LocalStringIs(t: string, w: bool, i: nat)
    requires i <= |t| && M.LocalString(t, i).At? && (w ==> CleanLocalString(t, i))
    ensures IsWord(t, w, LocalName, i, M.LocalString(t, i).i)
    decreases |t| - i, 0
  {
    hide IsWord, IsSequence, M.Discriminator, M.Encoding, CleanEncoding;
    var k := M.Encoding(t, i + 1).i;
    EncodingIs(t, w, i + 1);
    MaybeDiscriminatorIs(t, w, k + 2);
    Alt5(t, w, LocalName, Char('Z'), Sub(Encoding), Char('E'), Char('s'), Maybe(Sub(Discriminator)),
         i, i + 1, k, k + 1, k + 2, M.LocalString(t, i).i);
  }

  lemma {:induction false} LocalNameIs(t: string, w: bool, i: nat)
    requires i <= |t| && M.LocalName(t, i).At? && (w ==> CleanLocalName(t, i))
    ensures IsWord(t, w, LocalName, i, M.LocalName(t, i).i)
    decreases |t| - i, 1
  {
    if M.LocalEntity(t, i).At? {
      LocalEntityIs(t, w, i);
    } else {
      LocalStringIs(t, w, i);
    }
  }

  // ---------------------------------------------------------------------------------
  // Main results
  // ---------------------------------------------------------------------------------

  /** What the demangler accepts is a name of the grammar with the code's additions, and a written name if the reading
      of the text is clean. */
  lemma AcceptedIsDerived(t: string)
    requires M.IsMangled(t)
    ensures IsName(t, false)
    ensures CleanMangledName(t, 0) ==> IsName(t, true)
  {
    MangledNameIs(t, false, 0);
    if CleanMangledName(t, 0) { MangledNameIs(t, true, 0); }
  }
}
