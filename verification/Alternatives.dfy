/** Which alternative of a rule the demangler takes is seen from the letters at the place: what begins there with one of
    them is read by that alternative, because the ones tried before it fail. */
module Alternatives {
  import M = Mangling
  import R = Reading
  import Bnf
  import Tokens
  import opened Spelling

  // ---------------------------------------------------------------------------------
  // What does not begin at a place
  // ---------------------------------------------------------------------------------

  lemma NotOperator(t: string, i: nat)
    requires i <= |t| && (i < |t| ==> !M.IsLower(t[i]))
    ensures M.OperatorName(t, i) == M.Fail
  {
    assert M.CastOperator(t, i) == M.Fail && M.VendorOperator(t, i) == M.Fail;
  }

  lemma NotUnqualified(t: string, i: nat)
    requires i <= |t| && (i < |t| ==> !BeginsPart(t[i]))
    ensures M.UnqualifiedName(t, i) == M.Fail
  {
    NotOperator(t, i);
    assert M.CtorDtorName(t, i) == M.Fail && M.SourceName(t, i) == M.Fail && M.LocalSourceName(t, i) == M.Fail;
  }

  lemma NotUnscoped(t: string, i: nat)
    requires i <= |t| && (i < |t| ==> !BeginsPart(t[i])) && !(i + 1 < |t| && t[i] == 'S' && t[i + 1] == 't')
    ensures M.UnscopedName(t, i) == M.Fail
  {
    NotUnqualified(t, i);
  }

  lemma NotNestedOrLocal(t: string, i: nat)
    requires i <= |t|
    ensures i == |t| || t[i] != 'N' ==> M.NestedName(t, i) == M.Fail
    ensures i == |t| || t[i] != 'Z' ==> M.LocalName(t, i) == M.Fail
  {
    if i == |t| || t[i] != 'Z' {
      assert M.LocalEntity(t, i) == M.Fail && M.LocalString(t, i) == M.Fail;
    }
  }

  lemma NotName(t: string, i: nat)
    requires i <= |t| && (i < |t| ==> !BeginsName(t[i]))
    ensures M.Name(t, i) == M.Fail && M.Substitution(t, i) == M.Fail && M.UnscopedName(t, i) == M.Fail
  {
    NotUnscoped(t, i);
    NotNestedOrLocal(t, i);
    hide M.UnscopedName, M.NestedName, M.LocalName;
    assert M.Substitution(t, i) == M.Fail && M.UnscopedTemplateName(t, i) == M.Fail;
  }

  predicate Qualifies(c: char) {
    c == 'r' || c == 'V' || c == 'K'
  }

  /** No qualifier, pointer or the like, and no type that begins with D or U. */
  lemma NotQualified(t: string, i: nat)
    requires i <= |t| && (i < |t| ==> !Qualifies(t[i]) && !IsCompound(t[i]) && t[i] != 'D' && t[i] != 'U')
    ensures M.QualifiedType(t, i) == M.Fail && M.ExtendedType(t, i) == M.Fail
  {
    assert M.CVQualifiers(t, i) == M.Fail && M.OneOf(t, i, "OPRCG") == M.Fail;
    assert M.CVQualifiedType(t, i) == M.Fail && M.ReferenceType(t, i) == M.Fail && M.PackExpansion(t, i) == M.Fail;
    assert M.Decltype(t, i) == M.Fail && M.VendorType(t, i) == M.Fail;
  }

  lemma NotBuiltin(t: string, i: nat)
    requires i <= |t| && (i < |t| ==> !M.IsLower(t[i]))
    ensures M.BuiltinType(t, i) == M.Fail
  {
    if i < |t| && M.IsBuiltin(t[i]) { BuiltinLetter(t[i]); }
  }

  lemma NotFunction(t: string, i: nat)
    requires i <= |t| && (i < |t| ==> t[i] != 'F')
    ensures M.FunctionType(t, i) == M.Fail
  {
  }

  lemma NotArrayOrMember(t: string, i: nat)
    requires i <= |t|
    ensures i == |t| || t[i] != 'A' ==> M.ArrayType(t, i) == M.Fail
    ensures i == |t| || t[i] != 'M' ==> M.PointerToMemberType(t, i) == M.Fail
  {
    if i == |t| || t[i] != 'A' {
      assert M.NumberedArray(t, i) == M.Fail && M.DependentArray(t, i) == M.Fail;
    }
  }

  lemma NotType(t: string, i: nat)
    requires i <= |t| && (i < |t| ==> !BeginsType(t[i]))
    ensures M.Type(t, i) == M.Fail
  {
    NotQualified(t, i);
    NotPlain(t, i);
    hide M.QualifiedType, M.ExtendedType, M.PlainType;
    assert M.TemplateParam(t, i) == M.Fail && M.TemplateTemplateParam(t, i) == M.Fail;
  }

  /** At a template parameter neither. */
  lemma NotPlain(t: string, i: nat)
    requires i <= |t| && (i < |t| ==> t[i] == 'T' || !BeginsType(t[i]))
    ensures M.PlainType(t, i) == M.Fail && M.Substitution(t, i) == M.Fail
  {
    NotName(t, i);
    NotBuiltin(t, i);
    NotFunction(t, i);
    NotArrayOrMember(t, i);
    hide M.Name, M.BuiltinType, M.FunctionType, M.ArrayType, M.PointerToMemberType, M.Substitution;
  }

  lemma NotPrimary(t: string, i: nat)
    requires i <= |t| && (i < |t| ==> t[i] != 'L')
    ensures M.ExprPrimary(t, i) == M.Fail
  {
    assert M.IntegerLiteral(t, i) == M.Fail && M.FloatLiteral(t, i) == M.Fail;
    assert M.ExternalLiteral(t, i) == M.Fail && M.OldLiteral(t, i) == M.Fail;
  }

  lemma NoOperation(t: string, i: nat)
    requires i <= |t| && M.OperatorName(t, i) == M.Fail
    ensures M.Operation(t, i) == M.Fail
  {
    hide M.OperatorName;
    assert M.Trinary(t, i) == M.Fail && M.Binary(t, i) == M.Fail && M.Unary(t, i) == M.Fail;
  }

  lemma NotExpression(t: string, i: nat)
    requires i <= |t| && (i < |t| ==> !BeginsExpr(t[i]))
    ensures M.Expression(t, i) == M.Fail
  {
    NotOperator(t, i);
    NoOperation(t, i);
    NotPrimary(t, i);
    hide M.OperatorName, M.Operation, M.ExprPrimary;
    assert M.SizeofType(t, i) == M.Fail && M.ScopedTemplate(t, i) == M.Fail && M.ScopedName(t, i) == M.Fail;
    assert M.TemplateParam(t, i) == M.Fail && M.TypeExpression(t, i) == M.Fail;
  }

  /** At an E the argument list ends. */
  lemma NotArgument(t: string, i: nat)
    requires i < |t| && t[i] == 'E'
    ensures M.TemplateArg(t, i) == M.Fail
  {
    NotType(t, i);
    NotPrimary(t, i);
    hide M.Type, M.ExprPrimary;
    assert M.ArgumentPack(t, i) == M.Fail && M.BracketedExpression(t, i) == M.Fail;
  }

  /** At an L there is a type only if a length follows. */
  lemma NotTypeAtL(t: string, i: nat)
    requires i < |t| && t[i] == 'L' && (i + 1 < |t| ==> !M.IsDigit(t[i + 1]) && t[i + 1] != 'n')
    ensures M.Type(t, i) == M.Fail
  {
    NotQualified(t, i);
    NotBuiltin(t, i);
    NotFunction(t, i);
    NotArrayOrMember(t, i);
    NotNameAtL(t, i);
    hide M.QualifiedType, M.ExtendedType, M.Name, M.BuiltinType, M.FunctionType, M.ArrayType, M.PointerToMemberType;
    assert M.Substitution(t, i) == M.Fail && M.TemplateParam(t, i) == M.Fail;
    assert M.PlainType(t, i) == M.Fail && M.TemplateTemplateParam(t, i) == M.Fail;
    hide M.PlainType;
  }

  lemma NotNameAtL(t: string, i: nat)
    requires i < |t| && t[i] == 'L' && (i + 1 < |t| ==> !M.IsDigit(t[i + 1]) && t[i + 1] != 'n')
    ensures M.Name(t, i) == M.Fail
  {
    NotOperator(t, i);
    NotNestedOrLocal(t, i);
    hide M.OperatorName, M.NestedName, M.LocalName;
    assert M.SourceName(t, i) == M.Fail && M.SourceName(t, i + 1) == M.Fail && M.LocalSourceName(t, i) == M.Fail;
    assert M.CtorDtorName(t, i) == M.Fail && M.UnqualifiedName(t, i) == M.Fail && M.UnscopedName(t, i) == M.Fail;
    assert M.Substitution(t, i) == M.Fail && M.UnscopedTemplateName(t, i) == M.Fail;
  }

  /** The s of a string is no name, if no letter follows. */
  lemma NotNameAtS(t: string, i: nat)
    requires i < |t| && t[i] == 's' && (i + 1 < |t| ==> !M.IsLower(t[i + 1]))
    ensures M.Name(t, i) == M.Fail
  {
    NotNestedOrLocal(t, i);
    hide M.NestedName, M.LocalName;
    if i + 1 < |t| { SmallOperators('s', t[i + 1]); }
    assert M.CastOperator(t, i) == M.Fail && M.VendorOperator(t, i) == M.Fail;
    assert M.OperatorName(t, i) == M.Fail && M.CtorDtorName(t, i) == M.Fail;
    assert M.SourceName(t, i) == M.Fail && M.LocalSourceName(t, i) == M.Fail && M.UnqualifiedName(t, i) == M.Fail;
    assert M.UnscopedName(t, i) == M.Fail && M.Substitution(t, i) == M.Fail;
    assert M.UnscopedTemplateName(t, i) == M.Fail;
  }

  lemma SmallOperators(c: char, d: char)
    requires c == 's' && !M.IsLower(d)
    ensures !M.IsOperator(c, d)
  {
  }

  /** The letters sr are no operator. */
  lemma ScopeIsNoOperator()
    ensures !M.IsOperator('s', 'r') && M.IsOperator('s', 't')
  {
    assert M.OPERATORS[47].0 == 's' && M.OPERATORS[47].1 == 't';
  }

  // ---------------------------------------------------------------------------------
  // Types
  // ---------------------------------------------------------------------------------

  lemma PlainIsType(t: string, i: nat)
    requires i < |t| && !Qualifies(t[i]) && !IsCompound(t[i]) && t[i] != 'D' && t[i] != 'U'
    requires M.PlainType(t, i).At? && R.CleanPlainType(t, i)
    ensures M.Type(t, i) == M.PlainType(t, i) && R.CleanType(t, i)
  {
    NotQualified(t, i);
    hide M.QualifiedType, M.ExtendedType, M.PlainType, R.CleanPlainType;
  }

  lemma LetterReads(t: string, i: nat)
    requires i < |t| && M.IsBuiltin(t[i])
    ensures M.Type(t, i) == M.At(i + 1) && R.CleanType(t, i)
  {
    BuiltinLetter(t[i]);
    assert M.BuiltinType(t, i) == M.At(i + 1);
    assert M.PlainType(t, i) == M.At(i + 1);
    PlainIsType(t, i);
  }

  lemma VendorBuiltinReads(t: string, i: nat)
    requires i < |t| && t[i] == 'u' && M.SourceName(t, i + 1).At? && R.CleanSourceName(t, i + 1)
    ensures M.Type(t, i) == M.SourceName(t, i + 1) && R.CleanType(t, i)
  {
    hide M.SourceName, R.CleanSourceName;
    if M.IsBuiltin(t[i]) { BuiltinLetter(t[i]); }
    assert M.BuiltinType(t, i) == M.SourceName(t, i + 1) && R.CleanBuiltinType(t, i);
    hide M.BuiltinType, R.CleanBuiltinType;
    assert M.PlainType(t, i) == M.BuiltinType(t, i) && R.CleanPlainType(t, i);
    PlainIsType(t, i);
  }

  lemma QualifiedReads(t: string, i: nat, j: nat)
    requires i <= j <= |t| && M.CVQualifiers(t, i) == M.At(j) && M.Type(t, j).At? && R.CleanType(t, j)
    ensures M.Type(t, i) == M.Type(t, j) && R.CleanType(t, i)
  {
    hide M.CVQualifiers;
    assert M.CVQualifiedType(t, i) == M.Type(t, j);
    assert M.QualifiedType(t, i) == M.Type(t, j) && R.CleanQualifiedType(t, i);
  }

  lemma CompoundReads(t: string, i: nat)
    requires i < |t| && IsCompound(t[i]) && M.Type(t, i + 1).At? && R.CleanType(t, i + 1)
    ensures M.Type(t, i) == M.Type(t, i + 1) && R.CleanType(t, i)
  {
    assert M.CVQualifiers(t, i) == M.Fail && M.CVQualifiedType(t, i) == M.Fail;
    var letters := "OPRCG";
    assert letters[0] == 'O' && letters[1] == 'P' && letters[2] == 'R' && letters[3] == 'C' && letters[4] == 'G';
    assert M.ReferenceType(t, i) == M.Type(t, i + 1);
    assert M.QualifiedType(t, i) == M.Type(t, i + 1) && R.CleanQualifiedType(t, i);
  }

  lemma NoReference(t: string, i: nat)
    requires i < |t| && (t[i] == 'D' || t[i] == 'U')
    ensures M.CVQualifiedType(t, i) == M.Fail && M.ReferenceType(t, i) == M.Fail
    ensures i + 1 == |t| || t[i] != 'D' || t[i + 1] != 'p' ==> M.QualifiedType(t, i) == M.Fail
  {
    assert M.CVQualifiers(t, i) == M.Fail && M.OneOf(t, i, "OPRCG") == M.Fail;
  }

  lemma PackReads(t: string, i: nat)
    requires i + 1 < |t| && t[i] == 'D' && t[i + 1] == 'p' && M.Type(t, i + 2).At? && R.CleanType(t, i + 2)
    ensures M.Type(t, i) == M.Type(t, i + 2) && R.CleanType(t, i)
  {
    NoReference(t, i);
    hide M.CVQualifiedType, M.ReferenceType;
    assert M.PackExpansion(t, i) == M.Type(t, i + 2);
    hide M.PackExpansion;
    assert M.QualifiedType(t, i) == M.Type(t, i + 2) && R.CleanQualifiedType(t, i);
    hide M.QualifiedType, R.CleanQualifiedType;
  }

  lemma DecltypeReads(t: string, i: nat, j: nat)
    requires i + 1 < |t| && t[i] == 'D' && (t[i + 1] == 't' || t[i + 1] == 'T')
    requires M.Expression(t, i + 2) == M.At(j) && j < |t| && t[j] == 'E' && R.CleanExpression(t, i + 2)
    ensures M.Type(t, i) == M.At(j + 1) && R.CleanType(t, i)
  {
    NoReference(t, i);
    hide M.QualifiedType, M.Expression, R.CleanExpression;
    assert "tT"[0] == 't' && "tT"[1] == 'T';
    assert M.Decltype(t, i) == M.At(j + 1) && R.CleanDecltype(t, i);
    hide M.Decltype, R.CleanDecltype;
    assert M.ExtendedType(t, i) == M.At(j + 1) && R.CleanExtendedType(t, i);
  }

  lemma VendorQualifiedReads(t: string, i: nat, j: nat)
    requires i < |t| && t[i] == 'U' && M.SourceName(t, i + 1) == M.At(j) && R.CleanSourceName(t, i + 1)
    requires j <= |t| && M.Type(t, j).At? && R.CleanType(t, j)
    ensures M.Type(t, i) == M.Type(t, j) && R.CleanType(t, i)
  {
    NoReference(t, i);
    hide M.QualifiedType, M.SourceName, R.CleanSourceName;
    assert M.Decltype(t, i) == M.Fail && M.VendorType(t, i) == M.Type(t, j) && R.CleanVendorType(t, i);
    hide M.Decltype, M.VendorType, R.CleanVendorType;
    assert M.ExtendedType(t, i) == M.Type(t, j) && R.CleanExtendedType(t, i);
  }

  lemma FunctionTypeReads(t: string, i: nat, j: nat, k: nat)
    requires i + 1 < |t| && t[i] == 'F' && j == (if t[i + 1] == 'Y' then i + 2 else i + 1)
    requires M.BareFunctionType(t, j) == M.At(k) && k < |t| && t[k] == 'E' && R.CleanBareFunctionType(t, j)
    ensures M.Type(t, i) == M.At(k + 1) && R.CleanType(t, i)
  {
    hide M.BareFunctionType, R.CleanBareFunctionType;
    NotBuiltin(t, i);
    assert M.FunctionType(t, i) == M.At(k + 1) && R.CleanFunctionType(t, i);
    hide M.BuiltinType, M.FunctionType, R.CleanFunctionType;
    assert M.PlainType(t, i) == M.At(k + 1) && R.CleanPlainType(t, i);
    PlainIsType(t, i);
  }

  lemma ArrayIsType(t: string, i: nat)
    requires i < |t| && t[i] == 'A' && M.ArrayType(t, i).At? && R.CleanArrayType(t, i)
    ensures M.Type(t, i) == M.ArrayType(t, i) && R.CleanType(t, i)
  {
    NotBuiltin(t, i);
    NotFunction(t, i);
    NotName(t, i);
    hide M.BuiltinType, M.FunctionType, M.Name, M.ArrayType, R.CleanArrayType;
    assert M.PlainType(t, i) == M.ArrayType(t, i) && R.CleanPlainType(t, i);
    PlainIsType(t, i);
  }

  lemma ArrayReads(t: string, i: nat, j: nat)
    requires i < |t| && t[i] == 'A' && M.Number(t, i + 1) == M.At(j) && j < |t| && t[j] == '_'
    requires M.Type(t, j + 1).At? && R.CleanType(t, j + 1)
    ensures M.Type(t, i) == M.Type(t, j + 1) && R.CleanType(t, i)
  {
    hide M.Number, M.Type, R.CleanType;
    assert M.NumberedArray(t, i) == M.Type(t, j + 1) && R.CleanNumberedArray(t, i);
    hide M.NumberedArray, R.CleanNumberedArray;
    assert M.ArrayType(t, i) == M.Type(t, j + 1) && R.CleanArrayType(t, i);
    ArrayIsType(t, i);
  }

  lemma DependentReads(t: string, i: nat, j: nat)
    requires i < |t| && t[i] == 'A' && M.Number(t, i + 1) == M.Fail && M.Expression(t, i + 1).Opt(i + 1) == M.At(j)
    requires R.CleanExpression(t, i + 1) && j < |t| && t[j] == '_' && M.Type(t, j + 1).At? && R.CleanType(t, j + 1)
    ensures M.Type(t, i) == M.Type(t, j + 1) && R.CleanType(t, i)
  {
    hide M.Number, M.Type, R.CleanType, M.Expression, R.CleanExpression;
    assert M.NumberedArray(t, i) == M.Fail;
    assert M.DependentArray(t, i) == M.Type(t, j + 1) && R.CleanDependentArray(t, i);
    hide M.NumberedArray, M.DependentArray, R.CleanDependentArray;
    assert M.ArrayType(t, i) == M.Type(t, j + 1) && R.CleanArrayType(t, i);
    ArrayIsType(t, i);
  }

  lemma MemberReads(t: string, i: nat, j: nat)
    requires i < |t| && t[i] == 'M' && M.Type(t, i + 1) == M.At(j) && R.CleanType(t, i + 1) && j <= |t|
    requires M.Type(t, j).At? && R.CleanType(t, j)
    ensures M.Type(t, i) == M.Type(t, j) && R.CleanType(t, i)
  {
    hide M.Type, R.CleanType;
    NotBuiltin(t, i);
    NotFunction(t, i);
    NotName(t, i);
    NotArrayOrMember(t, i);
    assert M.PointerToMemberType(t, i) == M.Type(t, j) && R.CleanPointerToMemberType(t, i);
    hide M.BuiltinType, M.FunctionType, M.Name, M.ArrayType, M.PointerToMemberType, R.CleanPointerToMemberType;
    assert M.PlainType(t, i) == M.Type(t, j) && R.CleanPlainType(t, i);
    PlainIsType(t, i);
  }

  lemma ClassReads(t: string, i: nat)
    requires i < |t| && BeginsName(t[i]) && !M.IsLower(t[i]) && t[i] != 'C' && t[i] != 'D'
    requires M.Name(t, i).At? && R.CleanName(t, i)
    ensures M.Type(t, i) == M.Name(t, i) && R.CleanType(t, i)
  {
    NotBuiltin(t, i);
    NotFunction(t, i);
    hide M.BuiltinType, M.FunctionType, M.Name, R.CleanName;
    assert M.PlainType(t, i) == M.Name(t, i) && R.CleanPlainType(t, i);
    PlainIsType(t, i);
  }

  /** Template arguments behind place j, or none. */
  ghost predicate MaybeArgs(t: string, j: nat) {
    j <= |t| && (M.TemplateArgs(t, j) == M.Fail || (M.TemplateArgs(t, j).At? && R.CleanTemplateArgs(t, j)))
  }

  function WithArgs(t: string, j: nat): M.Pos
    requires j <= |t|
  {
    if M.TemplateArgs(t, j).At? then M.TemplateArgs(t, j) else M.At(j)
  }

  /** A substitution is a type, with arguments or without. */
  lemma AgainReads(t: string, i: nat, j: nat)
    requires i + 1 < |t| && t[i] == 'S' && t[i + 1] != 't' && M.Substitution(t, i) == M.At(j) && MaybeArgs(t, j)
    ensures M.Type(t, i) == WithArgs(t, j) && R.CleanType(t, i)
  {
    NotBuiltin(t, i);
    NotFunction(t, i);
    NotArrayOrMember(t, i);
    NotNestedOrLocal(t, i);
    NotUnscoped(t, i);
    hide M.BuiltinType, M.FunctionType, M.ArrayType, M.PointerToMemberType, M.UnscopedName, M.Substitution;
    hide M.NestedName, M.LocalName, M.TemplateArgs, R.CleanTemplateArgs;
    assert M.UnscopedTemplateName(t, i) == M.At(j) && R.CleanUnscopedTemplateName(t, i);
    assert M.Name(t, i) == M.TemplateArgs(t, j) && R.CleanName(t, i);
    hide M.UnscopedTemplateName, M.Name, R.CleanName;
    assert M.PlainType(t, i) == WithArgs(t, j) && R.CleanPlainType(t, i);
    PlainIsType(t, i);
  }

  /** A template parameter is a type in the same way. */
  lemma NumberedReads(t: string, i: nat, j: nat)
    requires i < |t| && t[i] == 'T' && M.TemplateParam(t, i) == M.At(j) && R.CleanTemplateParam(t, i) && MaybeArgs(t, j)
    ensures M.Type(t, i) == WithArgs(t, j) && R.CleanType(t, i)
  {
    NotQualified(t, i);
    NotPlain(t, i);
    hide M.QualifiedType, M.ExtendedType, M.PlainType, M.TemplateArgs, R.CleanTemplateArgs, M.TemplateParam;
    assert M.TemplateTemplateParam(t, i) == M.At(j) && R.CleanParameterType(t, i);
    hide M.TemplateTemplateParam;
  }

  // ---------------------------------------------------------------------------------
  // Template arguments and literals
  // ---------------------------------------------------------------------------------

  lemma NoPack(t: string, i: nat)
    requires i < |t| && t[i] != 'I' && t[i] != 'J'
    ensures M.ArgumentPack(t, i) == M.Fail
  {
  }

  lemma ArgumentIsType(t: string, i: nat)
    requires i < |t| && t[i] != 'I' && t[i] != 'J' && M.Type(t, i).At? && R.CleanType(t, i)
    ensures M.TemplateArg(t, i) == M.Type(t, i) && R.CleanTemplateArg(t, i)
  {
    hide M.Type, R.CleanType;
    NoPack(t, i);
  }

  lemma ArgumentIsPack(t: string, i: nat, k: nat)
    requires i < |t| && (t[i] == 'I' || t[i] == 'J') && M.MoreTemplateArgs(t, i + 1) == M.At(k)
    requires k < |t| && t[k] == 'E' && R.CleanTemplateArgList(t, i + 1)
    ensures M.TemplateArg(t, i) == M.At(k + 1) && R.CleanTemplateArg(t, i)
  {
    hide M.MoreTemplateArgs, R.CleanTemplateArgList;
    assert "IJ"[0] == 'I' && "IJ"[1] == 'J';
    assert M.ArgumentPack(t, i) == M.At(k + 1) && R.CleanArgumentPack(t, i);
    hide M.ArgumentPack, R.CleanArgumentPack;
  }

  lemma ArgumentIsPrimary(t: string, i: nat)
    requires i < |t| && t[i] == 'L' && (i + 1 < |t| ==> !M.IsDigit(t[i + 1]) && t[i + 1] != 'n')
    requires M.ExprPrimary(t, i).At? && R.CleanExprPrimary(t, i)
    ensures M.TemplateArg(t, i) == M.ExprPrimary(t, i) && R.CleanTemplateArg(t, i)
  {
    NoPack(t, i);
    NotTypeAtL(t, i);
    hide M.ArgumentPack, M.Type, M.ExprPrimary, R.CleanExprPrimary;
  }

  lemma ArgumentIsBracketed(t: string, i: nat, k: nat)
    requires i < |t| && t[i] == 'X' && M.Expression(t, i + 1) == M.At(k) && k < |t| && t[k] == 'E'
    requires R.CleanExpression(t, i + 1)
    ensures M.TemplateArg(t, i) == M.At(k + 1) && R.CleanTemplateArg(t, i)
  {
    NoPack(t, i);
    NotType(t, i);
    NotPrimary(t, i);
    hide M.ArgumentPack, M.Type, M.ExprPrimary, M.Expression, R.CleanExpression;
    assert M.BracketedExpression(t, i) == M.At(k + 1) && R.CleanBracketedExpression(t, i);
    hide M.BracketedExpression, R.CleanBracketedExpression;
  }

  lemma IntegerReads(t: string, i: nat, j: nat, k: nat)
    requires i < |t| && t[i] == 'L' && M.Type(t, i + 1) == M.At(j) && R.CleanType(t, i + 1)
    requires j <= |t| && M.Number(t, j) == M.At(k) && k < |t| && t[k] == 'E'
    ensures M.ExprPrimary(t, i) == M.At(k + 1) && R.CleanExprPrimary(t, i)
  {
    hide M.Type, R.CleanType, M.Number;
    assert M.IntegerLiteral(t, i) == M.At(k + 1) && R.CleanIntegerLiteral(t, i);
    hide M.IntegerLiteral, R.CleanIntegerLiteral;
  }

  lemma FloatReads(t: string, i: nat, j: nat, k: nat)
    requires i < |t| && t[i] == 'L' && M.Type(t, i + 1) == M.At(j) && R.CleanType(t, i + 1) && j <= |t|
    requires M.Number(t, j).At? ==> M.Number(t, j).i < |t| && t[M.Number(t, j).i] != 'E'
    requires M.Run(t, j, 'a', 'f') == M.At(k) && k < |t| && t[k] == 'E'
    ensures M.ExprPrimary(t, i) == M.At(k + 1) && R.CleanExprPrimary(t, i)
  {
    NumberIsNotBack(t, j);
    hide M.Type, R.CleanType, M.Number, M.Run;
    assert M.IntegerLiteral(t, i) == M.Fail;
    assert M.FloatLiteral(t, i) == M.At(k + 1) && R.CleanFloatLiteral(t, i);
    hide M.IntegerLiteral, M.FloatLiteral, R.CleanFloatLiteral;
  }

  lemma NumberIsNotBack(t: string, i: nat)
    requires i <= |t|
    ensures !M.Number(t, i).Back?
  {
  }

  lemma ExternalReads(t: string, i: nat, k: nat)
    requires i + 1 < |t| && t[i] == 'L' && t[i + 1] == '_' && M.MangledName(t, i + 1) == M.At(k)
    requires k < |t| && t[k] == 'E' && R.CleanMangledName(t, i + 1)
    ensures M.ExprPrimary(t, i) == M.At(k + 1) && R.CleanExprPrimary(t, i)
  {
    NotType(t, i + 1);
    hide M.Type, M.MangledName, R.CleanMangledName;
    assert M.IntegerLiteral(t, i) == M.Fail && M.FloatLiteral(t, i) == M.Fail;
    assert M.ExternalLiteral(t, i) == M.At(k + 1) && R.CleanExternalLiteral(t, i);
    hide M.IntegerLiteral, M.FloatLiteral, M.ExternalLiteral, R.CleanExternalLiteral;
  }

  /** Behind the symbol of the older form another E follows, so it is not taken for a local name. */
  lemma OldExternalReads(t: string, i: nat, k: nat)
    requires i + 1 < |t| && t[i] == 'L' && t[i + 1] == 'Z' && M.Encoding(t, i + 2) == M.At(k)
    requires k + 1 < |t| && t[k] == 'E' && t[k + 1] == 'E' && R.CleanEncoding(t, i + 2)
    ensures M.ExprPrimary(t, i) == M.At(k + 1) && R.CleanExprPrimary(t, i)
  {
    NotTypeAtZ(t, i + 1, k);
    hide M.Type, M.Encoding, R.CleanEncoding;
    assert M.IntegerLiteral(t, i) == M.Fail && M.FloatLiteral(t, i) == M.Fail && M.ExternalLiteral(t, i) == M.Fail;
    assert M.OldLiteral(t, i) == M.At(k + 1) && R.CleanOldLiteral(t, i);
    hide M.IntegerLiteral, M.FloatLiteral, M.ExternalLiteral, M.OldLiteral, R.CleanOldLiteral;
  }

  lemma NotTypeAtZ(t: string, i: nat, k: nat)
    requires i < |t| && t[i] == 'Z' && M.Encoding(t, i + 1) == M.At(k)
    requires k + 1 < |t| && t[k] == 'E' && t[k + 1] == 'E'
    ensures M.Type(t, i) == M.Fail
  {
    NotQualified(t, i);
    NotBuiltin(t, i);
    NotFunction(t, i);
    NotArrayOrMember(t, i);
    NotNameAtZ(t, i, k);
    hide M.QualifiedType, M.ExtendedType, M.Name, M.BuiltinType, M.FunctionType, M.ArrayType, M.PointerToMemberType;
    assert M.Substitution(t, i) == M.Fail && M.TemplateParam(t, i) == M.Fail;
    assert M.PlainType(t, i) == M.Fail && M.TemplateTemplateParam(t, i) == M.Fail;
    hide M.PlainType;
  }

  lemma NotNameAtZ(t: string, i: nat, k: nat)
    requires i < |t| && t[i] == 'Z' && M.Encoding(t, i + 1) == M.At(k)
    requires k + 1 < |t| && t[k] == 'E' && t[k + 1] == 'E'
    ensures M.Name(t, i) == M.Fail
  {
    NotName(t, k + 1);
    NotNestedOrLocal(t, i);
    NotUnscoped(t, i);
    hide M.Encoding, M.UnscopedName, M.NestedName;
    assert M.LocalEntity(t, i) == M.Fail && M.LocalString(t, i) == M.Fail;
    assert M.LocalName(t, i) == M.Fail;
    hide M.LocalName;
    assert M.Substitution(t, i) == M.Fail && M.UnscopedTemplateName(t, i) == M.Fail;
  }

  // ---------------------------------------------------------------------------------
  // Expressions
  // ---------------------------------------------------------------------------------

  lemma ParamIsExpr(t: string, i: nat)
    requires i <= |t| && M.TemplateParam(t, i).At? && R.CleanTemplateParam(t, i)
    ensures M.Expression(t, i) == M.TemplateParam(t, i) && R.CleanExpression(t, i)
  {
    hide M.TemplateParam, R.CleanTemplateParam;
  }

  lemma PrimaryIsExpr(t: string, i: nat)
    requires i < |t| && t[i] == 'L' && M.ExprPrimary(t, i).At? && R.CleanExprPrimary(t, i)
    ensures M.Expression(t, i) == M.ExprPrimary(t, i) && R.CleanExpression(t, i)
  {
    hide M.ExprPrimary, R.CleanExprPrimary;
    assert M.TemplateParam(t, i) == M.Fail;
  }

  lemma OperationIsExpr(t: string, i: nat)
    requires i < |t| && M.IsLower(t[i]) && M.Operation(t, i).At? && R.CleanOperation(t, i)
    ensures M.Expression(t, i) == M.Operation(t, i) && R.CleanExpression(t, i)
  {
    NotPrimary(t, i);
    hide M.Operation, R.CleanOperation, M.ExprPrimary;
    assert M.TemplateParam(t, i) == M.Fail;
  }

  /** An operator with its operands, behind which no other expression begins. */
  lemma UnaryReads(t: string, i: nat, j: nat, k: nat)
    requires i < j <= k <= |t| && M.IsLower(t[i])
    requires M.OperatorName(t, i) == M.At(j) && R.CleanOperatorName(t, i) && R.Takes(t, i, 1)
    requires M.Expression(t, j) == M.At(k) && R.CleanExpression(t, j) && M.Expression(t, k) == M.Fail
    ensures M.Expression(t, i) == M.At(k) && R.CleanExpression(t, i)
  {
    hide M.OperatorName, R.CleanOperatorName, R.Takes, M.Expression, R.CleanExpression;
    assert M.Trinary(t, i) == M.Fail && M.Binary(t, i) == M.Fail;
    assert M.Unary(t, i) == M.At(k) && R.CleanUnary(t, i);
    hide M.Trinary, M.Binary, M.Unary, R.CleanUnary;
    OperationIsExpr(t, i);
  }

  lemma BinaryReads(t: string, i: nat, j: nat, k: nat, l: nat)
    requires i < j <= k <= l <= |t| && M.IsLower(t[i])
    requires M.OperatorName(t, i) == M.At(j) && R.CleanOperatorName(t, i) && R.Takes(t, i, 2)
    requires M.Expression(t, j) == M.At(k) && R.CleanExpression(t, j)
    requires M.Expression(t, k) == M.At(l) && R.CleanExpression(t, k) && M.Expression(t, l) == M.Fail
    ensures M.Expression(t, i) == M.At(l) && R.CleanExpression(t, i)
  {
    hide M.OperatorName, R.CleanOperatorName, R.Takes, M.Expression, R.CleanExpression;
    assert M.Trinary(t, i) == M.Fail;
    assert M.Binary(t, i) == M.At(l) && R.CleanBinary(t, i);
    hide M.Trinary, M.Binary, R.CleanBinary;
    OperationIsExpr(t, i);
  }

  lemma TrinaryReads(t: string, i: nat, j: nat, k: nat, l: nat, m: nat)
    requires i < j <= k <= l <= |t| && M.IsLower(t[i])
    requires M.OperatorName(t, i) == M.At(j) && R.CleanOperatorName(t, i) && R.Takes(t, i, 3)
    requires M.Expression(t, j) == M.At(k) && R.CleanExpression(t, j)
    requires M.Expression(t, k) == M.At(l) && R.CleanExpression(t, k)
    requires M.Expression(t, l) == M.At(m) && R.CleanExpression(t, l)
    ensures M.Expression(t, i) == M.At(m) && R.CleanExpression(t, i)
  {
    hide M.OperatorName, R.CleanOperatorName, R.Takes, M.Expression, R.CleanExpression;
    assert M.Trinary(t, i) == M.At(m) && R.CleanTrinary(t, i);
    hide M.Trinary, R.CleanTrinary;
    OperationIsExpr(t, i);
  }

  lemma TypeExpressionIsExpr(t: string, i: nat)
    requires i < |t| && t[i] == 's' && M.Operation(t, i) == M.Fail
    requires M.TypeExpression(t, i).At? && R.CleanTypeExpression(t, i)
    ensures M.Expression(t, i) == M.TypeExpression(t, i) && R.CleanExpression(t, i)
  {
    NotPrimary(t, i);
    hide M.Operation, M.TypeExpression, R.CleanTypeExpression, M.ExprPrimary;
    assert M.TemplateParam(t, i) == M.Fail;
  }

  /** The operator sizeof is tried first and finds no operand. */
  lemma SizeofReads(t: string, i: nat)
    requires i + 2 < |t| && t[i] == 's' && t[i + 1] == 't' && !BeginsExpr(t[i + 2])
    requires M.Type(t, i + 2).At? && R.CleanType(t, i + 2)
    ensures M.Expression(t, i) == M.Type(t, i + 2) && R.CleanExpression(t, i)
  {
    ScopeIsNoOperator();
    Tokens.OperatorIsRead(t, i);
    NotExpression(t, i + 2);
    hide M.OperatorName, M.Expression, M.Type, R.CleanType;
    assert M.Trinary(t, i) == M.Fail && M.Binary(t, i) == M.Fail && M.Unary(t, i) == M.Fail;
    assert M.Operation(t, i) == M.Fail;
    assert M.SizeofType(t, i) == M.Type(t, i + 2) && R.CleanSizeofType(t, i);
    assert M.TypeExpression(t, i) == M.Type(t, i + 2) && R.CleanTypeExpression(t, i);
    TypeExpressionIsExpr(t, i);
  }

  lemma NotOperation(t: string, i: nat)
    requires i + 1 < |t| && t[i] == 's' && t[i + 1] == 'r'
    ensures M.Operation(t, i) == M.Fail
  {
    ScopeIsNoOperator();
    assert M.CastOperator(t, i) == M.Fail && M.VendorOperator(t, i) == M.Fail && M.OperatorName(t, i) == M.Fail;
    NoOperation(t, i);
  }

  lemma ScopedReads(t: string, i: nat, j: nat, k: nat)
    requires i + 1 < |t| && t[i] == 's' && t[i + 1] == 'r' && M.Type(t, i + 2) == M.At(j) && R.CleanType(t, i + 2)
    requires j <= |t| && M.UnqualifiedName(t, j) == M.At(k) && R.CleanUnqualifiedName(t, j) && MaybeArgs(t, k)
    ensures M.Expression(t, i) == WithArgs(t, k) && R.CleanExpression(t, i)
  {
    NotOperation(t, i);
    hide M.Operation, M.Type, R.CleanType, M.UnqualifiedName, R.CleanUnqualifiedName, M.TemplateArgs;
    hide R.CleanTemplateArgs;
    assert M.SizeofType(t, i) == M.Fail && M.ScopedTemplate(t, i) == M.TemplateArgs(t, k);
    assert R.CleanScopedTemplate(t, i);
    assert M.ScopedName(t, i) == M.At(k) && R.CleanScopedName(t, i);
    hide M.SizeofType, M.ScopedTemplate, M.ScopedName, R.CleanScopedName, R.CleanScopedTemplate;
    assert M.TypeExpression(t, i) == WithArgs(t, k) && R.CleanTypeExpression(t, i);
    TypeExpressionIsExpr(t, i);
  }

  // ---------------------------------------------------------------------------------
  // Names
  // ---------------------------------------------------------------------------------

  /** A name behind its length or behind an L, with its tags. */
  lemma TaggedReads(t: string, i: nat, j: nat)
    requires i < |t| && (M.IsDigit(t[i]) || t[i] == 'L') && j <= |t|
    requires if t[i] == 'L' then M.LocalSourceName(t, i) == M.At(j) && R.CleanLocalSourceName(t, i)
             else M.SourceName(t, i) == M.At(j) && R.CleanSourceName(t, i)
    requires !M.AbiTags(t, j).Back? && R.CleanAbiTags(t, j)
    ensures M.UnqualifiedName(t, i) == M.At(M.AbiTags(t, j).Or(j)) && R.CleanUnqualifiedName(t, i)
  {
    NotOperator(t, i);
    if t[i] == 'L' { assert M.SourceName(t, i) == M.Fail; }
    hide M.OperatorName, M.SourceName, R.CleanSourceName, M.LocalSourceName, R.CleanLocalSourceName;
    hide M.AbiTags, R.CleanAbiTags;
    assert M.CtorDtorName(t, i) == M.Fail;
  }

  lemma StructorReads(t: string, i: nat)
    requires i + 1 < |t|
    requires (t[i] == 'C' && '1' <= t[i + 1] <= '3') || (t[i] == 'D' && '0' <= t[i + 1] <= '2')
    ensures M.UnqualifiedName(t, i) == M.At(i + 2) && R.CleanUnqualifiedName(t, i)
  {
    NotOperator(t, i);
    hide M.OperatorName;
    assert "123"[0] == '1' && "123"[1] == '2' && "123"[2] == '3';
    assert "012"[0] == '0' && "012"[1] == '1' && "012"[2] == '2';
    assert M.CtorDtorName(t, i) == M.At(i + 2);
  }

  lemma OperatorIsPart(t: string, i: nat)
    requires i <= |t| && M.OperatorName(t, i).At? && R.CleanOperatorName(t, i)
    ensures M.UnqualifiedName(t, i) == M.OperatorName(t, i) && R.CleanUnqualifiedName(t, i)
  {
    hide M.OperatorName, R.CleanOperatorName;
  }

  lemma CastReads(t: string, i: nat)
    requires i + 1 < |t| && t[i] == 'c' && t[i + 1] == 'v' && M.Type(t, i + 2).At? && R.CleanType(t, i + 2)
    ensures M.OperatorName(t, i) == M.Type(t, i + 2) && R.CleanOperatorName(t, i) && R.Takes(t, i, 1)
  {
    hide M.Type, R.CleanType;
    assert M.CastOperator(t, i) == M.Type(t, i + 2);
    hide M.CastOperator;
  }

  lemma VendorOperatorReads(t: string, i: nat, n: nat)
    requires i + 1 < |t| && t[i] == 'v' && M.IsDigit(t[i + 1])
    requires M.SourceName(t, i + 2).At? && R.CleanSourceName(t, i + 2)
    ensures M.OperatorName(t, i) == M.SourceName(t, i + 2) && R.CleanOperatorName(t, i)
    ensures R.Takes(t, i, n) <==> t[i + 1] == Bnf.DigitFor(n)
  {
    hide M.SourceName, R.CleanSourceName;
    DigitIsListed(t[i + 1]);
    assert M.CastOperator(t, i) == M.Fail && M.VendorOperator(t, i) == M.SourceName(t, i + 2);
    hide M.CastOperator, M.VendorOperator;
  }

  lemma DigitIsListed(c: char)
    requires M.IsDigit(c)
    ensures c in "0123456789"
  {
    var digits := "0123456789";
    assert digits[c as int - '0' as int] == c;
  }

  lemma OperatorTakes(t: string, i: nat)
    requires i + 1 < |t| && M.IsOperator(t[i], t[i + 1])
    ensures M.OperatorName(t, i) == M.At(i + 2) && R.CleanOperatorName(t, i)
    ensures R.Takes(t, i, Bnf.Operands(t[i], t[i + 1]))
  {
    Tokens.OperatorIsRead(t, i);
    var k :| 0 <= k < |M.OPERATORS| && M.OPERATORS[k].0 == t[i] && M.OPERATORS[k].1 == t[i + 1];
    Tokens.TableOfOperators(k);
    assert M.CastOperator(t, i) == M.Fail && M.VendorOperator(t, i) == M.Fail;
    hide M.OperatorName, M.CastOperator, M.VendorOperator, M.OPERATORS;
  }

  /** A part is a component of a nested name, and a name outside scopes. */
  lemma PartIsComponent(t: string, i: nat)
    requires i < |t| && BeginsPart(t[i]) && M.UnqualifiedName(t, i).At? && R.CleanUnqualifiedName(t, i)
    ensures M.TemplateParam(t, i) == M.Fail && M.Substitution(t, i) == M.Fail
    ensures M.Component(t, i) == M.UnqualifiedName(t, i) && M.UnscopedName(t, i) == M.UnqualifiedName(t, i)
    ensures R.CleanUnscopedName(t, i)
  {
    hide M.UnqualifiedName, R.CleanUnqualifiedName;
    assert M.TemplateParam(t, i) == M.Fail && M.Substitution(t, i) == M.Fail;
    hide M.TemplateParam, M.Substitution;
  }

  lemma StdIsUnscoped(t: string, i: nat)
    requires i + 2 <= |t| && t[i] == 'S' && t[i + 1] == 't'
    requires M.UnqualifiedName(t, i + 2).At? && R.CleanUnqualifiedName(t, i + 2)
    ensures M.UnscopedName(t, i) == M.UnqualifiedName(t, i + 2) && R.CleanUnscopedName(t, i)
  {
    NotUnqualified(t, i);
    hide M.UnqualifiedName, R.CleanUnqualifiedName;
  }

  /** A name that is read as unscoped, with arguments or without. */
  lemma UnscopedReads(t: string, i: nat, j: nat)
    requires i < |t| && t[i] != 'N' && t[i] != 'Z' && M.UnscopedName(t, i) == M.At(j) && R.CleanUnscopedName(t, i)
    requires MaybeArgs(t, j)
    ensures M.Name(t, i) == WithArgs(t, j) && R.CleanName(t, i)
  {
    NotNestedOrLocal(t, i);
    hide M.UnscopedName, M.TemplateArgs, R.CleanUnscopedName, R.CleanTemplateArgs, M.NestedName, M.LocalName;
    assert M.UnscopedTemplateName(t, i) == M.At(j) && R.CleanUnscopedTemplateName(t, i);
    hide M.UnscopedTemplateName, R.CleanUnscopedTemplateName;
  }

  lemma LocalIsName(t: string, i: nat)
    requires i < |t| && t[i] == 'Z' && M.LocalName(t, i).At? && R.CleanLocalName(t, i)
    ensures M.Name(t, i) == M.LocalName(t, i) && R.CleanName(t, i)
  {
    NotNestedOrLocal(t, i);
    hide M.NestedName, M.LocalName, R.CleanLocalName;
  }

  lemma LocalReads(t: string, i: nat, j: nat, k: nat)
    requires i < |t| && t[i] == 'Z' && M.Encoding(t, i + 1) == M.At(j) && R.CleanEncoding(t, i + 1)
    requires j < |t| && t[j] == 'E' && M.Name(t, j + 1) == M.At(k) && k <= |t| && R.CleanName(t, j + 1)
    ensures M.Name(t, i) == M.At(M.Discriminator(t, k).Or(k)) && R.CleanName(t, i)
  {
    hide M.Encoding, R.CleanEncoding, M.Name, R.CleanName, M.Discriminator;
    assert M.LocalEntity(t, i) == M.At(M.Discriminator(t, k).Or(k)) && R.CleanLocalEntity(t, i);
    hide M.LocalEntity, R.CleanLocalEntity;
    assert M.LocalName(t, i) == M.At(M.Discriminator(t, k).Or(k)) && R.CleanLocalName(t, i);
    LocalIsName(t, i);
  }

  lemma StringReads(t: string, i: nat, j: nat)
    requires i < |t| && t[i] == 'Z' && M.Encoding(t, i + 1) == M.At(j) && R.CleanEncoding(t, i + 1)
    requires j + 1 < |t| && t[j] == 'E' && t[j + 1] == 's' && (j + 2 < |t| ==> !M.IsLower(t[j + 2]))
    ensures M.LocalEntity(t, i) == M.Fail
    ensures M.LocalString(t, i) == M.At(M.Discriminator(t, j + 2).Or(j + 2)) && R.CleanLocalString(t, i)
  {
    NotNameAtS(t, j + 1);
    hide M.Encoding, R.CleanEncoding, M.Name, M.Discriminator;
  }

  lemma LocalTextReads(t: string, i: nat, j: nat)
    requires i < |t| && t[i] == 'Z' && M.Encoding(t, i + 1) == M.At(j) && R.CleanEncoding(t, i + 1)
    requires j + 1 < |t| && t[j] == 'E' && t[j + 1] == 's' && (j + 2 < |t| ==> !M.IsLower(t[j + 2]))
    ensures M.Name(t, i) == M.At(M.Discriminator(t, j + 2).Or(j + 2)) && R.CleanName(t, i)
  {
    StringReads(t, i, j);
    hide M.Encoding, R.CleanEncoding, M.Name, R.CleanName, M.Discriminator;
    hide M.LocalEntity, M.LocalString, R.CleanLocalString, R.CleanLocalEntity;
    assert M.LocalName(t, i) == M.At(M.Discriminator(t, j + 2).Or(j + 2)) && R.CleanLocalName(t, i);
    LocalIsName(t, i);
  }

  // Nested names

  lemma PrefixStep(t: string, i: nat, some: bool, first: bool, ends: bool)
    requires i < |t| && BeginsPart(t[i]) && M.UnqualifiedName(t, i).At? && R.CleanUnqualifiedName(t, i)
    ensures var j := M.UnqualifiedName(t, i).i;
            && M.Prefix(t, i, some) == M.Prefix(t, j, true)
            && R.CleanPrefix(t, i, some, first, ends) == R.CleanPrefix(t, j, true, false, true)
  {
    PartIsComponent(t, i);
    hide M.Component, M.TemplateParam, M.Substitution, M.UnqualifiedName, R.CleanUnqualifiedName;
  }

  lemma PrefixArgs(t: string, i: nat, ends: bool)
    requires i < |t| && t[i] == 'I' && M.TemplateArgs(t, i).At? && R.CleanTemplateArgs(t, i)
    ensures var j := M.TemplateArgs(t, i).i;
            && M.Prefix(t, i, true) == M.Prefix(t, j, false)
            && R.CleanPrefix(t, i, true, false, ends) == R.CleanPrefix(t, j, false, false, true)
  {
    NotUnscoped(t, i);
    hide M.UnscopedName;
    assert M.TemplateParam(t, i) == M.Fail && M.Substitution(t, i) == M.Fail;
    assert M.Component(t, i) == M.Fail;
    hide M.Component, M.TemplateArgs, R.CleanTemplateArgs;
  }

  lemma PrefixEnds(t: string, i: nat, some: bool, first: bool, ends: bool)
    requires i < |t| && t[i] == 'E'
    ensures M.Prefix(t, i, some) == M.At(i) && R.CleanPrefix(t, i, some, first, ends) == ends
  {
    NotUnscoped(t, i);
    hide M.UnscopedName;
    assert M.TemplateParam(t, i) == M.Fail && M.Substitution(t, i) == M.Fail;
    assert M.Component(t, i) == M.Fail && M.TemplateArgs(t, i) == M.Fail;
    hide M.Component, M.TemplateArgs;
  }

  /** A substitution or a template parameter in front. */
  lemma PrefixStarts(t: string, i: nat, j: nat)
    requires i <= |t| && j <= |t|
    requires (M.TemplateParam(t, i) == M.Fail && M.Substitution(t, i) == M.At(j))
             || (M.TemplateParam(t, i) == M.At(j) && R.CleanTemplateParam(t, i))
    ensures M.Prefix(t, i, false) == M.Prefix(t, j, true)
    ensures R.CleanPrefix(t, i, false, true, false) == R.CleanPrefix(t, j, true, false, false)
  {
    hide M.TemplateParam, M.Substitution, R.CleanTemplateParam;
    assert M.Component(t, i) == M.At(j);
  }

  lemma NestedReads(t: string, i: nat, j: nat, k: nat)
    requires i < |t| && t[i] == 'N' && M.CVQualifiers(t, i + 1).Or(i + 1) == j <= |t|
    requires M.Prefix(t, j, false) == M.At(k) && k < |t| && t[k] == 'E' && R.CleanPrefix(t, j, false, true, false)
    ensures M.Name(t, i) == M.At(k + 1) && R.CleanName(t, i)
  {
    hide M.Prefix, R.CleanPrefix, M.CVQualifiers;
    assert M.NestedName(t, i) == M.At(k + 1) && R.CleanNestedName(t, i);
    hide M.NestedName, R.CleanNestedName;
  }

  // ---------------------------------------------------------------------------------
  // Special names
  // ---------------------------------------------------------------------------------

  lemma SpecialIsEncoding(t: string, i: nat)
    requires i < |t| && (t[i] == 'T' || t[i] == 'G') && M.SpecialName(t, i).At? && R.CleanSpecialName(t, i)
    ensures M.Encoding(t, i) == M.SpecialName(t, i) && R.CleanEncoding(t, i)
  {
    NotName(t, i);
    hide M.Name, M.SpecialName, R.CleanSpecialName;
  }

  lemma DataReads(t: string, i: nat)
    requires i + 1 < |t| && t[i] == 'T' &&
             (t[i + 1] == 'V' || t[i + 1] == 'T' || t[i + 1] == 'I' || t[i + 1] == 'S') && M.Type(t, i + 2).At? &&
               R.CleanType(t, i + 2)
    ensures M.Encoding(t, i) == M.Type(t, i + 2) && R.CleanEncoding(t, i)
  {
    hide M.Type, R.CleanType, M.Encoding, R.CleanEncoding;
    assert M.SpecialData(t, i) == M.Type(t, i + 2) && R.CleanSpecialData(t, i);
    hide M.SpecialData, R.CleanSpecialData;
    SpecialIsEncoding(t, i);
  }

  lemma ConstructionReads(t: string, i: nat, j: nat, k: nat)
    requires i + 1 < |t| && t[i] == 'T' && t[i + 1] == 'C' && M.Type(t, i + 2) == M.At(j) && R.CleanType(t, i + 2)
    requires j <= |t| && M.Number(t, j) == M.At(k) && k < |t| && t[k] == '_'
    requires M.Type(t, k + 1).At? && R.CleanType(t, k + 1)
    ensures M.Encoding(t, i) == M.Type(t, k + 1) && R.CleanEncoding(t, i)
  {
    hide M.Type, R.CleanType, M.Number, M.Encoding, R.CleanEncoding;
    assert M.SpecialData(t, i) == M.Fail && M.CovariantThunk(t, i) == M.Fail && M.CallOffset(t, i + 1) == M.Fail;
    assert M.Thunk(t, i) == M.Fail;
    assert M.ConstructionTable(t, i) == M.Type(t, k + 1) && R.CleanConstructionTable(t, i);
    hide M.SpecialData, M.CovariantThunk, M.Thunk, M.ConstructionTable, R.CleanConstructionTable;
    SpecialIsEncoding(t, i);
  }

  lemma ExtensionReads(t: string, i: nat)
    requires i + 1 < |t| && t[i] == 'T' && (t[i + 1] == 'F' || t[i + 1] == 'J') && M.Type(t, i + 2).At? &&
             R.CleanType(t, i + 2)
    ensures M.Encoding(t, i) == M.Type(t, i + 2) && R.CleanEncoding(t, i)
  {
    hide M.Type, R.CleanType, M.Encoding, R.CleanEncoding;
    assert M.SpecialData(t, i) == M.Fail && M.CovariantThunk(t, i) == M.Fail && M.CallOffset(t, i + 1) == M.Fail;
    assert M.Thunk(t, i) == M.Fail && M.ConstructionTable(t, i) == M.Fail;
    assert M.SpecialExtension(t, i) == M.Type(t, i + 2) && R.CleanSpecialExtension(t, i);
    hide M.SpecialData, M.CovariantThunk, M.Thunk, M.ConstructionTable, M.SpecialExtension, R.CleanSpecialExtension;
    SpecialIsEncoding(t, i);
  }

  lemma GuardReads(t: string, i: nat)
    requires i + 1 < |t| && t[i] == 'G' && t[i + 1] == 'V' && M.Name(t, i + 2).At? && R.CleanName(t, i + 2)
    ensures M.Encoding(t, i) == M.Name(t, i + 2) && R.CleanEncoding(t, i)
  {
    hide M.Encoding, R.CleanEncoding, M.Name, R.CleanName;
    assert M.SpecialData(t, i) == M.Fail && M.CovariantThunk(t, i) == M.Fail;
    assert M.Thunk(t, i) == M.Name(t, i + 2) && R.CleanThunk(t, i);
    hide M.SpecialData, M.CovariantThunk, M.Thunk, R.CleanThunk;
    SpecialIsEncoding(t, i);
  }

  lemma TemporaryReads(t: string, i: nat)
    requires i + 1 < |t| && t[i] == 'G' && t[i + 1] == 'R' && M.Name(t, i + 2).At? && R.CleanName(t, i + 2)
    ensures M.Encoding(t, i) == M.Name(t, i + 2) && R.CleanEncoding(t, i)
  {
    hide M.Encoding, R.CleanEncoding, M.Name, R.CleanName;
    assert M.SpecialData(t, i) == M.Fail && M.CovariantThunk(t, i) == M.Fail && M.Thunk(t, i) == M.Fail;
    assert M.ConstructionTable(t, i) == M.Fail;
    assert M.SpecialExtension(t, i) == M.Name(t, i + 2) && R.CleanSpecialExtension(t, i);
    hide M.SpecialData, M.CovariantThunk, M.Thunk, M.ConstructionTable, M.SpecialExtension, R.CleanSpecialExtension;
    SpecialIsEncoding(t, i);
  }

  lemma AliasReads(t: string, i: nat)
    requires i + 1 < |t| && t[i] == 'G' && t[i + 1] == 'A' && M.Encoding(t, i + 2).At? && R.CleanEncoding(t, i + 2)
    ensures M.Encoding(t, i) == M.Encoding(t, i + 2) && R.CleanEncoding(t, i)
  {
    hide M.Encoding, R.CleanEncoding;
    assert M.SpecialData(t, i) == M.Fail && M.CovariantThunk(t, i) == M.Fail && M.Thunk(t, i) == M.Fail;
    assert M.ConstructionTable(t, i) == M.Fail && M.SpecialExtension(t, i) == M.Fail;
    assert M.NamedThunk(t, i) == M.Encoding(t, i + 2) && R.CleanNamedThunk(t, i);
    hide M.SpecialData, M.CovariantThunk, M.Thunk, M.ConstructionTable, M.SpecialExtension, M.NamedThunk;
    hide R.CleanNamedThunk;
    SpecialIsEncoding(t, i);
  }

  lemma ThunkReads(t: string, i: nat, j: nat)
    requires i + 1 < |t| && t[i] == 'T' && (t[i + 1] == 'h' || t[i + 1] == 'v') && M.CallOffset(t, i + 1) == M.At(j)
    requires j <= |t| && M.Encoding(t, j).At? && R.CleanEncoding(t, j)
    ensures M.Encoding(t, i) == M.Encoding(t, j) && R.CleanEncoding(t, i)
  {
    hide M.Encoding, R.CleanEncoding, M.CallOffset;
    assert M.SpecialData(t, i) == M.Fail && M.CovariantThunk(t, i) == M.Fail;
    assert M.Thunk(t, i) == M.Encoding(t, j) && R.CleanThunk(t, i);
    hide M.SpecialData, M.CovariantThunk, M.Thunk, R.CleanThunk;
    SpecialIsEncoding(t, i);
  }

  lemma CovariantReads(t: string, i: nat, j: nat, k: nat)
    requires i + 1 < |t| && t[i] == 'T' && t[i + 1] == 'c' && M.CallOffset(t, i + 2) == M.At(j) && j <= |t|
    requires M.CallOffset(t, j) == M.At(k) && k <= |t| && M.Encoding(t, k).At? && R.CleanEncoding(t, k)
    ensures M.Encoding(t, i) == M.Encoding(t, k) && R.CleanEncoding(t, i)
  {
    hide M.Encoding, R.CleanEncoding, M.CallOffset;
    assert M.SpecialData(t, i) == M.Fail;
    assert M.CovariantThunk(t, i) == M.Encoding(t, k) && R.CleanCovariantThunk(t, i);
    hide M.SpecialData, M.CovariantThunk, R.CleanCovariantThunk;
    SpecialIsEncoding(t, i);
  }

  lemma NotOtherSpecial(t: string, i: nat)
    requires i + 2 < |t| && t[i] == 'T' && (t[i + 1] == 'h' || t[i + 1] == 'v')
    requires t[i + 2] == 'h' || t[i + 2] == 'v'
    ensures M.SpecialData(t, i) == M.Fail && M.CovariantThunk(t, i) == M.Fail && M.Thunk(t, i) == M.Fail
    ensures M.ConstructionTable(t, i) == M.Fail && M.SpecialExtension(t, i) == M.Fail
  {
    assert M.Number(t, i + 2) == M.Fail && M.CallOffset(t, i + 1) == M.Fail;
    hide M.CallOffset;
  }

  lemma NamedThunkReads(t: string, i: nat, j: nat)
    requires i + 2 < |t| && t[i] == 'T' && (t[i + 1] == 'h' || t[i + 1] == 'v') && M.CallOffset(t, i + 2) == M.At(j)
    requires j <= |t| && M.Encoding(t, j).At? && R.CleanEncoding(t, j)
    ensures M.NamedThunk(t, i) == M.Encoding(t, j) && R.CleanNamedThunk(t, i)
  {
    hide M.Encoding, R.CleanEncoding, M.CallOffset;
    assert "hv"[0] == 'h' && "hv"[1] == 'v';
  }

  lemma OtherThunkReads(t: string, i: nat, j: nat)
    requires i + 2 < |t| && t[i] == 'T' && (t[i + 1] == 'h' || t[i + 1] == 'v')
    requires (t[i + 2] == 'h' || t[i + 2] == 'v') && M.CallOffset(t, i + 2) == M.At(j)
    requires j <= |t| && M.Encoding(t, j).At? && R.CleanEncoding(t, j)
    ensures M.Encoding(t, i) == M.Encoding(t, j) && R.CleanEncoding(t, i)
  {
    hide M.Encoding, R.CleanEncoding, M.CallOffset, M.SpecialData, M.CovariantThunk, M.Thunk, M.ConstructionTable;
    hide M.SpecialExtension, M.NamedThunk, R.CleanNamedThunk;
    NotOtherSpecial(t, i);
    NamedThunkReads(t, i, j);
    SpecialIsEncoding(t, i);
  }
}
