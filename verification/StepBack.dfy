/** Source names with a negative length in mangled names (demangle.cc): which texts have them, and what the code does
    there. A length below -1 passes for short enough, and the source name is a success whose end lies before the end of
    its number. A length is negative because it is written so or because it does not fit an int. */
module StepBack {
  import opened Arith
  import opened Mangling

  // ---------------------------------------------------------------------------------
  // Which texts
  // ---------------------------------------------------------------------------------

  /** In terms of what is written: with an n, a decimal value that is between 2 and 2^31 modulo 2^32; without one, a
      value in the upper half but for the last one. */
  lemma StepsBackExactlyWhen(t: string, i: nat)
    requires i <= |t| && NumberAt(t, i).Numeral?
    ensures var d := Decimal(t, i) % TWO32;
            StepsBack(t, i) <==> if Signed(t, i) then 2 <= d <= TWO31 else TWO31 <= d <= TWO32 - 2
  {
    Reduced(Decimal(t, i));
  }

  lemma Reduced(x: int)
    ensures var d := x % TWO32;
            && Int32(x) == (if d < TWO31 then d else d - TWO32)
            && Int32(0 - x) == (if d <= TWO31 then 0 - d else TWO32 - d)
  {
    var q, d := x / TWO32, x % TWO32;
    DivModIdentity(x, TWO32);
    DivModUnique(if d < TWO31 then q else q + 1, if d < TWO31 then d + TWO31 else d - TWO31, TWO32);
    DivModUnique(if d <= TWO31 then 0 - q else 0 - q - 1, if d <= TWO31 then TWO31 - d else TWO32 + TWO31 - d, TWO32);
  }

  /** At a number that steps back no other rule gets anywhere, so that every rule for names comes upon it. */
  lemma NothingElseThere(t: string, i: nat)
    requires i <= |t| && StepsBack(t, i)
    ensures OperatorName(t, i) == Fail && CtorDtorName(t, i) == Fail && TemplateParam(t, i) == Fail &&
            Substitution(t, i) == Fail
    ensures SourceName(t, i) == Back && UnqualifiedName(t, i) == Back && Component(t, i) == Back
  {
    NumberStarts(t, i);
    assert Tok2(t, i, 'c', 'v') == Fail && Tok(t, i, 'v') == Fail && Tok(t, i, 'T') == Fail && Tok(t, i, 'S') == Fail;
    assert Tok(t, i, 'C') == Fail && Tok(t, i, 'D') == Fail;
    assert CastOperator(t, i) == Fail && VendorOperator(t, i) == Fail;
    assert OperatorName(t, i) == Fail;
    assert CtorDtorName(t, i) == Fail;
    assert UnscopedName(t, i) == Back;
  }

  lemma NumberStarts(t: string, i: nat)
    requires i <= |t| && NumberAt(t, i).Numeral?
    ensures i < |t| && if Signed(t, i) then i + 1 < |t| && IsDigit(t[i + 1]) else IsDigit(t[i])
  {
  }

  lemma {:induction false} DigitsArePositive(t: string, from: nat, end: nat)
    requires from <= end <= |t| && end <= DigitsEnd(t, from)
    ensures DigitsValue(t, from, end) >= 0
    decreases end
  {
    if from < end {
      DigitsArePositive(t, from, end - 1);
      AllDigits(t, from, end - 1);
    }
  }

  lemma {:induction false} AllDigits(t: string, from: nat, k: nat)
    requires from <= k < |t| && k < DigitsEnd(t, from)
    ensures IsDigit(t[k])
    decreases k - from
  {
    if from < k {
      AllDigits(t, from + 1, k);
    }
  }

  lemma EncodingThere(t: string, i: nat)
    requires i <= |t| && StepsBack(t, i)
    ensures Encoding(t, i) == Back
  {
    NothingElseThere(t, i);
    assert UnscopedTemplateName(t, i) == Back;
    assert NestedName(t, i) == Fail && LocalEntity(t, i) == Fail && LocalString(t, i) == Fail;
    assert Name(t, i) == Back;
  }

  /** A number reads the same behind any other text. */
  lemma {:induction false} DigitsBehind(x: string, s: string, i: nat)
    requires i <= |s|
    ensures DigitsEnd(x + s, |x| + i) == |x| + DigitsEnd(s, i)
    decreases |s| - i
  {
    if i < |s| && IsDigit(s[i]) {
      DigitsBehind(x, s, i + 1);
    }
  }

  lemma {:induction false} ValueBehind(x: string, s: string, from: nat, end: nat)
    requires from <= end <= |s|
    ensures DigitsValue(x + s, |x| + from, |x| + end) == DigitsValue(s, from, end)
    decreases end
  {
    if from < end {
      ValueBehind(x, s, from, end - 1);
    }
  }

  lemma StepsBackBehind(x: string, s: string, i: nat)
    requires i <= |s|
    ensures StepsBack(x + s, |x| + i) <==> StepsBack(s, i)
  {
    var from := DigitsStart(s, i);
    assert Signed(x + s, |x| + i) == Signed(s, i);
    DigitsBehind(x, s, from);
    ValueBehind(x, s, from, DigitsEnd(s, from));
  }

  lemma StepsBackInRest(t: string, k: nat, i: nat)
    requires k <= i <= |t|
    ensures StepsBack(t, i) <==> StepsBack(t[k..], i - k)
  {
    StepsBackBehind(t[..k], t[k..], i - k);
    assert t == t[..k] + t[k..];
  }

  /** Whatever part of a text is taken for the end of a name, no source name moves the cursor back, if and only if no
      number in the text is a negative length. */
  lemma NamesAreSafeExactlyWhen(t: string)
    ensures (forall k: nat :: k <= |t| ==> !MangledName("_Z" + t[k..], 0).Back?) <==> !HasStepBack(t)
  {
    if HasStepBack(t) {
      var k :| 0 <= k <= |t| && StepsBack(t, k);
      StepsBackInRest(t, k, k);
      StepsBackBehind("_Z", t[k..], 0);
      EncodingThere("_Z" + t[k..], 2);
      assert MangledName("_Z" + t[k..], 0).Back?;
    } else {
      forall k: nat | k <= |t|
        ensures !MangledName("_Z" + t[k..], 0).Back?
      {
        SafeEnd(t, k);
      }
    }
  }

  lemma SafeEnd(t: string, k: nat)
    requires !HasStepBack(t) && k <= |t|
    ensures !MangledName("_Z" + t[k..], 0).Back?
  {
    var name := "_Z" + t[k..];
    forall i | 0 <= i <= |name|
      ensures !StepsBack(name, i)
    {
      if i >= 2 {
        StepsBackBehind("_Z", t[k..], i - 2);
        StepsBackInRest(t, k, k + (i - 2));
      } else {
        assert name[i] == "_Z"[i];
      }
    }
  }

  /** No number that an int cannot hold, and no n in front of a value above one. */
  ghost predicate HasSmallNumbers(t: string) {
    forall i :: 0 <= i <= |t| ==> IsSmall(t, i)
  }

  predicate IsSmall(t: string, i: nat)
    requires i <= |t|
  {
    NumberAt(t, i).Numeral? ==> Decimal(t, i) < TWO31 && (Signed(t, i) ==> Decimal(t, i) <= 1)
  }

  /** The code computes the decimal value. */
  predicate IsExact(t: string, i: nat)
    requires i <= |t|
  {
    NumberAt(t, i).Numeral? ==> NumberAt(t, i).value == if Signed(t, i) then 0 - Decimal(t, i) else Decimal(t, i)
  }

  /** A check that can be made on any one text: then nothing moves the cursor back, and nothing wraps around. */
  lemma SafeText(t: string)
    requires HasSmallNumbers(t)
    ensures !MangledName(t, 0).Back?
    ensures forall i :: 0 <= i <= |t| ==> IsExact(t, i)
  {
    SmallNumbersStayAhead(t);
    WithoutStepBack(t);
    SmallNumbersAreExact(t);
  }

  lemma WithoutStepBack(t: string)
    requires !HasStepBack(t)
    ensures !MangledName(t, 0).Back?
  {
  }

  lemma SmallNumbersAreExact(t: string)
    requires HasSmallNumbers(t)
    ensures forall i :: 0 <= i <= |t| ==> IsExact(t, i)
  {
    forall i | 0 <= i <= |t|
      ensures IsExact(t, i)
    {
      assert IsSmall(t, i);
      SmallIsExact(t, i);
    }
  }

  lemma SmallNumbersStayAhead(t: string)
    requires HasSmallNumbers(t)
    ensures !HasStepBack(t)
  {
    forall i | 0 <= i <= |t|
      ensures !StepsBack(t, i)
    {
      assert IsSmall(t, i);
      SmallIsExact(t, i);
    }
  }

  lemma SmallIsExact(t: string, i: nat)
    requires i <= |t| && IsSmall(t, i)
    ensures IsExact(t, i) && !StepsBack(t, i)
  {
    DigitsArePositive(t, DigitsStart(t, i), DigitsEnd(t, DigitsStart(t, i)));
  }

  // ---------------------------------------------------------------------------------
  // What happens there
  // ---------------------------------------------------------------------------------

  /** Where the code's cursor stands after the source name. */
  function CodeEnd(t: string, i: nat): int
    requires i <= |t| && StepsBack(t, i)
  {
    NumberAt(t, i).end + NumberAt(t, i).value
  }

  /** The success moves forward if and only if the number has more characters than its value goes back; with a sign and
      without leading zeros, and as long as the value fits an int, that is never so. */
  lemma ProgressExactlyWhen(t: string, i: nat)
    requires i <= |t| && StepsBack(t, i)
    ensures CodeEnd(t, i) > i <==> NumberAt(t, i).end - i > 0 - NumberAt(t, i).value
    ensures Signed(t, i) ==> i + 1 < |t|
    ensures Signed(t, i) && t[i + 1] != '0' && Decimal(t, i) <= TWO31 ==> CodeEnd(t, i) <= i
  {
    NumberStarts(t, i);
    if Signed(t, i) && t[i + 1] != '0' && Decimal(t, i) <= TWO31 {
      LengthBound(t, i + 1, NumberAt(t, i).end);
    }
  }

  /** A decimal number without leading zeros is at least the count of its digits, and two or more if it has two. */
  lemma {:induction false} LengthBound(t: string, from: nat, end: nat)
    requires from < end <= |t| && end <= DigitsEnd(t, from) && t[from] != '0'
    ensures DigitsValue(t, from, end) >= end - from
    ensures end - from >= 2 ==> DigitsValue(t, from, end) > end - from
    decreases end
  {
    AllDigits(t, from, end - 1);
    if from + 1 < end {
      LengthBound(t, from, end - 1);
    } else {
      assert DigitsValue(t, from, from) == 0;
    }
  }

  /** One turn of the loop over prefixes at such a number: template parameter, substitution, operator and constructor
      fail there, the source name succeeds, and tags at its end are read. */
  function TurnEnd(t: string, i: nat): int
    requires i <= |t| && StepsBack(t, i)
  {
    var c := CodeEnd(t, i);
    if 0 <= c <= |t| then AbiTags(t, c).Or(c) else c
  }

  /** The cursor after a number of turns, as long as each finds such a number. */
  function Turns(t: string, i: int, n: nat): int
    decreases n
  {
    if n == 0 || i < 0 || i > |t| || !StepsBack(t, i) then i else Turns(t, TurnEnd(t, i), n - 1)
  }

  /** A number that goes back by as much as was read makes the loop over prefixes stay where it is, for any number of
      turns, each of which counts as a component found: the loop does not end. */
  lemma {:induction false} LoopStays(t: string, i: nat, n: nat)
    requires i <= |t| && StepsBack(t, i) && CodeEnd(t, i) == i
    ensures TemplateParam(t, i) == Fail && Substitution(t, i) == Fail && OperatorName(t, i) == Fail &&
            CtorDtorName(t, i) == Fail
    ensures TurnEnd(t, i) == i && Turns(t, i, n) == i
  {
    NothingElseThere(t, i);
    if n > 0 {
      LoopStays(t, i, n - 1);
    }
  }

  /** The nested name of _ZNn2E is such a place. */
  lemma NestedLoopDoesNotEnd(n: nat)
    ensures CVQualifiers("_ZNn2E", 3) == Fail && StepsBack("_ZNn2E", 3) && Turns("_ZNn2E", 3, n) == 3
  {
    var t := "_ZNn2E";
    assert t[3] == 'n' && t[4] == '2' && t[5] == 'E';
    assert DigitsEnd(t, 4) == 5;
    assert DigitsValue(t, 4, 5) == DigitsValue(t, 4, 4) * 10 + 2;
    LoopStays(t, 3, n);
  }

  /** At digits that step back a type can only be the source name, whatever stands behind. */
  lemma OnlyNameThere(t: string, i: nat)
    requires i <= |t| && StepsBack(t, i) && !Signed(t, i)
    ensures QualifiedType(t, i) == Fail && ExtendedType(t, i) == Fail && BuiltinType(t, i) == Fail
    ensures FunctionType(t, i) == Fail && NestedName(t, i) == Fail && LocalName(t, i) == Fail
    ensures Type(t, i) == Back
  {
    NumberStarts(t, i);
    NothingElseThere(t, i);
    DigitIsNoBuiltin(t[i]);
    assert CVQualifiedType(t, i) == Fail && ReferenceType(t, i) == Fail && PackExpansion(t, i) == Fail;
    assert Decltype(t, i) == Fail && VendorType(t, i) == Fail && FunctionType(t, i) == Fail;
    assert NestedName(t, i) == Fail && LocalEntity(t, i) == Fail && LocalString(t, i) == Fail;
    assert UnscopedTemplateName(t, i) == Back;
    assert Name(t, i) == Back && PlainType(t, i) == Back;
  }

  /** So the loop over types stays where it is in the same way, if no template arguments stand there: the name of a
      function whose length is 2^32 - 10, without any sign, goes back to its own first character, and what follows it
      for its parameter types is the same name again and again. */
  lemma TypesLoopDoesNotEnd(n: nat)
    ensures var t := "_Z4294967286";
            && StepsBack(t, 2) && TemplateArgs(t, 2) == Fail && Type(t, 2) == Back
            && TurnEnd(t, 2) == 2 && Turns(t, 2, n) == 2
  {
    var t := "_Z4294967286";
    LongNumber(t);
    TypesLoopAt(t, n);
  }

  lemma TypesLoopAt(t: string, n: nat)
    requires |t| == 12 && NumberAt(t, 2).Numeral? && NumberAt(t, 2).end == 12 && !Signed(t, 2)
    requires Decimal(t, 2) == TWO32 - 10
    ensures StepsBack(t, 2) && TemplateArgs(t, 2) == Fail && Type(t, 2) == Back
    ensures TurnEnd(t, 2) == 2 && Turns(t, 2, n) == 2
  {
    assert Int32(TWO32 - 10) == -10;
    NumberStarts(t, 2);
    OnlyNameThere(t, 2);
    LoopStays(t, 2, n);
  }

  /** The value of a length of ten digits. */
  lemma LongNumber(t: string)
    requires |t| >= 12 && (t[..11] == "_Z429496728" || t[..11] == "_Z429496729")
    requires IsDigit(t[11]) && (|t| > 12 ==> !IsDigit(t[12]))
    ensures !Signed(t, 2) && NumberAt(t, 2).Numeral? && NumberAt(t, 2).end == 12
    ensures Decimal(t, 2) == (if t[10] == '8' then 4294967280 else 4294967290) + (t[11] as int - '0' as int)
  {
    assert forall k :: 0 <= k < 11 ==> t[k] == t[..11][k];
    assert DigitsEnd(t, 12) == 12 && DigitsEnd(t, 11) == 12 && DigitsEnd(t, 10) == 12 && DigitsEnd(t, 9) == 12;
    assert DigitsEnd(t, 8) == 12 && DigitsEnd(t, 7) == 12 && DigitsEnd(t, 6) == 12 && DigitsEnd(t, 5) == 12;
    assert DigitsEnd(t, 4) == 12 && DigitsEnd(t, 3) == 12 && DigitsEnd(t, 2) == 12;
    assert DigitsValue(t, 2, 3) == 4 && DigitsValue(t, 2, 4) == 42 && DigitsValue(t, 2, 5) == 429;
    assert DigitsValue(t, 2, 6) == 4294 && DigitsValue(t, 2, 7) == 42949 && DigitsValue(t, 2, 8) == 429496;
    assert DigitsValue(t, 2, 9) == 4294967 && DigitsValue(t, 2, 10) == 42949672;
  }

  /** A length that wraps around to a smaller one is taken for that: the name has three characters. */
  lemma WrappedLengthIsAccepted()
    ensures var t := "_Z4294967299abc"; Decimal(t, 2) == TWO32 + 3 && IsMangled(t)
  {
    var t := "_Z4294967299abc";
    assert t[..11] == "_Z429496729" && t[11] == '9' && t[12] == 'a' && t[0] == '_' && t[1] == 'Z';
    LongNumber(t);
    WrappedLengthAt(t);
  }

  lemma WrappedLengthAt(t: string)
    requires |t| == 15 && t[0] == '_' && t[1] == 'Z'
    requires NumberAt(t, 2).Numeral? && NumberAt(t, 2).end == 12 && !Signed(t, 2) && Decimal(t, 2) == TWO32 + 3
    ensures IsMangled(t)
  {
    assert Int32(TWO32 + 3) == 3;
    NumberStarts(t, 2);
    DigitName(t, 2, 15);
    NoTypeAtEnd(t, 15);
    assert BareFunctionType(t, 15) == Fail;
    assert Encoding(t, 2) == At(15);
  }

  /** At a digit a type can only be a source name. */
  lemma DigitType(t: string, i: nat, j: nat)
    requires i + 2 <= |t| && IsDigit(t[i]) && SourceName(t, i) == At(j) && j == |t|
    ensures Type(t, i) == At(j)
  {
    DigitName(t, i, j);
    DigitIsNoBuiltin(t[i]);
    assert CVQualifiedType(t, i) == Fail && ReferenceType(t, i) == Fail && PackExpansion(t, i) == Fail;
    assert Decltype(t, i) == Fail && VendorType(t, i) == Fail && FunctionType(t, i) == Fail;
    assert PlainType(t, i) == At(j);
  }

  lemma DigitUnqualifiedName(t: string, i: nat, j: nat)
    requires i + 2 <= |t| && IsDigit(t[i]) && SourceName(t, i) == At(j) && j == |t|
    ensures UnqualifiedName(t, i) == At(j)
  {
    assert CastOperator(t, i) == Fail && VendorOperator(t, i) == Fail;
    var a, b, c, d := OperatorName(t, i), CtorDtorName(t, i), SourceName(t, i), AbiTags(t, j);
    assert a == Fail && b == Fail && d == Fail;
    assert UnqualifiedName(t, i) == d.Opt(j);
  }

  lemma DigitName(t: string, i: nat, j: nat)
    requires i + 2 <= |t| && IsDigit(t[i]) && SourceName(t, i) == At(j) && j == |t|
    ensures Name(t, i) == At(j)
  {
    DigitUnqualifiedName(t, i, j);
    assert UnscopedName(t, i) == At(j);
    assert UnscopedTemplateName(t, i) == At(j) && TemplateArgs(t, j) == Fail;
    assert NestedName(t, i) == Fail && LocalEntity(t, i) == Fail && LocalString(t, i) == Fail;
  }

  lemma DigitIsNoBuiltin(c: char)
    requires IsDigit(c)
    ensures !IsBuiltin(c)
  {
  }

  /** A text on which the code ends with success although it is no mangled name: the source name at 2 reads n002 and
      goes back to 4, and what stands there is the type of a parameter. */
  lemma AcceptedAfterStepBack()
    ensures var t := "_Zn002vv";
            !IsMangled(t) && StepsBack(t, 2) && CodeEnd(t, 2) == 4 && AbiTags(t, 4) == Fail &&
              BareFunctionType(t, 4) == At(|t|)
  {
    var t := "_Zn002vv";
    NumbersOfExample();
    AcceptedAt(t);
  }

  lemma AcceptedAt(t: string)
    requires |t| == 8 && t[0] == '_' && t[1] == 'Z' && IsDigit(t[4]) && t[4] != 'B'
    requires NumberAt(t, 2) == Numeral(6, -2) && NumberAt(t, 4) == Numeral(6, 2)
    ensures !IsMangled(t) && StepsBack(t, 2) && CodeEnd(t, 2) == 4 && AbiTags(t, 4) == Fail
    ensures BareFunctionType(t, 4) == At(8)
  {
    EncodingThere(t, 2);
    DigitType(t, 4, 8);
    NoTypeAtEnd(t, 8);
    assert MoreTypes(t, 8) == At(8);
  }

  lemma NumbersOfExample()
    ensures var t := "_Zn002vv"; NumberAt(t, 2) == Numeral(6, -2) && NumberAt(t, 4) == Numeral(6, 2)
  {
    var t := "_Zn002vv";
    assert t[2] == 'n' && t[3] == '0' && t[4] == '0' && t[5] == '2' && t[6] == 'v' && t[7] == 'v';
    assert DigitsEnd(t, 5) == 6 && DigitsEnd(t, 4) == 6 && DigitsEnd(t, 3) == 6;
    assert DigitsValue(t, 4, 5) == DigitsValue(t, 4, 4) * 10 && DigitsValue(t, 4, 6) == DigitsValue(t, 4, 5) * 10 + 2;
    assert DigitsValue(t, 3, 4) == DigitsValue(t, 3, 3) * 10 && DigitsValue(t, 3, 5) == DigitsValue(t, 3, 4) * 10;
    assert DigitsValue(t, 3, 6) == DigitsValue(t, 3, 5) * 10 + 2;
  }

  lemma NothingUnqualifiedAtEnd(t: string, i: nat)
    requires i == |t|
    ensures UnqualifiedName(t, i) == Fail
  {
    var a, b, c, d := OperatorName(t, i), CtorDtorName(t, i), SourceName(t, i), LocalSourceName(t, i);
    assert a == Fail && b == Fail && c == Fail && d == Fail;
  }

  lemma NoNameAtEnd(t: string, i: nat)
    requires i == |t|
    ensures Name(t, i) == Fail
  {
    NothingUnqualifiedAtEnd(t, i);
    var a, b := UnscopedName(t, i), Substitution(t, i);
    assert a == Fail && b == Fail;
    var c, d, e := NestedName(t, i), LocalEntity(t, i), LocalString(t, i);
    assert c == Fail && d == Fail && e == Fail && UnscopedTemplateName(t, i) == Fail;
  }

  lemma NoTypeAtEnd(t: string, i: nat)
    requires i == |t|
    ensures Type(t, i) == Fail
  {
    NoNameAtEnd(t, i);
    assert CVQualifiedType(t, i) == Fail && ReferenceType(t, i) == Fail && PackExpansion(t, i) == Fail;
    assert Decltype(t, i) == Fail && VendorType(t, i) == Fail;
    assert NumberedArray(t, i) == Fail && DependentArray(t, i) == Fail;
    assert PointerToMemberType(t, i) == Fail && FunctionType(t, i) == Fail && BuiltinType(t, i) == Fail;
    assert PlainType(t, i) == Fail;
  }
}
