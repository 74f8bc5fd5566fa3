/** The rules of the demangler's grammar that contain no types and no names behind lengths: wherever a word of such a
    rule begins, the ordered reading finds it. */
module Tokens {
  import M = Mangling
  import opened Bnf
  import R = Reading

  // ---------------------------------------------------------------------------------
  // Taking words apart
  // ---------------------------------------------------------------------------------

  lemma FirstOf(t: string, w: bool, ss: seq<Symbol>, i: nat, j: nat) returns (k: nat)
    requires ss != [] && IsSequence(t, w, ss, i, j)
    ensures IsSymbol(t, w, ss[0], i, k) && IsSequence(t, w, ss[1..], k, j)
  {
    k :| IsSymbol(t, w, ss[0], i, k) && IsSequence(t, w, ss[1..], k, j);
  }

  lemma OneSymbol(t: string, w: bool, a: Symbol, i: nat, j: nat)
    requires IsSequence(t, w, [a], i, j)
    ensures IsSymbol(t, w, a, i, j)
  {
    var k := FirstOf(t, w, [a], i, j);
  }

  lemma TwoSymbols(t: string, w: bool, a: Symbol, b: Symbol, i: nat, j: nat) returns (k: nat)
    requires IsSequence(t, w, [a, b], i, j)
    ensures IsSymbol(t, w, a, i, k) && IsSymbol(t, w, b, k, j)
  {
    k := FirstOf(t, w, [a, b], i, j);
    assert [a, b][1..] == [b];
    OneSymbol(t, w, b, k, j);
  }

  lemma ThreeSymbols(t: string, w: bool, a: Symbol, b: Symbol, c: Symbol, i: nat, j: nat) returns (k: nat, l: nat)
    requires IsSequence(t, w, [a, b, c], i, j)
    ensures IsSymbol(t, w, a, i, k) && IsSymbol(t, w, b, k, l) && IsSymbol(t, w, c, l, j)
  {
    k := FirstOf(t, w, [a, b, c], i, j);
    assert [a, b, c][1..] == [b, c];
    l := TwoSymbols(t, w, b, c, k, j);
  }

  // ---------------------------------------------------------------------------------
  // Runs and numbers
  // ---------------------------------------------------------------------------------

  /** Digits with no digit behind them are read as a whole. */
  lemma {:induction false} DigitsAreRead(t: string, i: nat, j: nat)
    requires i <= j <= |t| && (forall k :: i <= k < j ==> M.IsDigit(t[k])) && (j < |t| ==> !M.IsDigit(t[j]))
    ensures M.DigitsEnd(t, i) == j
    decreases j - i
  {
    if i < j { DigitsAreRead(t, i + 1, j); }
  }

  lemma NumberIsRead(t: string, w: bool, i: nat, j: nat)
    requires IsSymbol(t, w, Number, i, j) && j < |t| && !M.IsDigit(t[j])
    ensures M.Number(t, i) == M.At(j)
  {
    DigitsAreRead(t, M.DigitsStart(t, i), j);
  }

  /** A number is found also with digits behind it. */
  lemma {:induction false} DigitsAreFound(t: string, i: nat, j: nat)
    requires IsDigits(t, i, j)
    ensures M.DigitsEnd(t, i) >= j
    decreases j - i
  {
    if i + 1 < j { DigitsAreFound(t, i + 1, j); }
  }

  lemma {:induction false} RunIsRead(t: string, i: nat, j: nat, low: char, high: char)
    requires i <= j < |t| && (forall k :: i <= k < j ==> M.IsDigit(t[k]) || low <= t[k] <= high)
    requires !M.IsDigit(t[j]) && !(low <= t[j] <= high)
    ensures M.RunEnd(t, i, low, high) == j
    decreases j - i
  {
    if i < j { RunIsRead(t, i + 1, j, low, high); }
  }

  // ---------------------------------------------------------------------------------
  // Tables
  // ---------------------------------------------------------------------------------

  /** Every operator of the table is a small letter and another letter, and none is the start of a cast. */
  lemma TableOfOperators(k: nat)
    requires k < |M.OPERATORS|
    ensures var (c, d, _) := M.OPERATORS[k]; M.IsLower(c) && c != 'v' && M.IsAlpha(d) && (c, d) != ('c', 'v')
  {
  }

  lemma OperatorIsRead(t: string, i: nat)
    requires i + 1 < |t| && M.IsOperator(t[i], t[i + 1])
    ensures M.OperatorName(t, i) == M.At(i + 2) && M.IsLower(t[i]) && R.CleanOperatorName(t, i)
  {
    var k :| 0 <= k < |M.OPERATORS| && M.OPERATORS[k].0 == t[i] && M.OPERATORS[k].1 == t[i + 1];
    TableOfOperators(k);
    assert M.CastOperator(t, i) == M.Fail && M.VendorOperator(t, i) == M.Fail;
  }

  // ---------------------------------------------------------------------------------
  // The rules
  // ---------------------------------------------------------------------------------

  /** An operator of two letters. */
  lemma OperatorIsFound(t: string, w: bool, i: nat, j: nat)
    requires IsSymbol(t, w, Operator, i, j)
    ensures M.OperatorName(t, i) == M.At(j)
  {
    OperatorIsRead(t, i);
  }

  lemma BuiltinIsFound(t: string, w: bool, i: nat, j: nat)
    requires IsSymbol(t, w, BuiltinLetter, i, j)
    ensures M.BuiltinType(t, i) == M.At(j)
  {
  }

  lemma CtorDtorIsFound(t: string, w: bool, i: nat, j: nat)
    requires i <= |t| && IsWord(t, w, CtorDtorName, i, j)
    ensures M.CtorDtorName(t, i) == M.At(j)
  {
    var ss: seq<Symbol> :| MayUse(w, CtorDtorName, ss) && IsSequence(t, w, ss, i, j);
    if ss == [Char('C'), Among("123")] {
      var k := TwoSymbols(t, w, Char('C'), Among("123"), i, j);
    } else {
      var k := TwoSymbols(t, w, Char('D'), Among("012"), i, j);
    }
  }

  /** The qualifiers read are all there are, so at least those of any word. */
  lemma CVQualifiersAreFound(t: string, w: bool, i: nat, j: nat)
    requires i <= |t| && IsWord(t, w, CVQualifiers, i, j)
    ensures M.CVQualifiers(t, i).At? && M.CVQualifiers(t, i).i >= j
  {
    var ss: seq<Symbol> :| MayUse(w, CVQualifiers, ss) && IsSequence(t, w, ss, i, j);
    if |ss| == 1 {
      OneSymbol(t, w, ss[0], i, j);
    } else if |ss| == 2 {
      var k := TwoSymbols(t, w, ss[0], ss[1], i, j);
    } else {
      var k, l := ThreeSymbols(t, w, Char('r'), Char('V'), Char('K'), i, j);
    }
  }

  lemma TemplateParamIsFound(t: string, w: bool, i: nat, j: nat)
    requires i <= |t| && IsWord(t, w, TemplateParam, i, j)
    ensures M.TemplateParam(t, i) == M.At(j)
  {
    var ss: seq<Symbol> :| MayUse(w, TemplateParam, ss) && IsSequence(t, w, ss, i, j);
    if |ss| == 2 {
      var k := TwoSymbols(t, w, Char('T'), Char('_'), i, j);
    } else {
      var k, l := ThreeSymbols(t, w, Char('T'), ss[1], Char('_'), i, j);
      DigitsOrNumber(t, w, ss[1], k, l);
      NumberIsRead(t, w, k, l);
    }
  }

  lemma DigitsOrNumber(t: string, w: bool, s: Symbol, i: nat, j: nat)
    requires (s == Digits || s == Number) && IsSymbol(t, w, s, i, j)
    ensures IsSymbol(t, w, Number, i, j)
  {
    if s == Digits { assert M.IsDigit(t[i]); }
  }

  lemma SubstitutionIsFound(t: string, w: bool, i: nat, j: nat)
    requires i <= |t| && IsWord(t, w, Substitution, i, j)
    ensures M.Substitution(t, i) == M.At(j)
  {
    var ss: seq<Symbol> :| MayUse(w, Substitution, ss) && IsSequence(t, w, ss, i, j);
    if ss == [Char('S'), Char('_')] {
      var k := TwoSymbols(t, w, Char('S'), Char('_'), i, j);
    } else if ss == [Char('S'), SeqId, Char('_')] {
      var k, l := ThreeSymbols(t, w, Char('S'), SeqId, Char('_'), i, j);
      RunIsRead(t, k, l, 'A', 'Z');
    } else {
      var k := TwoSymbols(t, w, Char('S'), Abbreviation, i, j);
      AbbreviationIsSmall(t[k]);
      RunIsRead(t, k, k, 'A', 'Z');
    }
  }

  lemma AbbreviationIsSmall(c: char)
    requires M.IsSubstitution(c)
    ensures M.IsLower(c)
  {
  }

  lemma DiscriminatorIsFound(t: string, w: bool, i: nat, j: nat)
    requires i <= |t| && IsWord(t, w, Discriminator, i, j)
    ensures M.Discriminator(t, i).At? && M.Discriminator(t, i).i >= j
  {
    var ss: seq<Symbol> :| MayUse(w, Discriminator, ss) && IsSequence(t, w, ss, i, j);
    var k := TwoSymbols(t, w, Char('_'), Number, i, j);
    DigitsAreFound(t, M.DigitsStart(t, k), j);
  }

  lemma CallOffsetIsFound(t: string, w: bool, i: nat, j: nat)
    requires i <= |t| && IsWord(t, w, CallOffset, i, j)
    ensures M.CallOffset(t, i) == M.At(j)
  {
    var ss: seq<Symbol> :| MayUse(w, CallOffset, ss) && IsSequence(t, w, ss, i, j);
    if ss == [Char('h'), Number, Char('_')] {
      var k, l := ThreeSymbols(t, w, Char('h'), Number, Char('_'), i, j);
      NumberIsRead(t, w, k, l);
    } else {
      VirtualOffsetIsFound(t, w, i, j);
    }
  }

  lemma VirtualOffsetIsFound(t: string, w: bool, i: nat, j: nat)
    requires i <= |t| && IsSequence(t, w, [Char('v'), Number, Char('_'), Number, Char('_')], i, j)
    ensures M.CallOffset(t, i) == M.At(j)
  {
    var ss := [Char('v'), Number, Char('_'), Number, Char('_')];
    var k := FirstOf(t, w, ss, i, j);
    assert ss[1..] == [Number, Char('_'), Number, Char('_')];
    var l := FirstOf(t, w, ss[1..], k, j);
    assert ss[1..][1..] == [Char('_'), Number, Char('_')];
    var m, n := ThreeSymbols(t, w, Char('_'), Number, Char('_'), l, j);
    NumberIsRead(t, w, k, l);
    NumberIsRead(t, w, m, n);
  }

  /** A name behind its length, if it does not begin with a digit and its length fits an int. */
  lemma SourceNameIsFound(t: string, i: nat, m: nat, j: nat)
    requires HasLength(t, i, m, j) && !M.IsDigit(t[m]) && M.DigitsValue(t, i, m) < M.TWO31
    ensures M.SourceName(t, i) == M.At(j)
  {
    assert M.IsDigit(t[i]);
    DigitsAreRead(t, i, m);
  }
}
