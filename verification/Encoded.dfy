/** On symbols that are written the way a compiler does it the demangler's ordered reading loses nothing: whatever their
    names, lengths, types, template arguments, expressions and numbers, the text of each part is read as that part, up
    to what follows it. */
module Encoded {
  import M = Mangling
  import N = Numerals
  import R = Reading
  import Bnf
  import StepBack
  import Tokens
  import Written
  import opened Types
  import opened Spelling
  import opened Alternatives

  // ---------------------------------------------------------------------------------
  // Texts inside a text
  // ---------------------------------------------------------------------------------

  /** From place i on the text is s. */
  predicate Has(t: string, i: nat, s: string) {
    i <= |t| && t[i..] == s
  }

  /** Where the end of the text that is k begins. */
  function At(t: string, k: string): nat
    requires |k| <= |t|
  {
    |t| - |k|
  }

  lemma Step(t: string, i: nat, c: char, s: string)
    requires Has(t, i, [c] + s)
    ensures i < |t| && t[i] == c && Has(t, i + 1, s) && |s| < |t| && At(t, s) == i + 1
  {
    assert t[i..][0] == c && t[i..][1..] == s;
  }

  lemma TwoLetters(t: string, i: nat, c: char, d: char, s: string)
    requires Has(t, i, [c] + ([d] + s))
    ensures i + 1 < |t| && t[i] == c && t[i + 1] == d && Has(t, i + 2, s)
  {
    Step(t, i, c, [d] + s);
    Step(t, i + 1, d, s);
  }

  lemma Skip(t: string, i: nat, a: string, s: string)
    requires Has(t, i, a + s)
    ensures i + |a| <= |t| && t[i..i + |a|] == a && Has(t, i + |a|, s) && |s| <= |t| && At(t, s) == i + |a|
    ensures forall k :: 0 <= k < |a| ==> t[i + k] == a[k]
  {
    assert t[i..][..|a|] == a && t[i..][|a|..] == s;
    forall k | 0 <= k < |a|
      ensures t[i + k] == a[k]
    {
      assert t[i..][..|a|][k] == a[k];
    }
  }

  lemma First(t: string, i: nat, s: string)
    requires Has(t, i, s)
    ensures s == "" <==> i == |t|
    ensures s != "" ==> i < |t| && t[i] == s[0]
  {
    if s != "" { assert t[i..][0] == s[0]; }
  }

  // ---------------------------------------------------------------------------------
  // What may follow
  // ---------------------------------------------------------------------------------

  /** Behind a type: no argument list, no tag and no number behind an underscore. */
  predicate Follows(k: string) {
    k == "" || (k[0] != 'I' && k[0] != 'B' && k[0] != '_')
  }

  /** Behind a symbol: the end, an E, or a suffix. */
  predicate Ends(k: string) {
    k == "" || k[0] == 'E' || k[0] == '.' || k[0] == '@'
  }

  predicate FollowsPart(p: Part, k: string) {
    && (k != "" ==> k[0] != 'B')
    && (k != "" && k[0] == '_' ==> PartTakesNumber(p))
    && (k != "" && M.IsDigit(k[0]) ==> !(p.LocalNamed? && p.at.Some? && p.tags == []))
    && (k != "" && k[0] == 'I' ==> !p.Cast?)
  }

  predicate FollowsName(n: Name, k: string) {
    && (k != "" ==> k[0] != 'B' && k[0] != 'I')
    && (k != "" && k[0] == '_' ==> TakesNumber(n))
    && (k != "" && M.IsDigit(k[0]) ==> !EndsInDigits(n))
    && (NeedsEnd(n) ==> Ends(k))
  }

  predicate FollowsArg(a: Arg, k: string) {
    (a.Type? ==> Follows(k)) && (a.Value? && a.l.OldExternal? ==> k != "" && k[0] == 'E')
  }

  // ---------------------------------------------------------------------------------
  // Lengths, names and numbers
  // ---------------------------------------------------------------------------------

  lemma {:induction false} SameValue(t: string, i: nat, s: string)
    requires i + |s| <= |t| && t[i..i + |s|] == s && forall k :: 0 <= k < |s| ==> '0' <= s[k] <= '9'
    ensures M.DigitsValue(t, i, i + |s|) == N.DigitsValue(s)
    decreases |s|
  {
    if s != "" {
      var r := s[..|s| - 1];
      assert t[i..i + |r|] == r;
      SameValue(t, i, r);
      assert t[i + |s| - 1] == t[i..i + |s|][|s| - 1];
    }
  }

  lemma DigitsIn(t: string, i: nat, s: string)
    requires i + |s| <= |t| && t[i..i + |s|] == s && N.Digits(s)
    ensures forall k :: i <= k < i + |s| ==> M.IsDigit(t[k])
  {
    forall k | i <= k < i + |s|
      ensures M.IsDigit(t[k])
    {
      assert t[k] == t[i..i + |s|][k - i];
    }
  }

  lemma DigitsRead(t: string, i: nat, s: string, k: string)
    requires Has(t, i, s + k) && s != "" && N.Digits(s) && (k != "" ==> !M.IsDigit(k[0]))
    requires 0 <= N.DigitsValue(s) < M.TWO31
    ensures |k| < |t| && At(t, k) == i + |s| && i < |t| && M.IsDigit(t[i]) && !M.Signed(t, i)
    ensures M.NumberAt(t, i) == M.Numeral(At(t, k), N.DigitsValue(s)) && M.Decimal(t, i) == N.DigitsValue(s)
  {
    Skip(t, i, s, k);
    First(t, i + |s|, k);
    hide Has, N.DigitsValue, N.Digits, M.NumberAt, M.Decimal, M.Signed;
    DigitsAt(t, i, s);
  }

  lemma DigitsAt(t: string, i: nat, s: string)
    requires i + |s| <= |t| && t[i..i + |s|] == s && s != "" && N.Digits(s) && 0 <= N.DigitsValue(s) < M.TWO31
    requires i + |s| < |t| ==> !M.IsDigit(t[i + |s|])
    ensures M.IsDigit(t[i]) && !M.Signed(t, i)
    ensures M.NumberAt(t, i) == M.Numeral(i + |s|, N.DigitsValue(s)) && M.Decimal(t, i) == N.DigitsValue(s)
  {
    hide N.DigitsValue, M.DigitsEnd, M.DigitsValue, M.NumberAt, M.Decimal, M.Signed;
    DigitsIn(t, i, s);
    Tokens.DigitsAreRead(t, i, i + |s|);
    SameValue(t, i, s);
    NumberIs(t, i, i + |s|);
  }

  /** A printed length is read back as it was. */
  lemma LengthReads(t: string, i: nat, n: nat, k: string)
    requires Has(t, i, N.DecNat(n) + k) && n < M.TWO31 && (k != "" ==> !M.IsDigit(k[0]))
    ensures |k| < |t| && M.NumberAt(t, i) == M.Numeral(At(t, k), n) && M.Decimal(t, i) == n
    ensures i < |t| && M.IsDigit(t[i]) && !M.Signed(t, i)
  {
    hide Has, N.DecNat, M.NumberAt, M.Decimal;
    N.DecNatReads(n);
    DigitsRead(t, i, N.DecNat(n), k);
  }

  lemma NumberIs(t: string, i: nat, j: nat)
    requires i < |t| && M.IsDigit(t[i]) && M.DigitsEnd(t, i) == j && 0 <= M.DigitsValue(t, i, j) < M.TWO31
    ensures M.NumberAt(t, i) == M.Numeral(j, M.DigitsValue(t, i, j)) && M.Decimal(t, i) == M.DigitsValue(t, i, j)
    ensures !M.Signed(t, i)
  {
    hide M.DigitsValue;
  }

  lemma NameReads(t: string, i: nat, name: string, k: string)
    requires Has(t, i, NameThen(name, k)) && IsIdentifier(name)
    ensures i < |t| && M.IsDigit(t[i]) && |k| <= |t| && Has(t, At(t, k), k) && At(t, k) > i
    ensures M.SourceName(t, i) == M.At(At(t, k)) && R.CleanSourceName(t, i)
  {
    LengthReads(t, i, |name|, name + k);
    Skip(t, i, N.DecNat(|name|), name + k);
    Skip(t, i + |N.DecNat(|name|)|, name, k);
  }

  /** The tags of a name, if there are any. */
  lemma {:induction false} TagsRead(t: string, i: nat, tags: seq<string>, k: string)
    requires Has(t, i, TagsThen(tags, k)) && AreIdentifiers(tags) && (k != "" ==> k[0] != 'B')
    ensures |k| <= |t| && Has(t, At(t, k), k) && At(t, k) >= i
    ensures M.AbiTags(t, i) == (if tags == [] then M.Fail else M.At(At(t, k))) && R.CleanAbiTags(t, i)
    ensures M.MoreAbiTags(t, i) == M.At(At(t, k))
    decreases |tags|
  {
    if tags == [] {
      First(t, i, k);
    } else {
      var rest := TagsThen(tags[1..], k);
      Step(t, i, 'B', NameThen(tags[0], rest));
      hide Has, NameThen;
      NameReads(t, i + 1, tags[0], rest);
      hide M.SourceName, R.CleanSourceName;
      assert M.AbiTag(t, i) == M.At(At(t, rest)) && R.CleanAbiTag(t, i);
      TagsRead(t, At(t, rest), tags[1..], k);
      NoLastB(t, At(t, rest), tags[1..], k);
      hide M.AbiTag, R.CleanAbiTag;
    }
  }

  lemma NoLastB(t: string, i: nat, tags: seq<string>, k: string)
    requires Has(t, i, TagsThen(tags, k)) && AreIdentifiers(tags) && (k != "" ==> k[0] != 'B')
    ensures if tags == [] then M.AbiTag(t, i) == M.Fail && M.Tok(t, i, 'B') == M.Fail else M.AbiTag(t, i).At?
  {
    if tags == [] {
      First(t, i, k);
    } else {
      Step(t, i, 'B', NameThen(tags[0], TagsThen(tags[1..], k)));
      NameReads(t, i + 1, tags[0], TagsThen(tags[1..], k));
    }
  }

  /** A number of any size, with a sign or without. */
  lemma SignedReads(t: string, i: nat, x: Signed, k: string)
    requires Has(t, i, SignedThen(x, k)) && (k != "" ==> !M.IsDigit(k[0]))
    ensures i < |t| && (t[i] == 'n' || M.IsDigit(t[i]))
    ensures |k| <= |t| && Has(t, At(t, k), k) && At(t, k) > i && M.Number(t, i) == M.At(At(t, k))
  {
    var s := N.DecNat(x.n);
    N.DecNatReads(x.n);
    if x.negative { Step(t, i, 'n', s + k); }
    var j := if x.negative then i + 1 else i;
    Skip(t, j, s, k);
    DigitsIn(t, j, s);
    First(t, j + |s|, k);
    assert M.IsDigit(t[j]);
    Tokens.DigitsAreRead(t, j, j + |s|);
  }

  lemma SignedBegins(x: Signed, k: string)
    ensures var s := SignedThen(x, k); s != "" && (s[0] == 'n' || M.IsDigit(s[0]))
  {
    N.DecNatReads(x.n);
  }

  /** A number behind an underscore, if there is one. */
  lemma PlaceReads(t: string, i: nat, at: Option<Signed>, k: string)
    requires Has(t, i, PlaceThen(at, k)) && (k != "" && k[0] == '_' ==> at.Some?)
    requires k != "" && M.IsDigit(k[0]) ==> at.None?
    ensures |k| <= |t| && Has(t, At(t, k), k) && At(t, k) >= i && M.Discriminator(t, i).Or(i) == At(t, k)
  {
    if at.None? {
      First(t, i, k);
    } else {
      Step(t, i, '_', SignedThen(at.value, k));
      SignedReads(t, i + 1, at.value, k);
    }
  }

  lemma OffsetReads(t: string, i: nat, o: Offset, k: string)
    requires Has(t, i, OffsetThen(o, k))
    ensures i < |t| && (t[i] == 'h' || t[i] == 'v')
    ensures |k| <= |t| && Has(t, At(t, k), k) && At(t, k) > i && M.CallOffset(t, i) == M.At(At(t, k))
  {
    hide M.Number, Has, SignedThen;
    match o
    case Plain(a) =>
      Step(t, i, 'h', SignedThen(a, "_" + k));
      SignedReads(t, i + 1, a, "_" + k);
      Step(t, At(t, "_" + k), '_', k);
    case Virtual(a, b) =>
      var second := SignedThen(b, "_" + k);
      Step(t, i, 'v', SignedThen(a, "_" + second));
      SignedReads(t, i + 1, a, "_" + second);
      Step(t, At(t, "_" + second), '_', second);
      SignedReads(t, At(t, second), b, "_" + k);
      Step(t, At(t, "_" + k), '_', k);
  }

  lemma EarlierReads(t: string, i: nat, e: Earlier, k: string)
    requires Has(t, i, EarlierThen(e, k)) && IsEarlier(e)
    ensures i + 1 < |t| && t[i] == 'S' && (t[i + 1] == 't' ==> e == Standard('t'))
    ensures |k| <= |t| && Has(t, At(t, k), k) && At(t, k) > i
    ensures M.Substitution(t, i) == M.At(At(t, k)) && M.TemplateParam(t, i) == M.Fail
  {
    match e
    case First =>
      Skip(t, i, "S_", k);
    case Nth(id) =>
      NthReads(t, i, id, k);
    case Standard(c) =>
      Skip(t, i, ['S', c], k);
      Tokens.AbbreviationIsSmall(c);
      Tokens.RunIsRead(t, i + 1, i + 1, 'A', 'Z');
  }

  lemma NthReads(t: string, i: nat, id: string, k: string)
    requires Has(t, i, EarlierThen(Nth(id), k)) && IsEarlier(Nth(id))
    ensures i + 1 < |t| && t[i] == 'S' && t[i + 1] != 't'
    ensures |k| <= |t| && Has(t, At(t, k), k) && At(t, k) > i
    ensures M.Substitution(t, i) == M.At(At(t, k)) && M.TemplateParam(t, i) == M.Fail
  {
    Step(t, i, 'S', id + ("_" + k));
    Skip(t, i + 1, id, "_" + k);
    Step(t, i + 1 + |id|, '_', k);
    assert t[i + 1] == t[i + 1 + 0];
    Tokens.RunIsRead(t, i + 1, i + 1 + |id|, 'A', 'Z');
  }

  lemma ParamReads(t: string, i: nat, digits: string, k: string)
    requires Has(t, i, NumberedThen(digits, k)) && AreDigits(digits)
    ensures i < |t| && t[i] == 'T' && |k| <= |t| && Has(t, At(t, k), k) && At(t, k) > i
    ensures M.TemplateParam(t, i) == M.At(At(t, k)) && R.CleanTemplateParam(t, i)
  {
    Step(t, i, 'T', digits + ("_" + k));
    Skip(t, i + 1, digits, "_" + k);
    Step(t, i + 1 + |digits|, '_', k);
    if digits != "" {
      assert t[i + 1] == t[i + 1 + 0];
      Tokens.DigitsAreRead(t, i + 1, i + 1 + |digits|);
    }
  }

  lemma MaybeReads(t: string, i: nat, b: bool, c: char, k: string)
    requires Has(t, i, MaybeThen(b, c, k)) && (!b && k != "" ==> k[0] != c)
    ensures |k| <= |t| && Has(t, At(t, k), k) && At(t, k) == (if b then i + 1 else i)
    ensures M.Tok(t, i, c) == if b then M.At(i + 1) else M.Fail
  {
    if b { Step(t, i, c, k); } else { First(t, i, k); }
  }

  /** Qualifiers are read to the last one. */
  lemma QualifiersRead(t: string, i: nat, q: Qualifiers, k: string)
    requires Has(t, i, QualifiersThen(q, k)) && (k != "" ==> !Qualifies(k[0]))
    ensures |k| <= |t| && Has(t, At(t, k), k) && At(t, k) >= i
    ensures M.CVQualifiers(t, i) == if q.r || q.v || q.k then M.At(At(t, k)) else M.Fail
    ensures M.CVQualifiers(t, i).Or(i) == At(t, k)
  {
    hide Has;
    var third := MaybeThen(q.k, 'K', k);
    var second := MaybeThen(q.v, 'V', third);
    MaybeReads(t, i, q.r, 'r', second);
    MaybeReads(t, At(t, second), q.v, 'V', third);
    MaybeReads(t, At(t, third), q.k, 'K', k);
  }

  // ---------------------------------------------------------------------------------
  // Parts of names
  // ---------------------------------------------------------------------------------

  lemma {:induction false} PartReads(t: string, i: nat, p: Part, k: string)
    requires Has(t, i, PartThen(p, k)) && IsPart(p) && FollowsPart(p, k)
    ensures i < |t| && BeginsPart(t[i])
    ensures |k| <= |t| && Has(t, At(t, k), k) && At(t, k) > i
    ensures M.UnqualifiedName(t, i) == M.At(At(t, k)) && R.CleanUnqualifiedName(t, i)
    decreases p, 1
  {
    hide Has, NameThen, M.SourceName, R.CleanSourceName, M.AbiTags, R.CleanAbiTags, M.OperatorName;
    hide R.CleanOperatorName, M.UnqualifiedName, R.CleanUnqualifiedName;
    match p
    case Named(name, tags) =>
      var rest := TagsThen(tags, k);
      NameReads(t, i, name, rest);
      TagsRead(t, At(t, rest), tags, k);
      TaggedReads(t, i, At(t, rest));
    case LocalNamed(_, _, _) =>
      LocalNamedReads(t, i, p, k);
    case Structor(c, d) =>
      TwoLetters(t, i, c, d, k);
      Step(t, i, c, [d] + k);
      Step(t, i + 1, d, k);
      StructorReads(t, i);
    case _ =>
      OperatorReads(t, i, p, k);
      OperatorIsPart(t, i);
  }

  lemma LocalNamedReads(t: string, i: nat, p: Part, k: string)
    requires Has(t, i, PartThen(p, k)) && IsPart(p) && FollowsPart(p, k) && p.LocalNamed?
    ensures i < |t| && t[i] == 'L'
    ensures |k| <= |t| && Has(t, At(t, k), k) && At(t, k) > i
    ensures M.UnqualifiedName(t, i) == M.At(At(t, k)) && R.CleanUnqualifiedName(t, i)
  {
    hide Has, M.LocalSourceName, R.CleanLocalSourceName, M.AbiTags, R.CleanAbiTags, M.UnqualifiedName;
    hide R.CleanUnqualifiedName, NameThen, PlaceThen;
    var tags := TagsThen(p.tags, k);
    LocalSourceReads(t, i, p.name, p.at, tags);
    TagsRead(t, At(t, tags), p.tags, k);
    TaggedReads(t, i, At(t, tags));
  }

  lemma LocalSourceReads(t: string, i: nat, name: string, at: Option<Signed>, k: string)
    requires Has(t, i, "L" + NameThen(name, PlaceThen(at, k))) && IsIdentifier(name)
    requires (k != "" && k[0] == '_' ==> at.Some?) && (k != "" && M.IsDigit(k[0]) ==> at.None?)
    ensures i < |t| && t[i] == 'L'
    ensures |k| <= |t| && Has(t, At(t, k), k) && At(t, k) > i
    ensures M.LocalSourceName(t, i) == M.At(At(t, k)) && R.CleanLocalSourceName(t, i)
  {
    hide Has, NameThen, PlaceThen, M.SourceName, R.CleanSourceName, M.Discriminator, IsIdentifier;
    var rest := PlaceThen(at, k);
    Step(t, i, 'L', NameThen(name, rest));
    NameReads(t, i + 1, name, rest);
    PlaceReads(t, At(t, rest), at, k);
  }

  /** An operator, and how many operands it takes. */
  lemma {:induction false} OperatorReads(t: string, i: nat, p: Part, k: string)
    requires Has(t, i, PartThen(p, k)) && IsPart(p) && (p.Op? || p.Cast? || p.VendorOp?) && (p.Cast? ==> Follows(k))
    ensures i < |t| && M.IsLower(t[i])
    ensures |k| <= |t| && Has(t, At(t, k), k) && At(t, k) > i
    ensures M.OperatorName(t, i) == M.At(At(t, k)) && R.CleanOperatorName(t, i)
    ensures Arity(p) > 0 ==> R.Takes(t, i, Arity(p))
    decreases p, 0
  {
    hide Has, NameThen, M.SourceName, R.CleanSourceName, M.Type, R.CleanType, M.OperatorName, R.CleanOperatorName;
    match p
    case Op(c, d) =>
      OperatorLetter(c, d);
      Step(t, i, c, [d] + k);
      Step(t, i + 1, d, k);
      OperatorTakes(t, i);
      hide R.Takes;
    case Cast(of) =>
      TwoLetters(t, i, 'c', 'v', ParameterThen(of, k));
      ParameterReads(t, i + 2, of, k);
      CastReads(t, i);
      hide R.Takes;
    case VendorOp(d, name) =>
      TwoLetters(t, i, 'v', d, NameThen(name, k));
      NameReads(t, i + 2, name, k);
      VendorOperatorReads(t, i, Arity(p));
      hide R.Takes;
  }

  // ---------------------------------------------------------------------------------
  // Types
  // ---------------------------------------------------------------------------------

  lemma {:induction false} ParameterReads(t: string, i: nat, p: Parameter, k: string)
    requires Has(t, i, ParameterThen(p, k)) && IsParameter(p) && Follows(k)
    ensures |k| <= |t| && Has(t, At(t, k), k) && At(t, k) > i
    ensures M.Type(t, i) == M.At(At(t, k)) && R.CleanType(t, i)
    decreases p, 2
  {
    hide Has, NameThen, NumberedThen, EarlierThen, M.Type, R.CleanType, M.Name, R.CleanName, M.SourceName;
    hide R.CleanSourceName, M.Substitution, M.TemplateParam, R.CleanTemplateParam, IsName;
    match p
    case Builtin(c) =>
      Step(t, i, c, k);
      LetterReads(t, i);
    case VendorBuiltin(name) =>
      Step(t, i, 'u', NameThen(name, k));
      NameReads(t, i + 1, name, k);
      VendorBuiltinReads(t, i);
    case Compound(c, of) =>
      Step(t, i, c, ParameterThen(of, k));
      ParameterReads(t, i + 1, of, k);
      CompoundReads(t, i);
    case VendorQualified(name, of) =>
      Step(t, i, 'U', NameThen(name, ParameterThen(of, k)));
      NameReads(t, i + 1, name, ParameterThen(of, k));
      ParameterReads(t, At(t, ParameterThen(of, k)), of, k);
      VendorQualifiedReads(t, i, At(t, ParameterThen(of, k)));
    case Pack(of) =>
      TwoLetters(t, i, 'D', 'p', ParameterThen(of, k));
      ParameterReads(t, i + 2, of, k);
      PackReads(t, i);
    case Class(named) =>
      NamedBegins(named, k);
      First(t, i, NamedThen(named, k));
      NamedReads(t, i, named, k);
      ClassReads(t, i);
    case Numbered(digits, args) =>
      ParamReads(t, i, digits, ArgsThen(args, k));
      ArgsRead(t, At(t, ArgsThen(args, k)), args, k);
      NumberedReads(t, i, At(t, ArgsThen(args, k)));
    case Again(earlier, args) =>
      EarlierReads(t, i, earlier, ArgsThen(args, k));
      ArgsRead(t, At(t, ArgsThen(args, k)), args, k);
      AgainReads(t, i, At(t, ArgsThen(args, k)));
    case _ =>
      if p.Array? || p.ArrayOver? || p.OpenArray? {
        ArrayTextReads(t, i, p, k);
      } else {
        CompositeReads(t, i, p, k);
      }
  }

  /** Qualified types, decltypes, functions and pointers to members. */
  lemma {:induction false} CompositeReads(t: string, i: nat, p: Parameter, k: string)
    requires Has(t, i, ParameterThen(p, k)) && IsParameter(p) && Follows(k)
    requires p.Qualified? || p.Decltype? || p.Function? || p.Member?
    ensures |k| <= |t| && Has(t, At(t, k), k) && At(t, k) > i
    ensures M.Type(t, i) == M.At(At(t, k)) && R.CleanType(t, i)
    decreases p, 1
  {
    hide Has, M.Type, R.CleanType, M.CVQualifiers, M.Expression, R.CleanExpression;
    match p
    case Qualified(q, of) =>
      ParameterBegins(of, k);
      QualifiersRead(t, i, q, ParameterThen(of, k));
      ParameterReads(t, At(t, ParameterThen(of, k)), of, k);
      QualifiedReads(t, i, At(t, ParameterThen(of, k)));
    case Decltype(c, e) =>
      TwoLetters(t, i, 'D', c, ExprThen(e, "E" + k));
      ExprReads(t, i + 2, e, "E" + k);
      Step(t, At(t, "E" + k), 'E', k);
      DecltypeReads(t, i, At(t, "E" + k));
    case Function(_, _) =>
      FunctionTextReads(t, i, p, k);
    case Member(of, member) =>
      var rest := ParameterThen(member, k);
      ParameterBegins(member, k);
      Step(t, i, 'M', ParameterThen(of, rest));
      ParameterReads(t, i + 1, of, rest);
      ParameterReads(t, At(t, rest), member, k);
      MemberReads(t, i, At(t, rest));
  }

  lemma {:induction false} FunctionTextReads(t: string, i: nat, p: Parameter, k: string)
    requires Has(t, i, ParameterThen(p, k)) && IsParameter(p) && p.Function?
    ensures |k| <= |t| && Has(t, At(t, k), k) && At(t, k) > i
    ensures M.Type(t, i) == M.At(At(t, k)) && R.CleanType(t, i)
    decreases p, 0
  {
    hide Has, M.Type, R.CleanType, M.BareFunctionType, R.CleanBareFunctionType, M.MoreTypes;
    var rest := ParametersThen(p.types, "E" + k);
    ParametersBegin(p.types, "E" + k);
    Step(t, i, 'F', MaybeThen(p.isC, 'Y', rest));
    MaybeReads(t, i + 1, p.isC, 'Y', rest);
    ParametersRead(t, At(t, rest), p.types, "E" + k);
    Step(t, At(t, "E" + k), 'E', k);
    First(t, i + 1, MaybeThen(p.isC, 'Y', rest));
    FunctionTypeReads(t, i, At(t, rest), At(t, "E" + k));
  }

  /** The three forms of an array. */
  lemma {:induction false} ArrayTextReads(t: string, i: nat, p: Parameter, k: string)
    requires Has(t, i, ParameterThen(p, k)) && IsParameter(p) && Follows(k)
    requires p.Array? || p.ArrayOver? || p.OpenArray?
    ensures |k| <= |t| && Has(t, At(t, k), k) && At(t, k) > i
    ensures M.Type(t, i) == M.At(At(t, k)) && R.CleanType(t, i)
    decreases p, 1
  {
    hide Has, M.Type, R.CleanType, M.Number, M.Expression, R.CleanExpression, SignedThen;
    var rest := ParameterThen(p.of, k);
    match p
    case Array(n, of) =>
      Step(t, i, 'A', SignedThen(n, "_" + rest));
      SignedReads(t, i + 1, n, "_" + rest);
      Step(t, At(t, "_" + rest), '_', rest);
      ParameterReads(t, At(t, rest), of, k);
      ArrayReads(t, i, At(t, "_" + rest));
    case ArrayOver(e, of) =>
      Step(t, i, 'A', ExprThen(e, "_" + rest));
      ExprBegins(e, "_" + rest);
      First(t, i + 1, ExprThen(e, "_" + rest));
      NoNumber(t, i + 1);
      ExprReads(t, i + 1, e, "_" + rest);
      Step(t, At(t, "_" + rest), '_', rest);
      ParameterReads(t, At(t, rest), of, k);
      DependentReads(t, i, At(t, "_" + rest));
    case OpenArray(of) =>
      TwoLetters(t, i, 'A', '_', rest);
      NoNumber(t, i + 1);
      NotExpression(t, i + 1);
      ParameterReads(t, i + 2, of, k);
      NoExpressionIsClean(t, i + 1);
      DependentReads(t, i, i + 1);
  }

  lemma NoNumber(t: string, i: nat)
    requires i < |t| && t[i] != 'n' && !M.IsDigit(t[i])
    ensures M.Number(t, i) == M.Fail
  {
  }

  lemma NoExpressionIsClean(t: string, i: nat)
    requires i <= |t| && M.Expression(t, i) == M.Fail
    ensures R.CleanExpression(t, i)
  {
    hide M.Expression;
  }

  /** The types of a function, up to the end of the symbol or of the function type. */
  lemma {:induction false} ParametersRead(t: string, i: nat, ps: seq<Parameter>, k: string)
    requires Has(t, i, ParametersThen(ps, k)) && AreParameters(ps) && Ends(k)
    ensures |k| <= |t| && Has(t, At(t, k), k) && At(t, k) >= i && (At(t, k) == i <==> ps == [])
    ensures M.MoreTypes(t, i) == M.At(At(t, k)) && R.CleanBareFunctionType(t, i)
    ensures M.BareFunctionType(t, i) == (if ps == [] then M.Fail else M.At(At(t, k)))
    decreases ps, 0
  {
    hide M.Type, R.CleanType, Has;
    if ps == [] {
      First(t, i, k);
      NotType(t, i);
      assert At(t, k) == i by { AtStart(t, i, k); }
    } else {
      var rest := ParametersThen(ps[1..], k);
      if ps[1..] != [] { ParametersBegin(ps[1..], k); }
      ParameterReads(t, i, ps[0], rest);
      ParametersRead(t, At(t, rest), ps[1..], k);
    }
  }

  lemma AtStart(t: string, i: nat, k: string)
    requires Has(t, i, k)
    ensures |k| <= |t| && At(t, k) == i
  {
  }

  // ---------------------------------------------------------------------------------
  // Template arguments, literals and expressions
  // ---------------------------------------------------------------------------------

  /** An optional argument list: what is there is read, and without one there is none. */
  lemma {:induction false} ArgsRead(t: string, i: nat, args: seq<Arg>, k: string)
    requires Has(t, i, ArgsThen(args, k)) && AreArgs(args, true) && (args == [] ==> k == "" || k[0] != 'I')
    ensures |k| <= |t| && Has(t, At(t, k), k) && At(t, k) >= i
    ensures if args == [] then At(t, k) == i && M.TemplateArgs(t, i) == M.Fail
            else
              && i < |t| && t[i] == 'I' && At(t, k) > i
              && M.TemplateArgs(t, i) == M.At(At(t, k)) && R.CleanTemplateArgs(t, i)
    ensures MaybeArgs(t, i) && WithArgs(t, i) == M.At(At(t, k))
    decreases args, 1
  {
    if args == [] {
      First(t, i, k);
      AtStart(t, i, k);
      assert M.TemplateArgs(t, i) == M.Fail;
    } else {
      hide M.TemplateArgList, R.CleanTemplateArgList, M.MoreTemplateArgs, Has;
      Step(t, i, 'I', ListThen(args, "E" + k));
      ListRead(t, i + 1, args, true, k);
      ListIsArgs(t, i + 1);
      Step(t, At(t, "E" + k), 'E', k);
      assert M.TemplateArgs(t, i) == M.At(At(t, k)) && R.CleanTemplateArgs(t, i);
    }
  }

  lemma ListIsArgs(t: string, i: nat)
    requires i <= |t| && M.TemplateArg(t, i).At?
    ensures M.TemplateArgList(t, i) == M.MoreTemplateArgs(t, i)
  {
    hide M.TemplateArg;
  }

  lemma {:induction false} ListRead(t: string, i: nat, args: seq<Arg>, free: bool, k: string)
    requires Has(t, i, ListThen(args, "E" + k)) && AreArgs(args, free)
    ensures |k| < |t| && Has(t, At(t, "E" + k), "E" + k) && At(t, "E" + k) >= i
    ensures M.MoreTemplateArgs(t, i) == M.At(At(t, "E" + k)) && R.CleanTemplateArgList(t, i)
    ensures M.TemplateArg(t, i).At? <==> args != []
    decreases args, 0
  {
    if args == [] {
      AtStart(t, i, "E" + k);
      Step(t, i, 'E', k);
      NotArgument(t, i);
      hide M.TemplateArg;
    } else {
      var rest := ListThen(args[1..], "E" + k);
      if args[1..] != [] { ListBegins(args[1..], !args[0].Type?, "E" + k); }
      ArgReads(t, i, args[0], rest);
      ListRead(t, At(t, rest), args[1..], !args[0].Type?, k);
      hide M.TemplateArg, R.CleanTemplateArg, Has;
    }
  }

  lemma {:induction false} ArgReads(t: string, i: nat, a: Arg, k: string)
    requires Has(t, i, ArgThen(a, k)) && IsArg(a) && FollowsArg(a, k)
    ensures |k| <= |t| && Has(t, At(t, k), k) && At(t, k) > i
    ensures M.TemplateArg(t, i) == M.At(At(t, k)) && R.CleanTemplateArg(t, i)
    decreases a, 0
  {
    hide Has, M.TemplateArg, R.CleanTemplateArg, M.Type, R.CleanType, M.MoreTemplateArgs, R.CleanTemplateArgList;
    hide M.ExprPrimary, R.CleanExprPrimary, M.Expression, R.CleanExpression, LiteralThen;
    match a
    case Type(of) =>
      ParameterBegins(of, k);
      First(t, i, ParameterThen(of, k));
      ParameterReads(t, i, of, k);
      ArgumentIsType(t, i);
    case ArgPack(c, args) =>
      Step(t, i, c, ListThen(args, "E" + k));
      ListRead(t, i + 1, args, true, k);
      Step(t, At(t, "E" + k), 'E', k);
      ArgumentIsPack(t, i, At(t, "E" + k));
    case Value(l) =>
      LiteralReads(t, i, l, k);
      ArgumentIsPrimary(t, i);
    case Bracketed(e) =>
      Step(t, i, 'X', ExprThen(e, "E" + k));
      ExprReads(t, i + 1, e, "E" + k);
      Step(t, At(t, "E" + k), 'E', k);
      ArgumentIsBracketed(t, i, At(t, "E" + k));
  }

  lemma {:induction false} LiteralReads(t: string, i: nat, l: Literal, k: string)
    requires Has(t, i, LiteralThen(l, k)) && IsLiteral(l) && (l.OldExternal? ==> k != "" && k[0] == 'E')
    ensures i < |t| && t[i] == 'L' && (i + 1 < |t| ==> !M.IsDigit(t[i + 1]) && t[i + 1] != 'n')
    ensures |k| <= |t| && Has(t, At(t, k), k) && At(t, k) > i
    ensures M.ExprPrimary(t, i) == M.At(At(t, k)) && R.CleanExprPrimary(t, i)
    decreases l, 1
  {
    hide Has, M.ExprPrimary, R.CleanExprPrimary, M.Type, R.CleanType, M.Number, M.MangledName, R.CleanMangledName;
    hide M.Encoding, R.CleanEncoding, SignedThen;
    match l
    case Integer(of, n) =>
      var rest := SignedThen(n, "E" + k);
      SignedBegins(n, "E" + k);
      Step(t, i, 'L', ParameterThen(of, rest));
      LiteralTypeBegins(of, rest);
      First(t, i + 1, ParameterThen(of, rest));
      ParameterReads(t, i + 1, of, rest);
      SignedReads(t, At(t, rest), n, "E" + k);
      Step(t, At(t, "E" + k), 'E', k);
      IntegerReads(t, i, At(t, rest), At(t, "E" + k));
    case Float(_, _) =>
      FloatTextReads(t, i, l, k);
    case External(s) =>
      ExternalTextReads(t, i, s, k);
    case OldExternal(s) =>
      TwoLetters(t, i, 'L', 'Z', SymbolThen(s, "E" + k));
      SymbolReads(t, i + 2, s, "E" + k);
      Step(t, At(t, "E" + k), 'E', k);
      First(t, At(t, k), k);
      OldExternalReads(t, i, At(t, "E" + k));
  }

  lemma LiteralTypeBegins(p: Parameter, k: string)
    requires IsParameter(p) && IsLiteralType(p)
    ensures var s := ParameterThen(p, k); s != "" && !M.IsDigit(s[0]) && s[0] != 'n'
  {
    if p.Builtin? { BuiltinLetter(p.c); } else { NamedBegins(p.named, k); }
  }

  lemma {:induction false} FloatTextReads(t: string, i: nat, l: Literal, k: string)
    requires Has(t, i, LiteralThen(l, k)) && IsLiteral(l) && l.Float?
    ensures i < |t| && t[i] == 'L' && (i + 1 < |t| ==> !M.IsDigit(t[i + 1]) && t[i + 1] != 'n')
    ensures |k| <= |t| && Has(t, At(t, k), k) && At(t, k) > i
    ensures M.ExprPrimary(t, i) == M.At(At(t, k)) && R.CleanExprPrimary(t, i)
    decreases l, 0
  {
    hide Has, M.ExprPrimary, R.CleanExprPrimary, M.Type, R.CleanType;
    var rest := l.hex + ("E" + k);
    Step(t, i, 'L', ParameterThen(l.of, rest));
    LiteralTypeBegins(l.of, rest);
    First(t, i + 1, ParameterThen(l.of, rest));
    assert rest[0] == l.hex[0];
    ParameterReads(t, i + 1, l.of, rest);
    HexReads(t, At(t, rest), l.hex, k);
    Step(t, At(t, "E" + k), 'E', k);
    hide M.Number, M.Run;
    FloatReads(t, i, At(t, rest), At(t, "E" + k));
  }

  /** A run with a letter in it is no number. */
  lemma HexReads(t: string, i: nat, hex: string, k: string)
    requires Has(t, i, hex + ("E" + k)) && (forall n :: 0 <= n < |hex| ==> IsHex(hex[n]))
    requires exists n :: 0 <= n < |hex| && !M.IsDigit(hex[n])
    ensures |k| < |t| && Has(t, At(t, "E" + k), "E" + k) && At(t, "E" + k) > i
    ensures M.Run(t, i, 'a', 'f') == M.At(At(t, "E" + k))
    ensures M.Number(t, i).At? ==> M.Number(t, i).i < |t| && t[M.Number(t, i).i] != 'E'
  {
    Skip(t, i, hex, "E" + k);
    Step(t, i + |hex|, 'E', k);
    forall n | i <= n < i + |hex|
      ensures IsHex(t[n])
    {
      assert t[n] == t[i + (n - i)] == hex[n - i];
    }
    Tokens.RunIsRead(t, i, i + |hex|, 'a', 'f');
    var n :| 0 <= n < |hex| && !M.IsDigit(hex[n]);
    DigitsStop(t, i, i + n);
    assert IsHex(t[i]);
  }

  lemma {:induction false} DigitsStop(t: string, i: nat, n: nat)
    requires i <= n < |t| && !M.IsDigit(t[n])
    ensures M.DigitsEnd(t, i) <= n
    decreases n - i
  {
    if i < n { DigitsStop(t, i + 1, n); }
  }

  lemma MangledIs(t: string, i: nat)
    requires i + 1 < |t| && t[i] == '_' && t[i + 1] == 'Z'
    ensures M.MangledName(t, i) == M.Encoding(t, i + 2)
    ensures R.CleanEncoding(t, i + 2) ==> R.CleanMangledName(t, i)
  {
    hide M.Encoding, R.CleanEncoding;
  }

  lemma {:induction false} ExternalTextReads(t: string, i: nat, s: Symbol, k: string)
    requires Has(t, i, LiteralThen(External(s), k)) && IsSymbol(s)
    ensures i + 1 < |t| && t[i] == 'L' && t[i + 1] == '_'
    ensures |k| <= |t| && Has(t, At(t, k), k) && At(t, k) > i
    ensures M.ExprPrimary(t, i) == M.At(At(t, k)) && R.CleanExprPrimary(t, i)
    decreases s, 2
  {
    hide Has, M.ExprPrimary, R.CleanExprPrimary, M.Encoding, R.CleanEncoding, M.MangledName, R.CleanMangledName;
    TwoLetters(t, i, 'L', '_', "Z" + SymbolThen(s, "E" + k));
    Step(t, i + 2, 'Z', SymbolThen(s, "E" + k));
    SymbolReads(t, i + 3, s, "E" + k);
    Step(t, At(t, "E" + k), 'E', k);
    MangledIs(t, i + 1);
    ExternalReads(t, i, At(t, "E" + k));
  }

  /** An expression; behind a template parameter or a literal anything may follow, and an E behind the others. */
  lemma {:induction false} ExprReads(t: string, i: nat, e: Expr, k: string)
    requires Has(t, i, ExprThen(e, k)) && IsExpr(e) && (IsLeaf(e) || (k != "" && k[0] == 'E'))
    ensures |k| <= |t| && Has(t, At(t, k), k) && At(t, k) > i
    ensures M.Expression(t, i) == M.At(At(t, k)) && R.CleanExpression(t, i)
    decreases e, 1
  {
    hide Has, M.Expression, R.CleanExpression, M.TemplateParam, R.CleanTemplateParam, M.ExprPrimary;
    hide R.CleanExprPrimary, M.Type, R.CleanType, NumberedThen, LiteralThen;
    match e
    case Param(digits) =>
      ParamReads(t, i, digits, k);
      ParamIsExpr(t, i);
    case Primary(l) =>
      LiteralReads(t, i, l, k);
      PrimaryIsExpr(t, i);
    case Operation(_, _, _) =>
      OperationReads(t, i, e, k);
    case Sizeof(of) =>
      TwoLetters(t, i, 's', 't', ParameterThen(of, k));
      First(t, i + 2, ParameterThen(of, k));
      SizeofBegins(of, k);
      ParameterReads(t, i + 2, of, k);
      SizeofReads(t, i);
    case Scoped(_, _) =>
      ScopedTextReads(t, i, e, k);
  }

  lemma SizeofBegins(p: Parameter, k: string)
    requires IsParameter(p) && (p.Compound? || (p.Class? && p.named.Nested?))
    ensures var s := ParameterThen(p, k); s != "" && !BeginsExpr(s[0])
  {
    if p.Class? { NamedBegins(p.named, k); }
  }

  lemma {:induction false} ScopedTextReads(t: string, i: nat, e: Expr, k: string)
    requires Has(t, i, ExprThen(e, k)) && IsExpr(e) && e.Scoped? && k != "" && k[0] == 'E'
    ensures |k| <= |t| && Has(t, At(t, k), k) && At(t, k) > i
    ensures M.Expression(t, i) == M.At(At(t, k)) && R.CleanExpression(t, i)
    decreases e, 0
  {
    hide Has, M.Expression, R.CleanExpression, M.Type, R.CleanType, M.UnqualifiedName, R.CleanUnqualifiedName, PartThen;
    hide M.TemplateArgs;
    var c := e.component;
    var rest := ComponentThen(c, k);
    TwoLetters(t, i, 's', 'r', ParameterThen(e.of, rest));
    PartBegins(c.part, ArgsThen(c.args, k));
    ParameterReads(t, i + 2, e.of, rest);
    PartReads(t, At(t, rest), c.part, ArgsThen(c.args, k));
    var j := At(t, ArgsThen(c.args, k));
    ArgsRead(t, j, c.args, k);
    ScopedReads(t, i, At(t, rest), j);
  }

  /** An operator with one operand, two or three: with fewer than three the code tries for one more and finds none. */
  lemma {:induction false} OperationReads(t: string, i: nat, e: Expr, k: string)
    requires Has(t, i, ExprThen(e, k)) && IsExpr(e) && e.Operation? && k != "" && k[0] == 'E'
    ensures |k| <= |t| && Has(t, At(t, k), k) && At(t, k) > i
    ensures M.Expression(t, i) == M.At(At(t, k)) && R.CleanExpression(t, i)
    decreases e, 0
  {
    hide Has, M.Expression, R.CleanExpression, M.OperatorName, R.CleanOperatorName, R.Takes, PartThen;
    var last := ExprThen(e.last, k);
    var rest := ExprsThen(e.front, last);
    OperandsBegin(e.front, e.last, k);
    OperatorReads(t, i, e.op, rest);
    var j := At(t, rest);
    if |e.front| == 0 {
      ExprReads(t, j, e.last, k);
      NoMoreOperands(t, At(t, k), k);
      UnaryReads(t, i, j, At(t, k));
    } else if |e.front| == 1 {
      FrontReads(t, j, e.front, last);
      assert e.front[1..] == [];
      ExprReads(t, At(t, last), e.last, k);
      NoMoreOperands(t, At(t, k), k);
      BinaryReads(t, i, j, At(t, last), At(t, k));
    } else {
      var second := ExprsThen(e.front[1..], last);
      FrontReads(t, j, e.front, last);
      FrontReads(t, At(t, second), e.front[1..], last);
      assert e.front[1..][1..] == [];
      ExprReads(t, At(t, last), e.last, k);
      TrinaryReads(t, i, j, At(t, second), At(t, last), At(t, k));
    }
  }

  lemma {:induction false} FrontReads(t: string, i: nat, es: seq<Expr>, k: string)
    requires Has(t, i, ExprsThen(es, k)) && es != [] && AreLeaves(es)
    ensures var rest := ExprsThen(es[1..], k);
            && |rest| <= |t| && Has(t, At(t, rest), rest) && At(t, rest) > i
            && M.Expression(t, i) == M.At(At(t, rest)) && R.CleanExpression(t, i)
    decreases es, 0
  {
    hide Has, M.Expression, R.CleanExpression;
    ExprReads(t, i, es[0], ExprsThen(es[1..], k));
  }

  lemma OperandsBegin(front: seq<Expr>, last: Expr, k: string)
    requires AreLeaves(front) && IsExpr(last)
    ensures Follows(ExprsThen(front, ExprThen(last, k)))
  {
    ExprBegins(last, k);
    if front != [] { ExprBegins(front[0], ExprsThen(front[1..], ExprThen(last, k))); }
  }

  lemma NoMoreOperands(t: string, i: nat, k: string)
    requires Has(t, i, k) && k != "" && k[0] == 'E'
    ensures i <= |t| && M.Expression(t, i) == M.Fail
  {
    First(t, i, k);
    NotExpression(t, i);
  }

  // ---------------------------------------------------------------------------------
  // Nested names
  // ---------------------------------------------------------------------------------

  /** What follows a part of a component. */
  lemma ArgsFollow(c: Component, k: string)
    requires IsComponent(c) && (c.args == [] ==> FollowsPart(c.part, k))
    ensures FollowsPart(c.part, ArgsThen(c.args, k))
  {
  }

  lemma {:induction false} ComponentsRead(t: string, i: nat, cs: seq<Component>, k: string, some: bool, first: bool,
                                          ends: bool)
    requires Has(t, i, ComponentsThen(cs, "E" + k)) && AreComponents(cs)
    ensures |k| < |t| && Has(t, At(t, "E" + k), "E" + k) && At(t, "E" + k) >= i
    ensures M.Prefix(t, i, some) == M.At(At(t, "E" + k))
    ensures R.CleanPrefix(t, i, some, first, ends) <==> (cs != [] || ends)
    decreases cs, 0
  {
    if cs == [] {
      AtStart(t, i, "E" + k);
      Step(t, i, 'E', k);
      PrefixEnds(t, i, some, first, ends);
    } else {
      hide M.Prefix, R.CleanPrefix, M.UnqualifiedName, R.CleanUnqualifiedName, Has, PartThen;
      var c, rest := cs[0], ComponentsThen(cs[1..], "E" + k);
      ComponentsBegin(cs[1..], k);
      ArgsFollow(c, rest);
      PartReads(t, i, c.part, ArgsThen(c.args, rest));
      var j := At(t, ArgsThen(c.args, rest));
      ArgsRead(t, j, c.args, rest);
      PrefixStep(t, i, some, first, ends);
      if c.args != [] { PrefixArgs(t, j, true); }
      ComponentsRead(t, At(t, rest), cs[1..], k, c.args == [], false, true);
    }
  }

  lemma {:induction false} StartReads(t: string, i: nat, s: Scope, k: string)
    requires Has(t, i, InnerThen(s, k)) && IsScope(s)
    ensures |k| < |t| && Has(t, At(t, "E" + k), "E" + k) && At(t, "E" + k) >= i
    ensures M.Prefix(t, i, false) == M.At(At(t, "E" + k)) && R.CleanPrefix(t, i, false, true, false)
    decreases s, 1
  {
    hide M.Prefix, R.CleanPrefix, Has, NumberedThen, EarlierThen, M.TemplateParam, M.Substitution, R.CleanTemplateParam;
    var rest := ComponentsThen(s.components, "E" + k);
    ComponentsBegin(s.components, k);
    match s.start
    case Nothing =>
      ComponentsRead(t, i, s.components, k, false, true, false);
    case From(earlier, args) =>
      EarlierReads(t, i, earlier, ArgsThen(args, rest));
      PrefixStarts(t, i, At(t, ArgsThen(args, rest)));
      StartArgsRead(t, At(t, ArgsThen(args, rest)), args, s, k);
    case FromParameter(digits, args) =>
      ParamReads(t, i, digits, ArgsThen(args, rest));
      PrefixStarts(t, i, At(t, ArgsThen(args, rest)));
      StartArgsRead(t, At(t, ArgsThen(args, rest)), args, s, k);
  }

  lemma {:induction false} StartArgsRead(t: string, j: nat, args: seq<Arg>, s: Scope, k: string)
    requires Has(t, j, ArgsThen(args, ComponentsThen(s.components, "E" + k))) && AreArgs(args, true)
    requires IsScope(s) && (s.start.From? || s.start.FromParameter?) && args == s.start.args
    ensures |k| < |t| && Has(t, At(t, "E" + k), "E" + k) && At(t, "E" + k) >= j
    ensures M.Prefix(t, j, true) == M.At(At(t, "E" + k)) && R.CleanPrefix(t, j, true, false, false)
    decreases s, 0
  {
    hide M.Prefix, R.CleanPrefix, Has;
    var rest := ComponentsThen(s.components, "E" + k);
    ComponentsBegin(s.components, k);
    ArgsRead(t, j, args, rest);
    if args != [] { PrefixArgs(t, j, false); }
    ComponentsRead(t, At(t, rest), s.components, k, args == [], false, args != []);
  }

  lemma {:induction false} ScopeReads(t: string, i: nat, s: Scope, k: string)
    requires Has(t, i, ScopeThen(s, k)) && IsScope(s)
    ensures |k| <= |t| && Has(t, At(t, k), k) && At(t, k) > i
    ensures M.Name(t, i) == M.At(At(t, k)) && R.CleanName(t, i)
    decreases s, 2
  {
    hide Has, M.Prefix, R.CleanPrefix, M.CVQualifiers, M.Name, R.CleanName, InnerThen;
    Step(t, i, 'N', QualifiersThen(s.q, InnerThen(s, k)));
    InnerBegins(s, k);
    QualifiersRead(t, i + 1, s.q, InnerThen(s, k));
    StartReads(t, At(t, InnerThen(s, k)), s, k);
    Step(t, At(t, "E" + k), 'E', k);
    NestedReads(t, i, At(t, InnerThen(s, k)), At(t, "E" + k));
  }

  lemma InnerBegins(s: Scope, k: string)
    requires IsScope(s)
    ensures InnerThen(s, k) != "" ==> !Qualifies(InnerThen(s, k)[0])
  {
    ComponentsBegin(s.components, k);
  }

  // ---------------------------------------------------------------------------------
  // Names
  // ---------------------------------------------------------------------------------

  lemma {:induction false} NamedReads(t: string, i: nat, n: Name, k: string)
    requires Has(t, i, NamedThen(n, k)) && IsName(n) && FollowsName(n, k)
    ensures |k| <= |t| && Has(t, At(t, k), k) && At(t, k) > i
    ensures M.Name(t, i) == M.At(At(t, k)) && R.CleanName(t, i)
    decreases n, 1
  {
    hide Has, M.Name, R.CleanName, M.UnscopedName, R.CleanUnscopedName, IsComponent, IsScope;
    match n
    case Nested(scope) =>
      ScopeReads(t, i, scope, k);
    case Global(c) =>
      var j := ComponentReads(t, i, c, k);
      PartIsComponent(t, i);
      UnscopedReads(t, i, j);
    case Std(c) =>
      TwoLetters(t, i, 'S', 't', ComponentThen(c, k));
      var j := ComponentReads(t, i + 2, c, k);
      StdIsUnscoped(t, i);
      UnscopedReads(t, i, j);
    case _ =>
      LocalNameReads(t, i, n, k);
  }

  /** A part and its arguments; j is the place between them. */
  lemma {:induction false} ComponentReads(t: string, i: nat, c: Component, k: string) returns (j: nat)
    requires Has(t, i, ComponentThen(c, k)) && IsComponent(c)
    requires (c.args == [] ==> FollowsPart(c.part, k)) && (k != "" ==> k[0] != 'I')
    ensures i < |t| && BeginsPart(t[i]) && MaybeArgs(t, j)
    ensures M.UnqualifiedName(t, i) == M.At(j) && R.CleanUnqualifiedName(t, i)
    ensures |k| <= |t| && Has(t, At(t, k), k) && At(t, k) > i && WithArgs(t, j) == M.At(At(t, k))
    decreases c, 0
  {
    hide Has, PartThen, M.UnqualifiedName, R.CleanUnqualifiedName;
    ArgsFollow(c, k);
    PartReads(t, i, c.part, ArgsThen(c.args, k));
    j := At(t, ArgsThen(c.args, k));
    ArgsRead(t, j, c.args, k);
  }

  lemma {:induction false} LocalNameReads(t: string, i: nat, n: Name, k: string)
    requires Has(t, i, NamedThen(n, k)) && IsName(n) && FollowsName(n, k) && (n.Local? || n.LocalText?)
    ensures |k| <= |t| && Has(t, At(t, k), k) && At(t, k) > i
    ensures M.Name(t, i) == M.At(At(t, k)) && R.CleanName(t, i)
    decreases n, 0
  {
    hide Has, M.Name, R.CleanName, M.Encoding, R.CleanEncoding, M.Discriminator, SignedThen, PlaceThen;
    var place := PlaceThen(n.at, k);
    match n
    case Local(of, name, at) =>
      var rest := "E" + NamedThen(name, place);
      Step(t, i, 'Z', SymbolThen(of, rest));
      SymbolReads(t, i + 1, of, rest);
      Step(t, At(t, rest), 'E', NamedThen(name, place));
      PlaceFollows(name, at, k);
      NamedReads(t, At(t, rest) + 1, name, place);
      PlaceReads(t, At(t, place), at, k);
      LocalReads(t, i, At(t, rest), At(t, place));
    case LocalText(of, at) =>
      var rest := "E" + ("s" + place);
      Step(t, i, 'Z', SymbolThen(of, rest));
      SymbolReads(t, i + 1, of, rest);
      TwoLetters(t, At(t, rest), 'E', 's', place);
      AtStart(t, At(t, rest) + 2, place);
      First(t, At(t, place), place);
      PlaceBegins(at, k);
      PlaceReads(t, At(t, place), at, k);
      LocalTextReads(t, i, At(t, rest));
  }

  lemma PlaceBegins(at: Option<Signed>, k: string)
    requires at.None? ==> Ends(k)
    ensures PlaceThen(at, k) != "" ==> !M.IsLower(PlaceThen(at, k)[0])
  {
  }

  lemma PlaceFollows(name: Name, at: Option<Signed>, k: string)
    requires at.Some? ==> TakesNumber(name)
    requires at.None? ==> FollowsName(name, k)
    ensures FollowsName(name, PlaceThen(at, k))
  {
  }

  // ---------------------------------------------------------------------------------
  // Whole symbols
  // ---------------------------------------------------------------------------------

  lemma {:induction false} CodeReads(t: string, i: nat, s: Symbol, k: string)
    requires Has(t, i, SymbolThen(s, k)) && IsSymbol(s) && Ends(k) && s.Code?
    ensures |k| <= |t| && Has(t, At(t, k), k) && At(t, k) > i
    ensures M.Encoding(t, i) == M.At(At(t, k)) && R.CleanEncoding(t, i)
    decreases s, 0
  {
    hide Has, NamedThen, M.Name, R.CleanName, M.BareFunctionType, M.MoreTypes, R.CleanBareFunctionType, IsName;
    var rest := ParametersThen(s.parameters, k);
    if s.parameters != [] { ParametersBegin(s.parameters, k); }
    NamedReads(t, i, s.name, rest);
    ParametersRead(t, At(t, rest), s.parameters, k);
  }

  lemma {:induction false} ConstructionTextReads(t: string, i: nat, s: Symbol, k: string)
    requires Has(t, i, SymbolThen(s, k)) && IsSymbol(s) && Ends(k) && s.Construction?
    ensures |k| <= |t| && Has(t, At(t, k), k) && At(t, k) > i
    ensures M.Encoding(t, i) == M.At(At(t, k)) && R.CleanEncoding(t, i)
    decreases s, 0
  {
    hide Has, M.Type, R.CleanType, M.Number, M.Encoding, R.CleanEncoding, SignedThen;
    var last := ParameterThen(s.base, k);
    var middle := SignedThen(s.at, "_" + last);
    TwoLetters(t, i, 'T', 'C', ParameterThen(s.of, middle));
    SignedBegins(s.at, "_" + last);
    ParameterReads(t, i + 2, s.of, middle);
    SignedReads(t, At(t, middle), s.at, "_" + last);
    Step(t, At(t, "_" + last), '_', last);
    ParameterReads(t, At(t, last), s.base, k);
    ConstructionReads(t, i, At(t, middle), At(t, "_" + last));
  }

  /** Special names with a symbol in them. */
  lemma {:induction false} ThunkTextReads(t: string, i: nat, s: Symbol, k: string)
    requires Has(t, i, SymbolThen(s, k)) && IsSymbol(s) && Ends(k) && (s.Thunk? || s.OtherThunk? || s.Covariant?)
    ensures |k| <= |t| && Has(t, At(t, k), k) && At(t, k) > i
    ensures M.Encoding(t, i) == M.At(At(t, k)) && R.CleanEncoding(t, i)
    decreases s, 0
  {
    hide Has, M.Encoding, R.CleanEncoding, M.CallOffset, OffsetThen;
    var text := SymbolThen(s.target, k);
    match s
    case Thunk(o, target) =>
      Step(t, i, 'T', OffsetThen(o, text));
      OffsetReads(t, i + 1, o, text);
      SymbolReads(t, At(t, text), target, k);
      ThunkReads(t, i, At(t, text));
    case OtherThunk(c, o, target) =>
      TwoLetters(t, i, 'T', c, OffsetThen(o, text));
      OffsetReads(t, i + 2, o, text);
      SymbolReads(t, At(t, text), target, k);
      OtherThunkReads(t, i, At(t, text));
    case Covariant(o, r, target) =>
      TwoLetters(t, i, 'T', 'c', OffsetThen(o, OffsetThen(r, text)));
      OffsetReads(t, i + 2, o, OffsetThen(r, text));
      OffsetReads(t, At(t, OffsetThen(r, text)), r, text);
      SymbolReads(t, At(t, text), target, k);
      CovariantReads(t, i, At(t, OffsetThen(r, text)), At(t, text));
  }

  /** A whole symbol is read to its end, and cleanly. */
  lemma {:induction false} SymbolReads(t: string, i: nat, s: Symbol, k: string)
    requires Has(t, i, SymbolThen(s, k)) && IsSymbol(s) && Ends(k)
    ensures |k| <= |t| && Has(t, At(t, k), k) && At(t, k) > i
    ensures M.Encoding(t, i) == M.At(At(t, k)) && R.CleanEncoding(t, i)
    decreases s, 1
  {
    hide Has, M.Encoding, R.CleanEncoding, M.Type, R.CleanType, M.Name, R.CleanName, IsName, IsParameter;
    match s
    case Code(_, _) =>
      CodeReads(t, i, s, k);
    case Table(c, of) =>
      TwoLetters(t, i, 'T', c, ParameterThen(of, k));
      ParameterReads(t, i + 2, of, k);
      DataReads(t, i);
    case Construction(_, _, _) =>
      ConstructionTextReads(t, i, s, k);
    case ThreadLocal(c, of) =>
      TwoLetters(t, i, 'T', c, ParameterThen(of, k));
      ParameterReads(t, i + 2, of, k);
      ExtensionReads(t, i);
    case Guard(name) =>
      TwoLetters(t, i, 'G', 'V', NamedThen(name, k));
      NamedReads(t, i + 2, name, k);
      GuardReads(t, i);
    case Temporary(name) =>
      TwoLetters(t, i, 'G', 'R', NamedThen(name, k));
      NamedReads(t, i + 2, name, k);
      TemporaryReads(t, i);
    case Alias(target) =>
      TwoLetters(t, i, 'G', 'A', SymbolThen(target, k));
      SymbolReads(t, i + 2, target, k);
      AliasReads(t, i);
    case _ =>
      ThunkTextReads(t, i, s, k);
  }

  /** What the demangler lets stand behind a mangled name: nothing, clone suffixes, or a version. */
  predicate IsSuffix(k: string) {
    M.CloneSuffix(k, 0) || (k != "" && k[0] == '@')
  }

  lemma {:induction false} ShiftedEnds(t: string, i: nat, j: nat)
    requires i + j <= |t|
    ensures M.AlphaEnd(t, i + j) == i + M.AlphaEnd(t[i..], j) && M.DigitsEnd(t, i + j) == i + M.DigitsEnd(t[i..], j)
    decreases |t| - j
  {
    if i + j < |t| { ShiftedEnds(t, i, j + 1); }
  }

  lemma {:induction false} ShiftedSuffix(t: string, i: nat, j: nat)
    requires i + j <= |t|
    ensures M.CloneSuffix(t, i + j) == M.CloneSuffix(t[i..], j)
    decreases |t| - j
  {
    hide M.AlphaEnd, M.DigitsEnd;
    if i + j < |t| {
      assert t[i + j] == t[i..][j];
      ShiftedEnds(t, i, j + 1);
      var l := M.AlphaEnd(t[i..], j + 1);
      if i + l < |t| {
        assert t[i + l] == t[i..][l];
        ShiftedEnds(t, i, l + 1);
        ShiftedSuffix(t, i, M.DigitsEnd(t[i..], l + 1));
      }
    }
  }

  /** A mangled name in front of such a suffix is accepted. */
  lemma SuffixIsAccepted(t: string, k: string)
    requires |k| <= |t| && Has(t, At(t, k), k) && IsSuffix(k) && M.MangledName(t, 0) == M.At(At(t, k))
    ensures M.IsMangled(t)
  {
    hide M.MangledName, M.CloneSuffix;
    First(t, At(t, k), k);
    ShiftedSuffix(t, At(t, k), 0);
  }

  lemma SuffixEnds(k: string)
    requires IsSuffix(k)
    ensures Ends(k)
  {
  }

  lemma MangledReads(t: string, s: Symbol, k: string)
    requires Has(t, 0, "_" + ("Z" + SymbolThen(s, k))) && IsSymbol(s) && IsSuffix(k)
    ensures |k| <= |t| && M.MangledName(t, 0) == M.At(|t| - |k|) && M.IsMangled(t) && R.CleanMangledName(t, 0)
  {
    hide IsSymbol, SymbolThen, Has, M.Encoding, R.CleanEncoding, M.MangledName, R.CleanMangledName, M.IsMangled;
    hide IsSuffix, Ends;
    SuffixEnds(k);
    TwoLetters(t, 0, '_', 'Z', SymbolThen(s, k));
    SymbolReads(t, 2, s, k);
    MangledIs(t, 0);
    SuffixIsAccepted(t, k);
  }

  lemma StartsAtZero(t: string)
    ensures Has(t, 0, t)
  {
    assert t[0..] == t;
  }

  /** The demangler accepts every such symbol, with a suffix or without, and takes all of it, whatever its names, types,
      arguments, expressions and numbers; and it is a name of the comments. */
  lemma WrittenIsAccepted(s: Symbol, k: string)
    requires IsSymbol(s) && IsSuffix(k)
    ensures var t := "_" + ("Z" + SymbolThen(s, k));
            && |k| <= |t| && M.IsMangled(t) && M.MangledName(t, 0) == M.At(|t| - |k|) && Bnf.IsName(t, true)
  {
    hide IsSymbol, SymbolThen, M.MangledName, M.IsMangled, R.CleanMangledName;
    var t := "_" + ("Z" + SymbolThen(s, k));
    StartsAtZero(t);
    MangledReads(t, s, k);
    R.AcceptedIsDerived(t);
  }

  /** For instance each constructor and destructor of a class, without parameters. */
  lemma StructorIsAccepted(name: string, c: char, d: char)
    requires IsIdentifier(name) && IsPart(Structor(c, d))
    ensures M.IsMangled("_" + ("Z" + StructorThen(name, c, d)))
  {
    hide M.IsMangled, M.MangledName, SymbolThen, IsSymbol, StructorThen;
    var components := [Component(Named(name, []), []), Component(Structor(c, d), [])];
    StructorText(name, c, d, components);
    StructorIsSymbol(name, c, d, components);
    WrittenIsAccepted(StructorOf(components), "");
  }

  /** Behind N the name and the two letters, then E and void. */
  function StructorThen(name: string, c: char, d: char): string {
    "N" + NameThen(name, [c] + ([d] + ("E" + "v")))
  }

  function StructorOf(components: seq<Component>): Symbol {
    Code(Nested(Scope(Qualifiers(false, false, false), Nothing, components)), [Builtin('v')])
  }

  lemma StructorIsSymbol(name: string, c: char, d: char, components: seq<Component>)
    requires components == [Component(Named(name, []), []), Component(Structor(c, d), [])]
    requires IsIdentifier(name) && IsPart(Structor(c, d))
    ensures IsSymbol(StructorOf(components))
  {
    assert M.BUILTIN_TYPES[0].0 == 'v';
    assert IsParameter(Builtin('v'));
    assert AreParameters([Builtin('v')]);
    var rest := components[1..];
    assert rest[0] == components[1] && rest[1..] == [];
    assert IsPart(components[0].part) && IsPart(rest[0].part);
    assert IsComponent(components[0]) && IsComponent(rest[0]);
    assert AreComponents(rest[1..]) && AreComponents(rest) && AreComponents(components);
    assert IsScope(Scope(Qualifiers(false, false, false), Nothing, components));
  }

  lemma StructorText(name: string, c: char, d: char, components: seq<Component>)
    requires components == [Component(Named(name, []), []), Component(Structor(c, d), [])]
    ensures SymbolThen(StructorOf(components), "") == StructorThen(name, c, d)
  {
    hide NameThen;
    var v := [Builtin('v')];
    assert v[1..] == [];
    assert ParametersThen(v, "") == "v";
    var rest := components[1..];
    assert rest[0] == components[1] && rest[1..] == [];
    var k := "E" + "v";
    assert ComponentThen(rest[0], k) == [c] + ([d] + k);
    assert ComponentsThen(rest, k) == [c] + ([d] + k);
    assert ComponentThen(components[0], ComponentsThen(rest, k)) == NameThen(name, ComponentsThen(rest, k));
    assert ComponentsThen(components, k) == NameThen(name, [c] + ([d] + k));
    var scope := Scope(Qualifiers(false, false, false), Nothing, components);
    assert InnerThen(scope, "v") == ComponentsThen(components, k);
    assert ScopeThen(scope, "v") == StructorThen(name, c, d);
    assert NamedThen(Nested(scope), "v") == ScopeThen(scope, "v");
  }

  function NamelessThen(ps: seq<Parameter>, k: string): string {
    "N" + ("E" + ParametersThen(ps, k))
  }

  /** A nested name without any component is accepted in the same way, with any parameters behind it, and it is none of
      the comments. */
  lemma NamelessIsAccepted(ps: seq<Parameter>, k: string)
    requires AreParameters(ps) && IsSuffix(k)
    ensures var t := "_" + ("Z" + NamelessThen(ps, k));
            && |k| <= |t| && M.IsMangled(t) && M.MangledName(t, 0) == M.At(|t| - |k|) && !Bnf.IsName(t, true)
  {
    hide AreParameters, NamelessThen, M.MangledName, M.IsMangled, Has, IsSuffix;
    var t := "_" + ("Z" + NamelessThen(ps, k));
    StartsAtZero(t);
    NamelessIsRead(t, ps, k);
    NamelessIsDead(t);
    Written.NothingBegins(t);
  }

  lemma NamelessIsDead(t: string)
    requires |t| >= 4 && t[2] == 'N' && t[3] == 'E'
    ensures Written.IsDead(t, 2)
  {
    assert Written.IsDead(t, 3);
  }

  lemma NamelessIsRead(t: string, ps: seq<Parameter>, k: string)
    requires Has(t, 0, "_" + ("Z" + NamelessThen(ps, k))) && AreParameters(ps) && IsSuffix(k)
    ensures |t| >= 4 && t[2] == 'N' && t[3] == 'E'
    ensures |k| <= |t| && M.IsMangled(t) && M.MangledName(t, 0) == M.At(|t| - |k|)
  {
    hide AreParameters, NamelessThen, M.MangledName, M.IsMangled, M.Encoding, Has, IsSuffix, Ends, R.CleanEncoding;
    hide R.CleanMangledName;
    SuffixEnds(k);
    TwoLetters(t, 0, '_', 'Z', NamelessThen(ps, k));
    NamelessReads(t, ps, k);
    MangledIs(t, 0);
    SuffixIsAccepted(t, k);
  }

  lemma NamelessReads(t: string, ps: seq<Parameter>, k: string)
    requires Has(t, 2, NamelessThen(ps, k)) && AreParameters(ps) && Ends(k)
    ensures |t| >= 4 && t[2] == 'N' && t[3] == 'E'
    ensures |k| <= |t| && Has(t, At(t, k), k) && M.Encoding(t, 2) == M.At(At(t, k))
  {
    hide Has, M.MoreTypes, M.BareFunctionType, M.Name, R.CleanBareFunctionType;
    TwoLetters(t, 2, 'N', 'E', ParametersThen(ps, k));
    NamelessName(t);
    ParametersRead(t, 4, ps, k);
  }

  lemma NamelessName(t: string)
    requires 4 <= |t| && t[2] == 'N' && t[3] == 'E'
    ensures M.Name(t, 2) == M.At(4)
  {
    hide M.Prefix, R.CleanPrefix;
    PrefixEnds(t, 3, false, true, false);
    assert M.CVQualifiers(t, 3) == M.Fail;
    hide M.CVQualifiers;
    assert M.NestedName(t, 2) == M.At(4);
    hide M.NestedName;
  }
}
