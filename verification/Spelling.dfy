/** Symbols the way a compiler writes them: functions and data in scopes, in none, in namespace std or local to another
    symbol, with every kind of type, of template argument and of expression in them, and the special names around them;
    and the text of each, with whatever follows it. */
module Spelling {
  import M = Mangling
  import N = Numerals
  import Bnf
  import opened Types

  // ---------------------------------------------------------------------------------
  // Symbols
  // ---------------------------------------------------------------------------------

  datatype Signed = Signed(negative: bool, n: nat)

  datatype Qualifiers = Qualifiers(r: bool, v: bool, k: bool)

  /** Something that was named before: the first, a later one by its number to the base of 36, or a standard one. */
  datatype Earlier = First | Nth(id: string) | Standard(c: char)

  datatype Parameter =
    | Builtin(c: char)
    | VendorBuiltin(name: string)
    | Qualified(q: Qualifiers, of: Parameter)
    | Compound(c: char, of: Parameter)
    | VendorQualified(name: string, of: Parameter)
    | Pack(of: Parameter)
    | Decltype(c: char, e: Expr)
    | Function(isC: bool, types: seq<Parameter>)
    | Array(n: Signed, of: Parameter)
    | ArrayOver(e: Expr, of: Parameter)
    | OpenArray(of: Parameter)
    | Member(of: Parameter, member: Parameter)
    | Class(named: Name)
    | Numbered(digits: string, args: seq<Arg>)
    | Again(earlier: Earlier, args: seq<Arg>)

  datatype Arg = Type(of: Parameter) | ArgPack(c: char, args: seq<Arg>) | Value(l: Literal) | Bracketed(e: Expr)

  /** The last is the form that an older compiler wrote. */
  datatype Literal =
    | Integer(of: Parameter, n: Signed) | Float(of: Parameter, hex: string)
    | External(s: Symbol) | OldExternal(s: Symbol)

  /** An operation has operands in front of the last one. */
  datatype Expr =
    | Param(digits: string)
    | Primary(l: Literal)
    | Operation(op: Part, front: seq<Expr>, last: Expr)
    | Sizeof(of: Parameter)
    | Scoped(of: Parameter, component: Component)

  /** What a nested name begins with besides its components. */
  datatype Start = Nothing | From(earlier: Earlier, args: seq<Arg>) | FromParameter(digits: string, args: seq<Arg>)

  datatype Scope = Scope(q: Qualifiers, start: Start, components: seq<Component>)

  datatype Component = Component(part: Part, args: seq<Arg>)

  /** A name with its tags, one with an L in front, a constructor or destructor, and the three kinds of operators. */
  datatype Part =
    | Named(name: string, tags: seq<string>)
    | LocalNamed(name: string, at: Option<Signed>, tags: seq<string>)
    | Structor(c: char, d: char)
    | Op(c: char, d: char)
    | Cast(of: Parameter)
    | VendorOp(d: char, name: string)

  /** LocalText is a string inside a function. */
  datatype Name =
    | Nested(scope: Scope)
    | Global(component: Component)
    | Std(component: Component)
    | Local(of: Symbol, name: Name, at: Option<Signed>)
    | LocalText(of: Symbol, at: Option<Signed>)

  datatype Offset = Plain(a: Signed) | Virtual(a: Signed, b: Signed)

  datatype Symbol =
    | Code(name: Name, parameters: seq<Parameter>)
    | Table(c: char, of: Parameter)
    | Construction(of: Parameter, at: Signed, base: Parameter)
    | ThreadLocal(c: char, of: Parameter)
    | Guard(name: Name)
    | Temporary(name: Name)
    | Alias(target: Symbol)
    | Thunk(offset: Offset, target: Symbol)
    | OtherThunk(c: char, offset: Offset, target: Symbol)
    | Covariant(offset: Offset, result: Offset, target: Symbol)

  // ---------------------------------------------------------------------------------
  // Which of them can be written
  // ---------------------------------------------------------------------------------

  /** A name does not begin with a digit, and its length fits an int. */
  predicate IsIdentifier(name: string) {
    name != "" && !M.IsDigit(name[0]) && |name| < M.TWO31
  }

  predicate AreIdentifiers(names: seq<string>) {
    forall k :: 0 <= k < |names| ==> IsIdentifier(names[k])
  }

  predicate AreDigits(digits: string) {
    forall k :: 0 <= k < |digits| ==> M.IsDigit(digits[k])
  }

  predicate IsHex(c: char) {
    M.IsDigit(c) || 'a' <= c <= 'f'
  }

  predicate IsEarlier(e: Earlier) {
    match e
    case First => true
    case Nth(id) => id != "" && forall k :: 0 <= k < |id| ==> M.IsDigit(id[k]) || 'A' <= id[k] <= 'Z'
    case Standard(c) => M.IsSubstitution(c)
  }

  /** Qualifiers are written together, and a class is not the name of a function. */
  predicate IsParameter(p: Parameter)
    decreases p
  {
    match p
    case Builtin(c) => M.IsBuiltin(c)
    case VendorBuiltin(name) => IsIdentifier(name)
    case Qualified(q, of) => (q.r || q.v || q.k) && !of.Qualified? && IsParameter(of)
    case Compound(c, of) => IsCompound(c) && IsParameter(of)
    case VendorQualified(name, of) => IsIdentifier(name) && IsParameter(of)
    case Pack(of) => IsParameter(of)
    case Decltype(c, e) => (c == 't' || c == 'T') && IsExpr(e)
    case Function(_, types) => types != [] && AreParameters(types)
    case Array(_, of) => IsParameter(of)
    case ArrayOver(e, of) => IsLeaf(e) && IsExpr(e) && IsParameter(of)
    case OpenArray(of) => IsParameter(of)
    case Member(of, member) => IsParameter(of) && IsParameter(member)
    case Class(name) => IsName(name) && !EndsInDigits(name) && !NeedsEnd(name) && IsClassName(name)
    case Numbered(digits, args) => AreDigits(digits) && AreArgs(args, true)
    case Again(earlier, args) => IsEarlier(earlier) && earlier != Standard('t') && AreArgs(args, true)
  }

  predicate IsCompound(c: char) {
    c == 'O' || c == 'P' || c == 'R' || c == 'C' || c == 'G'
  }

  predicate IsClassName(n: Name) {
    n.Global? ==> n.component.part.Named? || n.component.part.LocalNamed?
  }

  predicate AreParameters(ps: seq<Parameter>)
    decreases ps
  {
    ps == [] || (IsParameter(ps[0]) && AreParameters(ps[1..]))
  }

  /** A pack with the letter of an argument list does not stand behind a type, which would take it for its own; what an
      older compiler wrote is the last argument. */
  predicate AreArgs(args: seq<Arg>, free: bool)
    decreases args
  {
    || args == []
    || (&& IsArg(args[0]) && (args[0].ArgPack? && args[0].c == 'I' ==> free)
        && (args[0].Value? && args[0].l.OldExternal? ==> |args| == 1)
        && AreArgs(args[1..], !args[0].Type?))
  }

  predicate IsArg(a: Arg)
    decreases a
  {
    match a
    case Type(of) => IsParameter(of)
    case ArgPack(c, args) => (c == 'I' || c == 'J') && AreArgs(args, true)
    case Value(l) => IsLiteral(l)
    case Bracketed(e) => IsExpr(e)
  }

  /** The type of a literal is builtin or a nested class. With __int128 the letter of the type is read as the sign of a
      length. */
  predicate IsLiteral(l: Literal)
    decreases l
  {
    match l
    case Integer(of, _) => IsLiteralType(of) && IsParameter(of)
    case Float(of, hex) =>
      && IsLiteralType(of) && IsParameter(of) && (forall k :: 0 <= k < |hex| ==> IsHex(hex[k]))
      && (exists k :: 0 <= k < |hex| && !M.IsDigit(hex[k]))
    case External(s) => IsSymbol(s)
    case OldExternal(s) => IsSymbol(s)
  }

  predicate IsLiteralType(p: Parameter) {
    (p.Builtin? && p.c != 'n') || (p.Class? && p.named.Nested?)
  }

  /** Only the last operand is an operation itself: others would take operands that are not theirs. */
  predicate IsExpr(e: Expr)
    decreases e
  {
    match e
    case Param(digits) => AreDigits(digits)
    case Primary(l) => IsLiteral(l) && !l.OldExternal?
    case Operation(op, front, last) =>
      IsPart(op) && Arity(op) == |front| + 1 <= 3 && AreLeaves(front) && IsExpr(last)
    case Sizeof(of) => (of.Compound? || (of.Class? && of.named.Nested?)) && IsParameter(of)
    case Scoped(of, component) => IsParameter(of) && IsComponent(component) && !OpenEnded(component)
  }

  predicate IsLeaf(e: Expr) {
    e.Param? || e.Primary?
  }

  predicate AreLeaves(es: seq<Expr>)
    decreases es
  {
    es == [] || (IsLeaf(es[0]) && IsExpr(es[0]) && AreLeaves(es[1..]))
  }

  /** How many operands an operator takes; none, if it is no operator. */
  function Arity(p: Part): nat {
    match p
    case Op(c, d) => Bnf.Operands(c, d)
    case Cast(_) => 1
    case VendorOp(d, _) => if d == '1' then 1 else if d == '2' then 2 else if d == '3' then 3 else 0
    case _ => 0
  }

  /** Behind N an operator with r would be taken for a qualifier. */
  predicate IsScope(s: Scope)
    decreases s
  {
    && IsStart(s.start) && s.components != [] && AreComponents(s.components)
    && (s.start.Nothing? ==> !(s.components[0].part.Op? && s.components[0].part.c == 'r'))
  }

  predicate IsStart(s: Start)
    decreases s
  {
    match s
    case Nothing => true
    case From(earlier, args) => IsEarlier(earlier) && AreArgs(args, true)
    case FromParameter(digits, args) => AreDigits(digits) && AreArgs(args, true)
  }

  predicate AreComponents(cs: seq<Component>)
    decreases cs
  {
    cs == [] || (IsComponent(cs[0]) && !OpenEnded(cs[0]) && AreComponents(cs[1..]))
  }

  /** A conversion has no arguments of its own. */
  predicate IsComponent(c: Component)
    decreases c
  {
    IsPart(c.part) && AreArgs(c.args, true) && (c.part.Cast? ==> c.args == [])
  }

  predicate IsPart(p: Part)
    decreases p
  {
    match p
    case Named(name, tags) => IsIdentifier(name) && AreIdentifiers(tags)
    case LocalNamed(name, _, tags) => IsIdentifier(name) && AreIdentifiers(tags)
    case Structor(c, d) => (c == 'C' && '1' <= d <= '3') || (c == 'D' && '0' <= d <= '2')
    case Op(c, d) => M.IsOperator(c, d)
    case Cast(of) => IsParameter(of)
    case VendorOp(d, name) => M.IsDigit(d) && IsIdentifier(name)
  }

  predicate IsName(n: Name)
    decreases n
  {
    match n
    case Nested(scope) => IsScope(scope)
    case Global(c) => IsComponent(c)
    case Std(c) => IsComponent(c)
    case Local(of, name, at) => IsSymbol(of) && IsName(name) && (at.Some? ==> TakesNumber(name))
    case LocalText(of, _) => IsSymbol(of)
  }

  /** It ends in a number, so no digit can follow. */
  predicate OpenEnded(c: Component) {
    c.args == [] && c.part.LocalNamed? && c.part.at.Some? && c.part.tags == []
  }

  predicate EndsInDigits(n: Name) {
    match n
    case Nested(_) => false
    case Global(c) => OpenEnded(c)
    case Std(c) => OpenEnded(c)
    case Local(_, name, at) => at.Some? || EndsInDigits(name)
    case LocalText(_, at) => at.Some?
  }

  /** A number behind it is not taken for a part of it. */
  predicate TakesNumber(n: Name) {
    match n
    case Nested(_) => true
    case Global(c) => PartTakesNumber(c.part)
    case Std(c) => PartTakesNumber(c.part)
    case Local(_, _, at) => at.Some?
    case LocalText(_, at) => at.Some?
  }

  predicate PartTakesNumber(p: Part) {
    match p
    case LocalNamed(_, at, _) => at.Some?
    case Cast(_) => false
    case _ => true
  }

  /** A letter behind the s of a string would make an operator of it. */
  predicate NeedsEnd(n: Name) {
    match n
    case Local(_, name, at) => at.None? && NeedsEnd(name)
    case LocalText(_, at) => at.None?
    case _ => false
  }

  predicate BeginsWithDigit(p: Parameter) {
    p.Class? && p.named.Global? && p.named.component.part.Named?
  }

  predicate IsSymbol(s: Symbol)
    decreases s
  {
    match s
    case Code(name, ps) =>
      && IsName(name) && AreParameters(ps)
      && (ps != [] ==> !NeedsEnd(name) && (EndsInDigits(name) ==> !BeginsWithDigit(ps[0])))
    case Table(c, of) => (c == 'V' || c == 'T' || c == 'I' || c == 'S') && IsParameter(of)
    case Construction(of, _, base) => IsParameter(of) && IsParameter(base)
    case ThreadLocal(c, of) => (c == 'F' || c == 'J') && IsParameter(of)
    case Guard(name) => IsName(name)
    case Temporary(name) => IsName(name)
    case Alias(target) => IsSymbol(target)
    case Thunk(_, target) => IsSymbol(target)
    case OtherThunk(c, _, target) => (c == 'h' || c == 'v') && IsSymbol(target)
    case Covariant(_, _, target) => IsSymbol(target)
  }

  // ---------------------------------------------------------------------------------
  // Their texts, with k behind them
  // ---------------------------------------------------------------------------------

  function NameThen(name: string, k: string): string {
    N.DecNat(|name|) + (name + k)
  }

  function TagsThen(tags: seq<string>, k: string): string {
    if tags == [] then k else "B" + NameThen(tags[0], TagsThen(tags[1..], k))
  }

  function SignedThen(x: Signed, k: string): string {
    if x.negative then "n" + (N.DecNat(x.n) + k) else N.DecNat(x.n) + k
  }

  /** A number behind an underscore, if there is one. */
  function PlaceThen(at: Option<Signed>, k: string): string {
    if at.None? then k else "_" + SignedThen(at.value, k)
  }

  function MaybeThen(b: bool, c: char, k: string): string {
    if b then [c] + k else k
  }

  function QualifiersThen(q: Qualifiers, k: string): string {
    MaybeThen(q.r, 'r', MaybeThen(q.v, 'V', MaybeThen(q.k, 'K', k)))
  }

  function EarlierThen(e: Earlier, k: string): string {
    match e
    case First => "S_" + k
    case Nth(id) => "S" + (id + ("_" + k))
    case Standard(c) => ['S', c] + k
  }

  function NumberedThen(digits: string, k: string): string {
    "T" + (digits + ("_" + k))
  }

  function OffsetThen(o: Offset, k: string): string {
    match o
    case Plain(a) => "h" + SignedThen(a, "_" + k)
    case Virtual(a, b) => "v" + SignedThen(a, "_" + SignedThen(b, "_" + k))
  }

  function ParameterThen(p: Parameter, k: string): string
    decreases p, 0
  {
    match p
    case Builtin(c) => [c] + k
    case VendorBuiltin(name) => "u" + NameThen(name, k)
    case Qualified(q, of) => QualifiersThen(q, ParameterThen(of, k))
    case Compound(c, of) => [c] + ParameterThen(of, k)
    case VendorQualified(name, of) => "U" + NameThen(name, ParameterThen(of, k))
    case Pack(of) => "D" + ("p" + ParameterThen(of, k))
    case Decltype(c, e) => "D" + ([c] + ExprThen(e, "E" + k))
    case Function(isC, types) => "F" + MaybeThen(isC, 'Y', ParametersThen(types, "E" + k))
    case Array(n, of) => "A" + SignedThen(n, "_" + ParameterThen(of, k))
    case ArrayOver(e, of) => "A" + ExprThen(e, "_" + ParameterThen(of, k))
    case OpenArray(of) => "A" + ("_" + ParameterThen(of, k))
    case Member(of, member) => "M" + ParameterThen(of, ParameterThen(member, k))
    case Class(name) => NamedThen(name, k)
    case Numbered(digits, args) => NumberedThen(digits, ArgsThen(args, k))
    case Again(earlier, args) => EarlierThen(earlier, ArgsThen(args, k))
  }

  function ParametersThen(ps: seq<Parameter>, k: string): string
    decreases ps, 0
  {
    if ps == [] then k else ParameterThen(ps[0], ParametersThen(ps[1..], k))
  }

  /** Template arguments, if there are any. */
  function ArgsThen(args: seq<Arg>, k: string): string
    decreases args, 1
  {
    if args == [] then k else "I" + ListThen(args, "E" + k)
  }

  function ListThen(args: seq<Arg>, k: string): string
    decreases args, 0
  {
    if args == [] then k else ArgThen(args[0], ListThen(args[1..], k))
  }

  function ArgThen(a: Arg, k: string): string
    decreases a, 0
  {
    match a
    case Type(of) => ParameterThen(of, k)
    case ArgPack(c, args) => [c] + ListThen(args, "E" + k)
    case Value(l) => LiteralThen(l, k)
    case Bracketed(e) => "X" + ExprThen(e, "E" + k)
  }

  function LiteralThen(l: Literal, k: string): string
    decreases l, 0
  {
    match l
    case Integer(of, n) => "L" + ParameterThen(of, SignedThen(n, "E" + k))
    case Float(of, hex) => "L" + ParameterThen(of, hex + ("E" + k))
    case External(s) => "L" + ("_" + ("Z" + SymbolThen(s, "E" + k)))
    case OldExternal(s) => "L" + ("Z" + SymbolThen(s, "E" + k))
  }

  function ExprThen(e: Expr, k: string): string
    decreases e, 0
  {
    match e
    case Param(digits) => NumberedThen(digits, k)
    case Primary(l) => LiteralThen(l, k)
    case Operation(op, front, last) => PartThen(op, ExprsThen(front, ExprThen(last, k)))
    case Sizeof(of) => "s" + ("t" + ParameterThen(of, k))
    case Scoped(of, component) => "s" + ("r" + ParameterThen(of, ComponentThen(component, k)))
  }

  function ExprsThen(es: seq<Expr>, k: string): string
    decreases es, 0
  {
    if es == [] then k else ExprThen(es[0], ExprsThen(es[1..], k))
  }

  function ScopeThen(s: Scope, k: string): string
    decreases s, 1
  {
    "N" + QualifiersThen(s.q, InnerThen(s, k))
  }

  function InnerThen(s: Scope, k: string): string
    decreases s, 0
  {
    StartThen(s.start, ComponentsThen(s.components, "E" + k))
  }

  function StartThen(s: Start, k: string): string
    decreases s, 0
  {
    match s
    case Nothing => k
    case From(earlier, args) => EarlierThen(earlier, ArgsThen(args, k))
    case FromParameter(digits, args) => NumberedThen(digits, ArgsThen(args, k))
  }

  function ComponentsThen(cs: seq<Component>, k: string): string
    decreases cs, 0
  {
    if cs == [] then k else ComponentThen(cs[0], ComponentsThen(cs[1..], k))
  }

  function ComponentThen(c: Component, k: string): string
    decreases c, 0
  {
    PartThen(c.part, ArgsThen(c.args, k))
  }

  function PartThen(p: Part, k: string): string
    decreases p, 0
  {
    match p
    case Named(name, tags) => NameThen(name, TagsThen(tags, k))
    case LocalNamed(name, at, tags) => "L" + NameThen(name, PlaceThen(at, TagsThen(tags, k)))
    case Structor(c, d) => [c] + ([d] + k)
    case Op(c, d) => [c] + ([d] + k)
    case Cast(of) => "c" + ("v" + ParameterThen(of, k))
    case VendorOp(d, name) => "v" + ([d] + NameThen(name, k))
  }

  function NamedThen(n: Name, k: string): string
    decreases n, 0
  {
    match n
    case Nested(scope) => ScopeThen(scope, k)
    case Global(c) => ComponentThen(c, k)
    case Std(c) => "S" + ("t" + ComponentThen(c, k))
    case Local(of, name, at) => "Z" + SymbolThen(of, "E" + NamedThen(name, PlaceThen(at, k)))
    case LocalText(of, at) => "Z" + SymbolThen(of, "E" + ("s" + PlaceThen(at, k)))
  }

  function SymbolThen(s: Symbol, k: string): string
    decreases s, 0
  {
    match s
    case Code(name, ps) => NamedThen(name, ParametersThen(ps, k))
    case Table(c, of) => "T" + ([c] + ParameterThen(of, k))
    case Construction(of, at, base) =>
      "T" + ("C" + ParameterThen(of, SignedThen(at, "_" + ParameterThen(base, k))))
    case ThreadLocal(c, of) => "T" + ([c] + ParameterThen(of, k))
    case Guard(name) => "G" + ("V" + NamedThen(name, k))
    case Temporary(name) => "G" + ("R" + NamedThen(name, k))
    case Alias(target) => "G" + ("A" + SymbolThen(target, k))
    case Thunk(o, target) => "T" + OffsetThen(o, SymbolThen(target, k))
    case OtherThunk(c, o, target) => "T" + ([c] + OffsetThen(o, SymbolThen(target, k)))
    case Covariant(o, r, target) => "T" + ("c" + OffsetThen(o, OffsetThen(r, SymbolThen(target, k))))
  }

  // ---------------------------------------------------------------------------------
  // What they begin with
  // ---------------------------------------------------------------------------------

  predicate BeginsPart(c: char) {
    M.IsDigit(c) || M.IsLower(c) || c == 'C' || c == 'D' || c == 'L'
  }

  predicate BeginsName(c: char) {
    BeginsPart(c) || c == 'N' || c == 'Z' || c == 'S'
  }

  predicate BeginsType(c: char) {
    || M.IsDigit(c) || M.IsLower(c) || IsCompound(c)
    || c == 'V' || c == 'K' || c == 'U' || c == 'D' || c == 'F' || c == 'A' || c == 'M'
    || c == 'N' || c == 'S' || c == 'Z' || c == 'L' || c == 'T'
  }

  predicate BeginsExpr(c: char) {
    M.IsLower(c) || c == 'T' || c == 'L'
  }

  lemma PartBegins(p: Part, k: string)
    requires IsPart(p)
    ensures var s := PartThen(p, k); s != "" && BeginsPart(s[0])
    ensures PartThen(p, k)[0] == 'r' ==> p.Op? && p.c == 'r'
    ensures M.IsDigit(PartThen(p, k)[0]) ==> p.Named?
  {
    match p
    case Named(name, tags) => N.DecNatReads(|name|);
    case LocalNamed(_, _, _) =>
    case Structor(_, _) =>
    case Op(c, d) => OperatorLetter(c, d);
    case Cast(_) =>
    case VendorOp(_, _) =>
  }

  lemma OperatorLetter(c: char, d: char)
    requires M.IsOperator(c, d)
    ensures M.IsLower(c)
  {
  }

  lemma NamedBegins(n: Name, k: string)
    requires IsName(n)
    ensures var s := NamedThen(n, k); s != "" && BeginsName(s[0])
    ensures M.IsDigit(NamedThen(n, k)[0]) ==> n.Global? && n.component.part.Named?
    ensures IsClassName(n) ==> !M.IsLower(NamedThen(n, k)[0]) && NamedThen(n, k)[0] != 'C' && NamedThen(n, k)[0] != 'D'
    ensures NamedThen(n, k)[0] == 'N' <==> n.Nested?
  {
    if n.Global? {
      PartBegins(n.component.part, ArgsThen(n.component.args, k));
      if n.component.part.Named? { N.DecNatReads(|n.component.part.name|); }
    }
  }

  lemma ParameterBegins(p: Parameter, k: string)
    requires IsParameter(p)
    ensures var s := ParameterThen(p, k); s != "" && BeginsType(s[0])
    ensures !p.Qualified? ==> ParameterThen(p, k)[0] != 'r' && ParameterThen(p, k)[0] != 'V'
                              && ParameterThen(p, k)[0] != 'K'
    ensures M.IsDigit(ParameterThen(p, k)[0]) ==> BeginsWithDigit(p)
  {
    match p
    case Builtin(c) => BuiltinLetter(c);
    case Class(name) => NamedBegins(name, k);
    case _ =>
  }

  lemma BuiltinLetter(c: char)
    requires M.IsBuiltin(c)
    ensures M.IsLower(c) && c != 'r' && c != 'u'
  {
  }

  lemma ParametersBegin(ps: seq<Parameter>, k: string)
    requires AreParameters(ps) && ps != []
    ensures var s := ParametersThen(ps, k); s != "" && BeginsType(s[0])
    ensures M.IsDigit(ParametersThen(ps, k)[0]) ==> BeginsWithDigit(ps[0])
  {
    ParameterBegins(ps[0], ParametersThen(ps[1..], k));
  }

  lemma ExprBegins(e: Expr, k: string)
    requires IsExpr(e)
    ensures var s := ExprThen(e, k); s != "" && BeginsExpr(s[0])
    ensures IsLeaf(e) ==> ExprThen(e, k)[0] == 'T' || ExprThen(e, k)[0] == 'L'
  {
    if e.Operation? {
      var rest := ExprsThen(e.front, ExprThen(e.last, k));
      match e.op
      case Op(c, d) => OperatorLetter(c, d);
      case _ =>
    }
  }

  lemma ListBegins(args: seq<Arg>, free: bool, k: string)
    requires AreArgs(args, free) && args != []
    ensures var s := ListThen(args, k);
            && s != "" && (BeginsType(s[0]) || s[0] == 'I' || s[0] == 'J' || s[0] == 'X')
            && (s[0] == 'I' ==> free)
  {
    var a, rest := args[0], ListThen(args[1..], k);
    match a
    case Type(of) => ParameterBegins(of, rest);
    case Value(l) => assert LiteralThen(l, rest)[0] == 'L';
    case _ =>
  }

  lemma ComponentsBegin(cs: seq<Component>, k: string)
    requires AreComponents(cs)
    ensures var s := ComponentsThen(cs, "E" + k); s != "" && (BeginsPart(s[0]) || s[0] == 'E')
    ensures cs != [] ==> (ComponentsThen(cs, "E" + k)[0] == 'r' ==> cs[0].part.Op? && cs[0].part.c == 'r')
  {
    if cs != [] {
      PartBegins(cs[0].part, ArgsThen(cs[0].args, ComponentsThen(cs[1..], "E" + k)));
    }
  }
}
