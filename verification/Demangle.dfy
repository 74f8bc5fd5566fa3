/** The backtracking demangler of the logging library (demangle.cc) as it runs, with a saved state to go back to. Unless
    a source name has moved the cursor back, every parser ends, recognises exactly what the grammar function of the same
    name does, puts the state back when it fails, and stays inside both buffers, whatever the size of the output. Module
    StepBack says which texts can move the cursor back and what happens then. The characters of the output are not kept,
    only where the next one goes; the one decision that reads them back is left open. */
module Demangle {
  import opened Mangling
  import Bnf
  import Reading
  import StepBack

  /** The State struct. `prevLength` is -1 without a remembered name. `steppedBack` records that a source name moved the
      cursor back; what the code does after that is not followed, and nothing is said about it. */
  datatype State = State(cur: int, outCur: nat, prevLength: int, nestLevel: int, append: bool, overflowed: bool,
                         steppedBack: bool)

  lemma NumberBegins(t: string, from: nat)
    requires from <= |t|
    ensures Int32(DigitsValue(t, from, from)) == 0
  {
  }

  /** One digit more, wrapped around at each step or once. */
  lemma NumberStep(t: string, from: nat, p: nat)
    requires from <= p < |t| && IsDigit(t[p])
    ensures Int32(Int32(DigitsValue(t, from, p)) * 10 + (t[p] as int - '0' as int)) ==
            Int32(DigitsValue(t, from, p + 1))
    ensures DigitsEnd(t, p + 1) == DigitsEnd(t, p)
  {
    Int32Step(DigitsValue(t, from, p), t[p] as int - '0' as int);
  }

  lemma NumberDone(t: string, i: nat, p: nat)
    requires i <= |t| && DigitsStart(t, i) <= p <= |t| && (p < |t| ==> !IsDigit(t[p]))
    requires DigitsEnd(t, p) == DigitsEnd(t, DigitsStart(t, i))
    ensures var value := Int32(DigitsValue(t, DigitsStart(t, i), p));
            NumberAt(t, i) == if p == DigitsStart(t, i) then NoNumber
                              else Numeral(p, Int32(value * if Signed(t, i) then -1 else 1))
  {
    Int32Step(Decimal(t, i), 0);
  }

  class Demangler {
    const mangled: string
    const outSize: nat
    var state: State

    /** InitState. The text is that before the NUL. */
    constructor (text: string, size: nat)
      requires size >= 1
      ensures mangled == text && outSize == size && Good(state) && state == State(0, 0, -1, -1, true, false, false)
    {
      mangled, outSize := text, size;
      state := State(0, 0, -1, -1, true, false, false);
    }

    /** Neither cursor leaves its buffer: at most the NUL is reached, and there is room for one in the output. */
    ghost predicate Good(s: State) {
      0 <= s.cur <= |mangled| && s.outCur < outSize
    }

    /** The cursor did not go back, and the append mode and the nesting level are as they were. */
    ghost predicate Kept(before: State, after: State) {
      && Good(after) && before.cur <= after.cur && (before.steppedBack ==> after.steppedBack)
      && after.append == before.append && after.nestLevel == before.nestLevel
    }

    /** The parser succeeds exactly where the grammar does and ends up where the grammar says, unless a source name
        moved the cursor back, which happens exactly where the grammar says so. */
    ghost predicate Tried(before: State, after: State, ok: bool, p: Pos) {
      && Kept(before, after) && (ok ==> before.cur < after.cur)
      && (after.steppedBack <==> before.steppedBack || p.Back?)
      && (!after.steppedBack ==> ok == p.At? && (p.At? ==> after.cur == p.i))
    }

    /** And failure leaves the state as it was. */
    ghost predicate Parsed(before: State, after: State, ok: bool, p: Pos) {
      Tried(before, after, ok, p) && (!after.steppedBack && p.Fail? ==> after == before)
    }

    /** For what may be empty and cannot fail. */
    ghost predicate Ran(before: State, after: State, p: Pos) {
      && Kept(before, after)
      && (after.steppedBack <==> before.steppedBack || p.Back?)
      && (!after.steppedBack ==> p.At? && after.cur == p.i)
    }

    /** Only the output moved. */
    ghost predicate Wrote(before: State, after: State) {
      Good(after) &&
        after == before.(outCur := after.outCur, prevLength := after.prevLength, overflowed := after.overflowed)
      && (before.overflowed ==> after.overflowed)
    }

    function CharAt(i: nat): char {
      if i < |mangled| then mangled[i] else '\0'
    }

    // ---------------------------------------------------------------------------------
    // Output
    // ---------------------------------------------------------------------------------

    /** Where the output ends when `length` characters are added behind `from`. */
    ghost function Behind(from: nat, length: int): int {
      if length <= 0 then from else if from + length < outSize then from + length else outSize - 1
    }

    /** Append, of `length` characters: as many as fit before the place of the NUL. */
    method Append(length: int)
      requires Good(state)
      modifies this
      ensures Wrote(old(state), state)
      ensures state.prevLength == old(state).prevLength
      ensures state.outCur == Behind(old(state).outCur, length)
      ensures state.overflowed <==> old(state).overflowed || (length > 0 && old(state).outCur + length >= outSize)
    {
      var i := 0;
      while i < length
        invariant 0 <= i && (i <= length || i == 0)
        invariant state == old(state).(outCur := old(state).outCur + i) && state.outCur < outSize
      {
        if state.outCur + 1 < outSize {
          state := state.(outCur := state.outCur + 1);
        } else {
          state := state.(overflowed := true);
          break;
        }
        i := i + 1;
      }
    }

    /** Nothing unless the mode says so; a text that starts with < may get a space in front; a name is remembered. */
    ghost predicate Appended(before: State, after: State, first: char, length: int) {
      if !before.append || length <= 0 then after == before
      else
        && (after.outCur == Behind(before.outCur, length)
            || (first == '<' && before.outCur > 0 && after.outCur == Behind(before.outCur, length + 1)))
        && after.prevLength == if IsAlpha(first) || first == '_' then length else before.prevLength
    }

    /** MaybeAppendWithLength of a text that starts with `first`. */
    method MaybeAppendWithLength(first: char, length: int)
      requires Good(state)
      modifies this
      ensures Wrote(old(state), state)
      ensures Appended(old(state), state, first, length)
    {
      if state.append && length > 0 {
        if first == '<' && state.outCur > 0 {
          if * {
            Append(1);
          }
        }
        if IsAlpha(first) || first == '_' {
          state := state.(prevLength := length);
        }
        Append(length);
      }
    }

    method MaybeAppend(str: string)
      requires Good(state)
      modifies this
      ensures Wrote(old(state), state)
      ensures Appended(old(state), state, if str == "" then '\0' else str[0], |str|)
    {
      if state.append {
        MaybeAppendWithLength(if str == "" then '\0' else str[0], |str|);
      }
    }

    /** The remembered name, whose characters are read back from the output. */
    method AppendPrevName()
      requires Good(state)
      modifies this
      ensures Wrote(old(state), state)
      ensures exists first :: Appended(old(state), state, first, old(state).prevLength)
    {
      var first: char := *;
      MaybeAppendWithLength(first, state.prevLength);
    }

    method MaybeAppendSeparator()
      requires Good(state)
      modifies this
      ensures Wrote(old(state), state)
      ensures if old(state).nestLevel >= 1 then Appended(old(state), state, ':', 2) else state == old(state)
    {
      if state.nestLevel >= 1 {
        MaybeAppend("::");
      }
    }

    method MaybeCancelLastSeparator()
      requires Good(state)
      modifies this
      ensures Wrote(old(state), state)
      ensures state == if old(state).nestLevel >= 1 && old(state).append && old(state).outCur >= 2
                       then old(state).(outCur := old(state).outCur - 2) else old(state)
    {
      if state.nestLevel >= 1 && state.append && 0 <= state.outCur - 2 {
        state := state.(outCur := state.outCur - 2);
      }
    }

    method Restore(copy: State)
      modifies this
      ensures state == copy.(steppedBack := old(state).steppedBack)
    {
      state := copy.(steppedBack := state.steppedBack);
    }

    // ---------------------------------------------------------------------------------
    // Tokens and numbers
    // ---------------------------------------------------------------------------------

    /** ParseOneCharToken. */
    method ParseOneCharToken(token: char) returns (ok: bool)
      requires Good(state)
      requires token != '\0'
      modifies this
      ensures Parsed(old(state), state, ok, Tok(mangled, old(state).cur, token))
      ensures ok == Tok(mangled, old(state).cur, token).At?
      ensures state == old(state).(cur := old(state).cur + if ok then 1 else 0)
    {
      ok := CharAt(state.cur) == token;
      if ok {
        state := state.(cur := state.cur + 1);
      }
    }

    /** ParseTwoCharToken. */
    method ParseTwoCharToken(token: string) returns (ok: bool)
      requires Good(state)
      requires |token| == 2 && token[0] != '\0' && token[1] != '\0'
      modifies this
      ensures Parsed(old(state), state, ok, Tok2(mangled, old(state).cur, token[0], token[1]))
      ensures ok == Tok2(mangled, old(state).cur, token[0], token[1]).At?
      ensures state == old(state).(cur := old(state).cur + if ok then 2 else 0)
    {
      ok := CharAt(state.cur) == token[0] && CharAt(state.cur + 1) == token[1];
      if ok {
        state := state.(cur := state.cur + 2);
      }
    }

    /** ParseCharClass. */
    method ParseCharClass(tokens: string) returns (ok: bool)
      requires Good(state)
      requires forall i :: 0 <= i < |tokens| ==> tokens[i] != '\0'
      modifies this
      ensures Parsed(old(state), state, ok, OneOf(mangled, old(state).cur, tokens))
    {
      for i := 0 to |tokens|
        invariant state == old(state) && (state.cur < |mangled| ==> mangled[state.cur] !in tokens[..i])
      {
        if CharAt(state.cur) == tokens[i] {
          state := state.(cur := state.cur + 1);
          return true;
        }
      }
      ok := false;
    }

    /** ParseNumber: the value is returned too, and wraps around like an int in two's complement. A sign without digits
        is consumed although it fails. */
    method ParseNumber() returns (ok: bool, number: int)
      requires Good(state)
      modifies this
      ensures Tried(old(state), state, ok, Number(mangled, old(state).cur))
      ensures ok <==> NumberAt(mangled, old(state).cur).Numeral?
      ensures ok ==>
              state.cur == NumberAt(mangled, old(state).cur).end && number == NumberAt(mangled, old(state).cur).value
      ensures ok ==> state == old(state).(cur := state.cur)
      ensures !ok ==> state == old(state).(cur := old(state).cur + if CharAt(old(state).cur) == 'n' then 1 else 0)
    {
      hide Int32, DigitsValue, DigitsEnd, NumberAt;
      var sign := 1;
      var minus := ParseOneCharToken('n');
      if minus {
        sign := -1;
      }
      ghost var start := state;
      var p := state.cur;
      number := 0;
      NumberBegins(mangled, p);
      while p < |mangled| && IsDigit(mangled[p])
        invariant state == start && state.cur <= p <= |mangled|
        invariant number == Int32(DigitsValue(mangled, state.cur, p))
        invariant DigitsEnd(mangled, p) == DigitsEnd(mangled, state.cur)
      {
        NumberStep(mangled, state.cur, p);
        number := Int32(number * 10 + (mangled[p] as int - '0' as int));
        p := p + 1;
      }
      ok := p != state.cur;
      NumberDone(mangled, old(state).cur, p);
      if ok {
        state := state.(cur := p);
        number := Int32(number * sign);
      }
    }

    /** ParseNumber of a number that nobody wants. */
    method SkipNumber() returns (ok: bool)
      requires Good(state)
      modifies this
      ensures Tried(old(state), state, ok, Number(mangled, old(state).cur))
    {
      var value;
      ok, value := ParseNumber();
    }

    method ParseFloatNumber() returns (ok: bool)
      requires Good(state)
      modifies this
      ensures Parsed(old(state), state, ok, Run(mangled, old(state).cur, 'a', 'f'))
    {
      var p := state.cur;
      while p < |mangled| && (IsDigit(mangled[p]) || 'a' <= mangled[p] <= 'f')
        invariant state.cur <= p <= |mangled|
        invariant RunEnd(mangled, p, 'a', 'f') == RunEnd(mangled, state.cur, 'a', 'f')
      {
        p := p + 1;
      }
      ok := p != state.cur;
      state := state.(cur := p);
    }

    method ParseSeqId() returns (ok: bool)
      requires Good(state)
      modifies this
      ensures Parsed(old(state), state, ok, Run(mangled, old(state).cur, 'A', 'Z'))
    {
      var p := state.cur;
      while p < |mangled| && (IsDigit(mangled[p]) || 'A' <= mangled[p] <= 'Z')
        invariant state.cur <= p <= |mangled|
        invariant RunEnd(mangled, p, 'A', 'Z') == RunEnd(mangled, state.cur, 'A', 'Z')
      {
        p := p + 1;
      }
      ok := p != state.cur;
      state := state.(cur := p);
    }

    /** ParseIdentifier. Only the length -1 is refused; any other negative one passes for short enough and moves the
        cursor back, possibly in front of the text. */
    method ParseIdentifier(length: int) returns (ok: bool)
      requires Good(state)
      modifies this
      ensures ok <==> length != -1 && length <= |mangled| - old(state).cur
      ensures !ok ==> state == old(state)
      ensures ok && length >= 0 ==> Kept(old(state), state) && state.cur == old(state).cur + length
                                    && state.steppedBack == old(state).steppedBack
      ensures length < -1 ==> state == old(state).(cur := old(state).cur + length, steppedBack := true)
    {
      if length == -1 || state.cur + length > |mangled| {
        return false;
      }
      if length > 11 && "_GLOBAL__N_" <= mangled[state.cur..] {
        MaybeAppend("(anonymous namespace)");
      } else {
        MaybeAppendWithLength(CharAt(state.cur), length);
      }
      state := state.(cur := state.cur + length, steppedBack := state.steppedBack || length < 0);
      return true;
    }

    // ---------------------------------------------------------------------------------
    // Names without recursion
    // ---------------------------------------------------------------------------------

    /** ParseSourceName. A number below -1 is a success that ends where it takes the cursor back to. */
    method ParseSourceName() returns (ok: bool)
      requires Good(state)
      modifies this
      ensures !StepsBack(mangled, old(state).cur) ==> Parsed(old(state), state, ok, SourceName(mangled, old(state).cur))
      ensures StepsBack(mangled, old(state).cur) ==>
                var n := NumberAt(mangled, old(state).cur);
                ok && state == old(state).(cur := n.end + n.value, steppedBack := true)
    {
      var copy := state;
      var length;
      ok, length := ParseNumber();
      if ok { ok := ParseIdentifier(length); }
      if !ok { Restore(copy); }
    }

    /** ParseSourceName for the parsers above it: once it has moved the cursor back, the run is followed no further. */
    method FollowSourceName() returns (ok: bool)
      requires Good(state)
      modifies this
      ensures Parsed(old(state), state, ok, SourceName(mangled, old(state).cur))
    {
      var copy := state;
      ok := ParseSourceName();
      if state.steppedBack {
        Restore(copy);
        ok := false;
      }
    }

    /** The letter is consumed although no name follows. */
    method ParseAbiTag() returns (ok: bool)
      requires Good(state)
      modifies this
      ensures Tried(old(state), state, ok, AbiTag(mangled, old(state).cur))
      ensures !ok && !state.steppedBack ==> state.cur == Tok(mangled, old(state).cur, 'B').Or(old(state).cur)
    {
      ok := ParseOneCharToken('B');
      if ok { ok := FollowSourceName(); }
    }

    method ParseAbiTags() returns (ok: bool)
      requires Good(state)
      modifies this
      ensures Parsed(old(state), state, ok, AbiTags(mangled, old(state).cur))
    {
      var copy := state;
      state := state.(append := false);
      ok := OneOrMoreAbiTags();
      if ok {
        state := state.(append := copy.append);
      } else {
        Restore(copy);
      }
    }

    method OneOrMoreAbiTags() returns (ok: bool)
      requires Good(state)
      modifies this
      ensures Tried(old(state), state, ok, AbiTags(mangled, old(state).cur))
    {
      ok := ParseAbiTag();
      if ok {
        var more := true;
        ghost var end, first := MoreAbiTags(mangled, state.cur), state;
        while more
          invariant Kept(old(state), state)
          invariant first.steppedBack ==> state.steppedBack
          invariant !state.steppedBack ==> if more then MoreAbiTags(mangled, state.cur) == end else end == At(state.cur)
          invariant state.steppedBack ==> old(state).steppedBack || AbiTags(mangled, old(state).cur).Back?
          decreases |mangled| - state.cur, more
        {
          more := ParseAbiTag();
        }
      }
    }

    method ParseDiscriminator() returns (ok: bool)
      requires Good(state)
      modifies this
      ensures Parsed(old(state), state, ok, Discriminator(mangled, old(state).cur))
    {
      var copy := state;
      ok := ParseOneCharToken('_');
      if ok { ok := SkipNumber(); }
      if !ok { Restore(copy); }
    }

    method ParseLocalSourceName() returns (ok: bool)
      requires Good(state)
      modifies this
      ensures Parsed(old(state), state, ok, LocalSourceName(mangled, old(state).cur))
    {
      var copy := state;
      ok := ParseOneCharToken('L');
      if ok { ok := FollowSourceName(); }
      if ok { var _ := ParseDiscriminator(); }
      if !ok { Restore(copy); }
    }

    method ParseVOffset() returns (ok: bool)
      requires Good(state)
      modifies this
      ensures Parsed(old(state), state, ok, VOffset(mangled, old(state).cur))
    {
      var copy := state;
      ok := SkipNumber();
      if ok { ok := ParseOneCharToken('_'); }
      if ok { ok := SkipNumber(); }
      if !ok { Restore(copy); }
    }

    method ParseCallOffset() returns (ok: bool)
      requires Good(state)
      modifies this
      ensures Parsed(old(state), state, ok, CallOffset(mangled, old(state).cur))
    {
      ok := ParseNonVirtualOffset();
      if !ok { ok := ParseVirtualOffset(); }
    }

    /** The two alternatives of ParseCallOffset. */
    method ParseNonVirtualOffset() returns (ok: bool)
      requires Good(state)
      modifies this
      ensures Parsed(old(state), state, ok, NonVirtualOffset(mangled, old(state).cur))
    {
      var copy := state;
      ok := ParseOneCharToken('h');
      if ok { ok := SkipNumber(); }
      if ok { ok := ParseOneCharToken('_'); }
      if !ok { Restore(copy); }
    }

    method ParseVirtualOffset() returns (ok: bool)
      requires Good(state)
      modifies this
      ensures Parsed(old(state), state, ok, VirtualOffset(mangled, old(state).cur))
    {
      var copy := state;
      ok := ParseOneCharToken('v');
      if ok { ok := ParseVOffset(); }
      if ok { ok := ParseOneCharToken('_'); }
      if !ok { Restore(copy); }
    }

    method ParseCVQualifiers() returns (ok: bool)
      requires Good(state)
      modifies this
      ensures Parsed(old(state), state, ok, CVQualifiers(mangled, old(state).cur))
      ensures !ok ==> state == old(state)
    {
      var r := ParseOneCharToken('r');
      var v := ParseOneCharToken('V');
      var k := ParseOneCharToken('K');
      ok := r || v || k;
    }

    method ParseCtorDtorName() returns (ok: bool)
      requires Good(state)
      modifies this
      ensures Parsed(old(state), state, ok, CtorDtorName(mangled, old(state).cur))
    {
      var copy := state;
      ok := ParseOneCharToken('C');
      if ok {
        ok := ParseCharClass("123");
        if ok {
          AppendPrevName();
          return;
        }
      }
      Restore(copy);
      ok := ParseOneCharToken('D');
      if ok {
        ok := ParseCharClass("012");
        if ok {
          MaybeAppend("~");
          AppendPrevName();
          return;
        }
      }
      Restore(copy);
    }

    method ParseTemplateParam() returns (ok: bool)
      requires Good(state)
      modifies this
      ensures Parsed(old(state), state, ok, TemplateParam(mangled, old(state).cur))
    {
      ok := ParseTwoCharToken("T_");
      if ok {
        MaybeAppend("?");
        return;
      }
      var copy := state;
      ok := ParseOneCharToken('T');
      if ok {
        ok := SkipNumber();
        if ok {
          ok := ParseOneCharToken('_');
          if ok {
            MaybeAppend("?");
            return;
          }
        }
      }
      Restore(copy);
    }

    method ParseSubstitution() returns (ok: bool)
      requires Good(state)
      modifies this
      ensures Parsed(old(state), state, ok, Substitution(mangled, old(state).cur))
    {
      ok := ParseTwoCharToken("S_");
      if ok {
        MaybeAppend("?");
        return;
      }
      var copy := state;
      ok := ParseOneCharToken('S');
      if ok {
        ok := ParseSeqId();
        if ok {
          ok := ParseOneCharToken('_');
          if ok {
            MaybeAppend("?");
            return;
          }
        }
      }
      Restore(copy);
      ok := ParseOneCharToken('S');
      if ok { ok := ParseAbbreviation(); }
      if !ok {
        Restore(copy);
      }
    }

    /** The loop over kSubstitutionList. */
    method ParseAbbreviation() returns (ok: bool)
      requires Good(state)
      modifies this
      ensures Parsed(old(state), state, ok, Abbreviation(mangled, old(state).cur))
    {
      for i := 0 to |SUBSTITUTIONS|
        invariant state == old(state) && forall k :: 0 <= k < i ==> SUBSTITUTIONS[k].0 != CharAt(state.cur)
      {
        if CharAt(state.cur) == SUBSTITUTIONS[i].0 {
          NoNulInTables();
          assert IsSubstitution(SUBSTITUTIONS[i].0);
          MaybeAppend("std");
          if SUBSTITUTIONS[i].1 != "" {
            MaybeAppend("::");
            MaybeAppend(SUBSTITUTIONS[i].1);
          }
          state := state.(cur := state.cur + 1);
          return true;
        }
      }
      ok := false;
    }

    method ParseTemplateTemplateParam() returns (ok: bool)
      requires Good(state)
      modifies this
      ensures Parsed(old(state), state, ok, TemplateTemplateParam(mangled, old(state).cur))
    {
      ok := ParseTemplateParam();
      if !ok {
        ok := ParseSubstitution();
      }
    }

    method ParseBuiltinType() returns (ok: bool)
      requires Good(state)
      modifies this
      ensures Parsed(old(state), state, ok, BuiltinType(mangled, old(state).cur))
    {
      for i := 0 to |BUILTIN_TYPES|
        invariant state == old(state) && forall k :: 0 <= k < i ==> BUILTIN_TYPES[k].0 != CharAt(state.cur)
      {
        if CharAt(state.cur) == BUILTIN_TYPES[i].0 {
          NoNulInTables();
          assert IsBuiltin(BUILTIN_TYPES[i].0);
          MaybeAppend(BUILTIN_TYPES[i].1);
          state := state.(cur := state.cur + 1);
          return true;
        }
      }
      var copy := state;
      ok := ParseOneCharToken('u');
      if ok { ok := FollowSourceName(); }
      if !ok { Restore(copy); }
    }

    /** An operator by its name, with a space in front of a word. */
    method AppendOperator(name: string)
      requires Good(state)
      modifies this
      ensures Wrote(old(state), state)
    {
      MaybeAppend("operator");
      if name != "" && IsLower(name[0]) {
        MaybeAppend(" ");
      }
      MaybeAppend(name);
    }

    /** The loop over kOperatorList. */
    method ParseListedOperator() returns (ok: bool)
      requires Good(state)
      requires state.cur + 2 <= |mangled|
      modifies this
      ensures Parsed(old(state), state, ok, ListedOperator(mangled, old(state).cur))
    {
      for i := 0 to |OPERATORS|
        invariant state == old(state)
        invariant forall k :: 0 <= k < i ==>
                  !(OPERATORS[k].0 == CharAt(state.cur) && OPERATORS[k].1 == CharAt(state.cur + 1))
      {
        var name := OPERATORS[i].2;
        if CharAt(state.cur) == OPERATORS[i].0 && CharAt(state.cur + 1) == OPERATORS[i].1 {
          AppendOperator(name);
          state := state.(cur := state.cur + 2);
          return true;
        }
      }
      ok := false;
    }

    // ---------------------------------------------------------------------------------
    // The grammar
    // ---------------------------------------------------------------------------------

    method ParseOperatorName() returns (ok: bool)
      requires Good(state)
      modifies this
      ensures Parsed(old(state), state, ok, OperatorName(mangled, old(state).cur))
      decreases |mangled| - state.cur, 1
    {
      hide CastOperator, VendorOperator, ListedOperator;
      if state.cur + 2 > |mangled| {
        return false;
      }
      ok := ParseCastOperator();
      if !ok { ok := ParseVendorOperator(); }
      if ok { return; }
      if !(IsLower(CharAt(state.cur)) && IsAlpha(CharAt(state.cur + 1))) {
        return false;
      }
      ok := ParseListedOperator();
    }

    method ParseCastOperator() returns (ok: bool)
      requires Good(state)
      modifies this
      ensures Parsed(old(state), state, ok, CastOperator(mangled, old(state).cur))
      decreases |mangled| - state.cur, 0
    {
      var copy := state;
      ok := ParseTwoCharToken("cv");
      if ok {
        MaybeAppend("operator ");
        state := state.(nestLevel := 0);
        ok := ParseType();
      }
      if ok {
        state := state.(nestLevel := copy.nestLevel);
      } else {
        Restore(copy);
      }
    }

    method ParseVendorOperator() returns (ok: bool)
      requires Good(state)
      modifies this
      ensures Parsed(old(state), state, ok, VendorOperator(mangled, old(state).cur))
    {
      var copy := state;
      ok := ParseOneCharToken('v');
      if ok { ok := ParseCharClass("0123456789"); }
      if ok { ok := FollowSourceName(); }
      if !ok { Restore(copy); }
    }

    method ParseUnqualifiedName() returns (ok: bool)
      requires Good(state)
      modifies this
      ensures Parsed(old(state), state, ok, UnqualifiedName(mangled, old(state).cur))
      decreases |mangled| - state.cur, 2
    {
      ok := ParseOperatorName();
      if ok { return; }
      ok := ParseCtorDtorName();
      if ok { return; }
      ok := FollowSourceName();
      if !ok { ok := ParseLocalSourceName(); }
      if ok {
        var _ := ParseAbiTags();
      }
    }

    method ParseUnscopedName() returns (ok: bool)
      requires Good(state)
      modifies this
      ensures Parsed(old(state), state, ok, UnscopedName(mangled, old(state).cur))
      decreases |mangled| - state.cur, 3
    {
      ok := ParseUnqualifiedName();
      if ok { return; }
      var copy := state;
      ok := ParseTwoCharToken("St");
      if ok { MaybeAppend("std::"); }
      if ok { ok := ParseUnqualifiedName(); }
      if !ok { Restore(copy); }
    }

    method ParseUnscopedTemplateName() returns (ok: bool)
      requires Good(state)
      modifies this
      ensures Parsed(old(state), state, ok, UnscopedTemplateName(mangled, old(state).cur))
      decreases |mangled| - state.cur, 4
    {
      ok := ParseUnscopedName();
      if !ok {
        ok := ParseSubstitution();
      }
    }

    method ParseNestedName() returns (ok: bool)
      requires Good(state)
      modifies this
      ensures Parsed(old(state), state, ok, NestedName(mangled, old(state).cur))
      decreases |mangled| - state.cur, 0
    {
      var copy := state;
      ok := ParseOneCharToken('N');
      if ok {
        state := state.(nestLevel := 0);
        var _ := ParseCVQualifiers();
        ok := ParsePrefix();
        if ok {
          state := state.(nestLevel := copy.nestLevel);
          ok := ParseOneCharToken('E');
        }
      }
      if !ok {
        Restore(copy);
      }
    }

    /** The three parsers that the loop of ParsePrefix tries. */
    method ParseComponent() returns (ok: bool)
      requires Good(state)
      modifies this
      ensures Parsed(old(state), state, ok, Component(mangled, old(state).cur))
      decreases |mangled| - state.cur, 4
    {
      ok := ParseTemplateParam();
      if !ok { ok := ParseSubstitution(); }
      if !ok { ok := ParseUnscopedName(); }
    }

    /** ParsePrefix. */
    method ParsePrefix() returns (ok: bool)
      requires Good(state)
      modifies this
      ensures ok && Ran(old(state), state.(nestLevel := old(state).nestLevel), Prefix(mangled, old(state).cur, false))
      decreases |mangled| - state.cur, 5
    {
      var hasSomething := false;
      ghost var end := Prefix(mangled, state.cur, false);
      while true
        invariant Kept(old(state), state.(nestLevel := old(state).nestLevel))
        invariant !state.steppedBack ==> Prefix(mangled, state.cur, hasSomething) == end
        invariant state.steppedBack ==> old(state).steppedBack || end.Back?
        invariant hasSomething ==> old(state).cur < state.cur
        decreases |mangled| - state.cur
      {
        MaybeAppendSeparator();
        ok := ParseComponent();
        if ok {
          hasSomething := true;
          if state.nestLevel > -1 {
            state := state.(nestLevel := state.nestLevel + 1);
          }
          continue;
        }
        MaybeCancelLastSeparator();
        if hasSomething {
          ok := ParseTemplateArgs();
          if ok {
            ok := ParsePrefix();
            return;
          }
        }
        break;
      }
      return true;
    }

    /** One turn of that loop at a number that steps back, followed to where the cursor stands behind it: the calls to
        which ParseTemplateParam, ParseSubstitution and ParseUnscopedName come down there. The mark that the cursor went
        back is taken away again, so that what follows is described. */
    method TurnBack() returns (ok: bool)
      requires Good(state) && !state.steppedBack && StepsBack(mangled, state.cur)
      requires 0 <= StepBack.CodeEnd(mangled, state.cur) <= |mangled|
      modifies this
      ensures ok
      ensures state.steppedBack <==> AbiTags(mangled, StepBack.CodeEnd(mangled, old(state).cur)).Back?
      ensures !state.steppedBack ==> Good(state) && state.cur == StepBack.TurnEnd(mangled, old(state).cur)
    {
      ghost var start := state;
      StepBack.NothingElseThere(mangled, state.cur);
      hide TemplateParam, Substitution, OperatorName, CtorDtorName, AbiTags;
      ok := ParseTemplateParam();
      if !ok { ok := ParseSubstitution(); }
      if !ok { ok := ParseOperatorName(); }
      if !ok { ok := ParseCtorDtorName(); }
      assert state == start;
      ok := ParseSourceName();
      state := state.(steppedBack := false);
      var tagged := ParseAbiTags();
    }

    /** Where such a number goes back by as much as was read, the loop stays for any number of turns. */
    method TurnsBack(n: nat)
      requires Good(state) && !state.steppedBack && StepsBack(mangled, state.cur)
      requires StepBack.CodeEnd(mangled, state.cur) == state.cur
      modifies this
      ensures Good(state) && state.cur == old(state).cur == StepBack.Turns(mangled, old(state).cur, n)
    {
      StepBack.LoopStays(mangled, state.cur, n);
      for k := 0 to n
        invariant Good(state) && !state.steppedBack && state.cur == old(state).cur
      {
        StepBack.NumberStarts(mangled, state.cur);
        var ok := TurnBack();
      }
    }

    method ParseName() returns (ok: bool)
      requires Good(state)
      modifies this
      ensures Parsed(old(state), state, ok, Name(mangled, old(state).cur))
      decreases |mangled| - state.cur, 5
    {
      ok := ParseNestedName();
      if ok { return; }
      ok := ParseLocalName();
      if ok { return; }
      var copy := state;
      ok := ParseUnscopedTemplateName();
      if ok { ok := ParseTemplateArgs(); }
      if ok { return; }
      Restore(copy);
      ok := ParseUnscopedName();
    }

    method ParseEncoding() returns (ok: bool)
      requires Good(state)
      modifies this
      ensures Parsed(old(state), state, ok, Encoding(mangled, old(state).cur))
      decreases |mangled| - state.cur, 6
    {
      var copy := state;
      ok := ParseName();
      if ok { ok := ParseBareFunctionType(); }
      if ok { return; }
      Restore(copy);
      ok := ParseName();
      if !ok {
        ok := ParseSpecialName();
      }
    }

    /** The two letters are consumed although no encoding follows. */
    method ParseMangledName() returns (ok: bool)
      requires Good(state)
      modifies this
      ensures Tried(old(state), state, ok, MangledName(mangled, old(state).cur))
      ensures !ok && !state.steppedBack ==> state.cur == Tok2(mangled, old(state).cur, '_', 'Z').Or(old(state).cur)
      decreases |mangled| - state.cur, 0
    {
      ok := ParseTwoCharToken("_Z");
      if ok { ok := ParseEncoding(); }
    }

    method ParseSpecialName() returns (ok: bool)
      requires Good(state)
      modifies this
      ensures Parsed(old(state), state, ok, SpecialName(mangled, old(state).cur))
      decreases |mangled| - state.cur, 1
    {
      ok := ParseSpecialData();
      if !ok { ok := ParseCovariantThunk(); }
      if !ok { ok := ParseThunk(); }
      if !ok { ok := ParseConstructionTable(); }
      if !ok { ok := ParseSpecialExtension(); }
      if !ok { ok := ParseNamedThunk(); }
    }

    /** The first alternative of ParseSpecialName. */
    method ParseSpecialData() returns (ok: bool)
      requires Good(state)
      modifies this
      ensures Parsed(old(state), state, ok, SpecialData(mangled, old(state).cur))
      decreases |mangled| - state.cur, 0
    {
      var copy := state;
      ok := ParseOneCharToken('T');
      if ok { ok := ParseCharClass("VTIS"); }
      if ok { ok := ParseType(); }
      if !ok { Restore(copy); }
    }

    /** The second one. */
    method ParseCovariantThunk() returns (ok: bool)
      requires Good(state)
      modifies this
      ensures Parsed(old(state), state, ok, CovariantThunk(mangled, old(state).cur))
      decreases |mangled| - state.cur, 0
    {
      var copy := state;
      ok := ParseTwoCharToken("Tc");
      if ok { ok := ParseCallOffset(); }
      if ok { ok := ParseCallOffset(); }
      if ok { ok := ParseEncoding(); }
      if !ok { Restore(copy); }
    }

    /** The next two. */
    method ParseThunk() returns (ok: bool)
      requires Good(state)
      modifies this
      ensures Parsed(old(state), state, ok, Thunk(mangled, old(state).cur))
      decreases |mangled| - state.cur, 0
    {
      var copy := state;
      ok := ParseTwoCharToken("GV");
      if ok { ok := ParseName(); }
      if ok { return; }
      Restore(copy);
      ok := ParseOneCharToken('T');
      if ok { ok := ParseCallOffset(); }
      if ok { ok := ParseEncoding(); }
      if !ok { Restore(copy); }
    }

    /** The two G++ extensions after the construction table. */
    method ParseSpecialExtension() returns (ok: bool)
      requires Good(state)
      modifies this
      ensures Parsed(old(state), state, ok, SpecialExtension(mangled, old(state).cur))
      decreases |mangled| - state.cur, 0
    {
      var copy := state;
      ok := ParseOneCharToken('T');
      if ok { ok := ParseCharClass("FJ"); }
      if ok { ok := ParseType(); }
      if ok { return; }
      Restore(copy);
      ok := ParseTwoCharToken("GR");
      if ok { ok := ParseName(); }
      if !ok { Restore(copy); }
    }

    /** The last two. */
    method ParseNamedThunk() returns (ok: bool)
      requires Good(state)
      modifies this
      ensures Parsed(old(state), state, ok, NamedThunk(mangled, old(state).cur))
      decreases |mangled| - state.cur, 0
    {
      var copy := state;
      ok := ParseTwoCharToken("GA");
      if ok { ok := ParseEncoding(); }
      if ok { return; }
      Restore(copy);
      ok := ParseOneCharToken('T');
      if ok { ok := ParseCharClass("hv"); }
      if ok { ok := ParseCallOffset(); }
      if ok { ok := ParseEncoding(); }
      if !ok { Restore(copy); }
    }

    method ParseConstructionTable() returns (ok: bool)
      requires Good(state)
      modifies this
      ensures Parsed(old(state), state, ok, ConstructionTable(mangled, old(state).cur))
      decreases |mangled| - state.cur, 0
    {
      var copy := state;
      ok := ParseTwoCharToken("TC");
      if ok { ok := ParseType(); }
      if ok { ok := SkipNumber(); }
      if ok { ok := ParseOneCharToken('_'); }
      if ok { ok := ParseTypeUnprinted(); }
      if !ok { Restore(copy); }
    }

    /** The type behind the offset of a construction table, which is read without output. */
    method ParseTypeUnprinted() returns (ok: bool)
      requires Good(state)
      modifies this
      ensures Parsed(old(state), state, ok, Type(mangled, old(state).cur))
      decreases |mangled| - state.cur, 9
    {
      var copy := state;
      state := state.(append := false);
      ok := ParseType();
      if ok {
        state := state.(append := copy.append);
      } else {
        Restore(copy);
      }
    }

    method ParseType() returns (ok: bool)
      requires Good(state)
      modifies this
      ensures Parsed(old(state), state, ok, Type(mangled, old(state).cur))
      decreases |mangled| - state.cur, 8
    {
      ok := ParseQualifiedType();
      if !ok { ok := ParseExtendedType(); }
      if !ok { ok := ParsePlainType(); }
      if ok { return; }
      var copy := state;
      ok := ParseTemplateTemplateParam();
      if ok { ok := ParseTemplateArgs(); }
      if ok { return; }
      Restore(copy);
      ok := ParseTemplateParam();
    }

    /** The first three alternatives of ParseType. */
    method ParseQualifiedType() returns (ok: bool)
      requires Good(state)
      modifies this
      ensures Parsed(old(state), state, ok, QualifiedType(mangled, old(state).cur))
      decreases |mangled| - state.cur, 1
    {
      ok := ParseCVQualifiedType();
      if !ok { ok := ParseReferenceType(); }
      if !ok { ok := ParsePackExpansion(); }
    }

    method ParseCVQualifiedType() returns (ok: bool)
      requires Good(state)
      modifies this
      ensures Parsed(old(state), state, ok, CVQualifiedType(mangled, old(state).cur))
      decreases |mangled| - state.cur, 0
    {
      var copy := state;
      ok := ParseCVQualifiers();
      if ok { ok := ParseType(); }
      if !ok { Restore(copy); }
    }

    method ParseReferenceType() returns (ok: bool)
      requires Good(state)
      modifies this
      ensures Parsed(old(state), state, ok, ReferenceType(mangled, old(state).cur))
      decreases |mangled| - state.cur, 0
    {
      var copy := state;
      ok := ParseCharClass("OPRCG");
      if ok { ok := ParseType(); }
      if !ok { Restore(copy); }
    }

    method ParsePackExpansion() returns (ok: bool)
      requires Good(state)
      modifies this
      ensures Parsed(old(state), state, ok, PackExpansion(mangled, old(state).cur))
      decreases |mangled| - state.cur, 0
    {
      var copy := state;
      ok := ParseTwoCharToken("Dp");
      if ok { ok := ParseType(); }
      if !ok { Restore(copy); }
    }

    /** The next two. */
    method ParseExtendedType() returns (ok: bool)
      requires Good(state)
      modifies this
      ensures Parsed(old(state), state, ok, ExtendedType(mangled, old(state).cur))
      decreases |mangled| - state.cur, 1
    {
      ok := ParseDecltype();
      if !ok { ok := ParseVendorType(); }
    }

    method ParseDecltype() returns (ok: bool)
      requires Good(state)
      modifies this
      ensures Parsed(old(state), state, ok, Decltype(mangled, old(state).cur))
      decreases |mangled| - state.cur, 0
    {
      var copy := state;
      ok := ParseOneCharToken('D');
      if ok { ok := ParseCharClass("tT"); }
      if ok { ok := ParseExpression(); }
      if ok { ok := ParseOneCharToken('E'); }
      if !ok { Restore(copy); }
    }

    method ParseVendorType() returns (ok: bool)
      requires Good(state)
      modifies this
      ensures Parsed(old(state), state, ok, VendorType(mangled, old(state).cur))
      decreases |mangled| - state.cur, 0
    {
      var copy := state;
      ok := ParseOneCharToken('U');
      if ok { ok := FollowSourceName(); }
      if ok { ok := ParseType(); }
      if !ok { Restore(copy); }
    }

    /** The alternatives of ParseType that need no more than one parser; ParseClassEnumType is ParseName. */
    method ParsePlainType() returns (ok: bool)
      requires Good(state)
      modifies this
      ensures Parsed(old(state), state, ok, PlainType(mangled, old(state).cur))
      decreases |mangled| - state.cur, 7
    {
      ok := ParseBuiltinType();
      if !ok { ok := ParseFunctionType(); }
      if !ok { ok := ParseName(); }
      if !ok { ok := ParseArrayType(); }
      if !ok { ok := ParsePointerToMemberType(); }
      if !ok {
        ok := ParseSubstitution();
      }
    }

    method ParseFunctionType() returns (ok: bool)
      requires Good(state)
      modifies this
      ensures Parsed(old(state), state, ok, FunctionType(mangled, old(state).cur))
      decreases |mangled| - state.cur, 0
    {
      var copy := state;
      ok := ParseOneCharToken('F');
      if ok {
        var _ := ParseOneCharToken('Y');
        ok := ParseBareFunctionType();
        if ok { ok := ParseOneCharToken('E'); }
      }
      if !ok {
        Restore(copy);
      }
    }

    method ParseBareFunctionType() returns (ok: bool)
      requires Good(state)
      modifies this
      ensures Parsed(old(state), state, ok, BareFunctionType(mangled, old(state).cur))
      decreases |mangled| - state.cur, 10
    {
      var copy := state;
      state := state.(append := false);
      ok := OneOrMoreTypes();
      if ok {
        state := state.(append := copy.append);
        MaybeAppend("()");
      } else {
        Restore(copy);
      }
    }

    method OneOrMoreTypes() returns (ok: bool)
      requires Good(state)
      modifies this
      ensures Tried(old(state), state, ok, BareFunctionType(mangled, old(state).cur))
      decreases |mangled| - state.cur, 9
    {
      ok := ParseType();
      if ok {
        var more := true;
        ghost var end, first := MoreTypes(mangled, state.cur), state;
        while more
          invariant Kept(old(state), state) && old(state).cur < state.cur
          invariant first.steppedBack ==> state.steppedBack
          invariant !state.steppedBack ==> if more then MoreTypes(mangled, state.cur) == end else end == At(state.cur)
          invariant state.steppedBack ==> old(state).steppedBack || BareFunctionType(mangled, old(state).cur).Back?
          decreases |mangled| - state.cur, more
        {
          more := ParseType();
        }
      }
    }

    method ParseArrayType() returns (ok: bool)
      requires Good(state)
      modifies this
      ensures Parsed(old(state), state, ok, ArrayType(mangled, old(state).cur))
      decreases |mangled| - state.cur, 1
    {
      ok := ParseNumberedArray();
      if !ok { ok := ParseDependentArray(); }
    }

    /** The first alternative of ParseArrayType. */
    method ParseNumberedArray() returns (ok: bool)
      requires Good(state)
      modifies this
      ensures Parsed(old(state), state, ok, NumberedArray(mangled, old(state).cur))
      decreases |mangled| - state.cur, 0
    {
      var copy := state;
      ok := ParseOneCharToken('A');
      if ok { ok := SkipNumber(); }
      if ok { ok := ParseOneCharToken('_'); }
      if ok { ok := ParseType(); }
      if !ok { Restore(copy); }
    }

    /** The second one. */
    method ParseDependentArray() returns (ok: bool)
      requires Good(state)
      modifies this
      ensures Parsed(old(state), state, ok, DependentArray(mangled, old(state).cur))
      decreases |mangled| - state.cur, 0
    {
      var copy := state;
      ok := ParseOneCharToken('A');
      if ok { var _ := ParseExpression(); }
      if ok { ok := ParseOneCharToken('_'); }
      if ok { ok := ParseType(); }
      if !ok { Restore(copy); }
    }

    method ParsePointerToMemberType() returns (ok: bool)
      requires Good(state)
      modifies this
      ensures Parsed(old(state), state, ok, PointerToMemberType(mangled, old(state).cur))
      decreases |mangled| - state.cur, 0
    {
      var copy := state;
      ok := ParseOneCharToken('M');
      if ok { ok := ParseType(); }
      if ok { ok := ParseType(); }
      if !ok { Restore(copy); }
    }

    method ParseTemplateArgs() returns (ok: bool)
      requires Good(state)
      modifies this
      ensures Parsed(old(state), state, ok, TemplateArgs(mangled, old(state).cur))
      decreases |mangled| - state.cur, 0
    {
      var copy := state;
      state := state.(append := false);
      ok := ParseOneCharToken('I');
      if ok { ok := OneOrMoreTemplateArgs(); }
      if ok { ok := ParseOneCharToken('E'); }
      if ok {
        state := state.(append := copy.append);
        MaybeAppend("<>");
      } else {
        Restore(copy);
      }
    }

    method OneOrMoreTemplateArgs() returns (ok: bool)
      requires Good(state)
      modifies this
      ensures Tried(old(state), state, ok, TemplateArgList(mangled, old(state).cur))
      decreases |mangled| - state.cur, 11
    {
      ok := ParseTemplateArg();
      if ok { ZeroOrMoreTemplateArgs(); }
    }

    method ZeroOrMoreTemplateArgs()
      requires Good(state)
      modifies this
      ensures Ran(old(state), state, MoreTemplateArgs(mangled, old(state).cur))
      decreases |mangled| - state.cur, 10
    {
      var more := true;
      ghost var end := MoreTemplateArgs(mangled, state.cur);
      while more
        invariant Kept(old(state), state)
        invariant !state.steppedBack ==> if more then MoreTemplateArgs(mangled, state.cur) == end
                  else end == At(state.cur)
        invariant state.steppedBack ==> old(state).steppedBack || end.Back?
        decreases |mangled| - state.cur, more
      {
        more := ParseTemplateArg();
      }
    }

    method ParseTemplateArg() returns (ok: bool)
      requires Good(state)
      modifies this
      ensures Parsed(old(state), state, ok, TemplateArg(mangled, old(state).cur))
      decreases |mangled| - state.cur, 9
    {
      ok := ParseArgumentPack();
      if !ok { ok := ParseType(); }
      if !ok { ok := ParseExprPrimary(); }
      if !ok { ok := ParseBracketedExpression(); }
    }

    method ParseArgumentPack() returns (ok: bool)
      requires Good(state)
      modifies this
      ensures Parsed(old(state), state, ok, ArgumentPack(mangled, old(state).cur))
      decreases |mangled| - state.cur, 0
    {
      var copy := state;
      ok := ParseCharClass("IJ");
      if ok {
        ZeroOrMoreTemplateArgs();
        ok := ParseOneCharToken('E');
      }
      if !ok { Restore(copy); }
    }

    method ParseBracketedExpression() returns (ok: bool)
      requires Good(state)
      modifies this
      ensures Parsed(old(state), state, ok, BracketedExpression(mangled, old(state).cur))
      decreases |mangled| - state.cur, 0
    {
      var copy := state;
      ok := ParseOneCharToken('X');
      if ok { ok := ParseExpression(); }
      if ok { ok := ParseOneCharToken('E'); }
      if !ok { Restore(copy); }
    }

    method ParseExpression() returns (ok: bool)
      requires Good(state)
      modifies this
      ensures Parsed(old(state), state, ok, Expression(mangled, old(state).cur))
      decreases |mangled| - state.cur, 4
    {
      ok := ParseTemplateParam();
      if !ok { ok := ParseExprPrimary(); }
      if ok { return; }
      ok := ParseOperation();
      if !ok {
        ok := ParseTypeExpression();
      }
    }

    /** The alternatives of ParseExpression that start with an operator. */
    method ParseOperation() returns (ok: bool)
      requires Good(state)
      modifies this
      ensures Parsed(old(state), state, ok, Operation(mangled, old(state).cur))
      decreases |mangled| - state.cur, 3
    {
      ok := ParseTrinary();
      if !ok { ok := ParseBinary(); }
      if !ok { ok := ParseUnary(); }
    }

    method ParseTrinary() returns (ok: bool)
      requires Good(state)
      modifies this
      ensures Parsed(old(state), state, ok, Trinary(mangled, old(state).cur))
      decreases |mangled| - state.cur, 2
    {
      var copy := state;
      ok := ParseOperatorName();
      if ok { ok := ParseExpression(); }
      if ok { ok := ParseExpression(); }
      if ok { ok := ParseExpression(); }
      if !ok { Restore(copy); }
    }

    method ParseBinary() returns (ok: bool)
      requires Good(state)
      modifies this
      ensures Parsed(old(state), state, ok, Binary(mangled, old(state).cur))
      decreases |mangled| - state.cur, 2
    {
      var copy := state;
      ok := ParseOperatorName();
      if ok { ok := ParseExpression(); }
      if ok { ok := ParseExpression(); }
      if !ok { Restore(copy); }
    }

    method ParseUnary() returns (ok: bool)
      requires Good(state)
      modifies this
      ensures Parsed(old(state), state, ok, Unary(mangled, old(state).cur))
      decreases |mangled| - state.cur, 2
    {
      var copy := state;
      ok := ParseOperatorName();
      if ok { ok := ParseExpression(); }
      if !ok { Restore(copy); }
    }

    /** The alternatives of ParseExpression that start with st or sr. */
    method ParseTypeExpression() returns (ok: bool)
      requires Good(state)
      modifies this
      ensures Parsed(old(state), state, ok, TypeExpression(mangled, old(state).cur))
      decreases |mangled| - state.cur, 1
    {
      ok := ParseSizeofType();
      if !ok { ok := ParseScopedTemplate(); }
      if !ok { ok := ParseScopedName(); }
    }

    method ParseSizeofType() returns (ok: bool)
      requires Good(state)
      modifies this
      ensures Parsed(old(state), state, ok, SizeofType(mangled, old(state).cur))
      decreases |mangled| - state.cur, 0
    {
      var copy := state;
      ok := ParseTwoCharToken("st");
      if ok { ok := ParseType(); }
      if !ok { Restore(copy); }
    }

    method ParseScopedTemplate() returns (ok: bool)
      requires Good(state)
      modifies this
      ensures Parsed(old(state), state, ok, ScopedTemplate(mangled, old(state).cur))
      decreases |mangled| - state.cur, 0
    {
      var copy := state;
      ok := ParseTwoCharToken("sr");
      if ok { ok := ParseType(); }
      if ok { ok := ParseUnqualifiedName(); }
      if ok { ok := ParseTemplateArgs(); }
      if !ok { Restore(copy); }
    }

    method ParseScopedName() returns (ok: bool)
      requires Good(state)
      modifies this
      ensures Parsed(old(state), state, ok, ScopedName(mangled, old(state).cur))
      decreases |mangled| - state.cur, 0
    {
      var copy := state;
      ok := ParseTwoCharToken("sr");
      if ok { ok := ParseType(); }
      if ok { ok := ParseUnqualifiedName(); }
      if !ok { Restore(copy); }
    }

    method ParseExprPrimary() returns (ok: bool)
      requires Good(state)
      modifies this
      ensures Parsed(old(state), state, ok, ExprPrimary(mangled, old(state).cur))
      decreases |mangled| - state.cur, 1
    {
      ok := ParseIntegerLiteral();
      if !ok { ok := ParseFloatLiteral(); }
      if !ok { ok := ParseExternalLiteral(); }
      if !ok { ok := ParseOldLiteral(); }
    }

    method ParseIntegerLiteral() returns (ok: bool)
      requires Good(state)
      modifies this
      ensures Parsed(old(state), state, ok, IntegerLiteral(mangled, old(state).cur))
      decreases |mangled| - state.cur, 0
    {
      var copy := state;
      ok := ParseOneCharToken('L');
      if ok { ok := ParseType(); }
      if ok { ok := SkipNumber(); }
      if ok { ok := ParseOneCharToken('E'); }
      if !ok { Restore(copy); }
    }

    method ParseFloatLiteral() returns (ok: bool)
      requires Good(state)
      modifies this
      ensures Parsed(old(state), state, ok, FloatLiteral(mangled, old(state).cur))
      decreases |mangled| - state.cur, 0
    {
      var copy := state;
      ok := ParseOneCharToken('L');
      if ok { ok := ParseType(); }
      if ok { ok := ParseFloatNumber(); }
      if ok { ok := ParseOneCharToken('E'); }
      if !ok { Restore(copy); }
    }

    method ParseExternalLiteral() returns (ok: bool)
      requires Good(state)
      modifies this
      ensures Parsed(old(state), state, ok, ExternalLiteral(mangled, old(state).cur))
      decreases |mangled| - state.cur, 0
    {
      var copy := state;
      ok := ParseOneCharToken('L');
      if ok { ok := ParseMangledName(); }
      if ok { ok := ParseOneCharToken('E'); }
      if !ok { Restore(copy); }
    }

    method ParseOldLiteral() returns (ok: bool)
      requires Good(state)
      modifies this
      ensures Parsed(old(state), state, ok, OldLiteral(mangled, old(state).cur))
      decreases |mangled| - state.cur, 0
    {
      var copy := state;
      ok := ParseTwoCharToken("LZ");
      if ok { ok := ParseEncoding(); }
      if ok { ok := ParseOneCharToken('E'); }
      if !ok { Restore(copy); }
    }

    method ParseLocalName() returns (ok: bool)
      requires Good(state)
      modifies this
      ensures Parsed(old(state), state, ok, LocalName(mangled, old(state).cur))
      decreases |mangled| - state.cur, 1
    {
      ok := ParseLocalEntity();
      if !ok { ok := ParseLocalString(); }
    }

    method ParseLocalEntity() returns (ok: bool)
      requires Good(state)
      modifies this
      ensures Parsed(old(state), state, ok, LocalEntity(mangled, old(state).cur))
      decreases |mangled| - state.cur, 0
    {
      var copy := state;
      ok := ParseOneCharToken('Z');
      if ok { ok := ParseEncoding(); }
      if ok { ok := ParseOneCharToken('E'); }
      if ok { MaybeAppend("::"); }
      if ok { ok := ParseName(); }
      if ok { var _ := ParseDiscriminator(); }
      if !ok { Restore(copy); }
    }

    method ParseLocalString() returns (ok: bool)
      requires Good(state)
      modifies this
      ensures Parsed(old(state), state, ok, LocalString(mangled, old(state).cur))
      decreases |mangled| - state.cur, 0
    {
      var copy := state;
      ok := ParseOneCharToken('Z');
      if ok { ok := ParseEncoding(); }
      if ok { ok := ParseTwoCharToken("Es"); }
      if ok { var _ := ParseDiscriminator(); }
      if !ok { Restore(copy); }
    }

    // ---------------------------------------------------------------------------------
    // The whole name
    // ---------------------------------------------------------------------------------

    /** IsFunctionCloneSuffix of the rest of the text. */
    method IsFunctionCloneSuffix() returns (r: bool)
      requires Good(state)
      ensures r == CloneSuffix(mangled, state.cur)
    {
      var i := state.cur;
      while i < |mangled|
        invariant i <= |mangled| && CloneSuffix(mangled, i) == CloneSuffix(mangled, state.cur)
        decreases |mangled| - i
      {
        if mangled[i] != '.' || !IsAlpha(CharAt(i + 1)) {
          return false;
        }
        ghost var from := i;
        i := i + 2;
        while IsAlpha(CharAt(i))
          invariant i <= |mangled| && AlphaEnd(mangled, i) == AlphaEnd(mangled, from + 1)
          decreases |mangled| - i
        {
          i := i + 1;
        }
        if CharAt(i) != '.' || !IsDigit(CharAt(i + 1)) {
          return false;
        }
        ghost var dot := i;
        i := i + 2;
        while IsDigit(CharAt(i))
          invariant i <= |mangled| && DigitsEnd(mangled, i) == DigitsEnd(mangled, dot + 1)
          decreases |mangled| - i
        {
          i := i + 1;
        }
      }
      return true;
    }

    method ParseTopLevelMangledName() returns (ok: bool)
      requires Good(state) && state.cur == 0
      modifies this
      ensures Good(state)
      ensures state.steppedBack <==> old(state).steppedBack || MangledName(mangled, 0).Back?
      ensures !state.steppedBack ==> ok == IsMangled(mangled)
    {
      ok := ParseMangledName();
      if ok && state.cur < |mangled| {
        ok := IsFunctionCloneSuffix();
        if !ok && CharAt(state.cur) == '@' {
          MaybeAppend(mangled[state.cur..]);
          ok := true;
        }
      }
    }
  }

  /** Demangle. Whether a source name moves the cursor back depends on the text alone, not on the output. If none does,
      the code ends with both cursors inside their buffers, and succeeds exactly on the names of the grammar for which
      the output has room. All of these are names of the grammar in the source's comments with the code's additions,
      and of that in the comments alone if the reading is clean. */
  method Demangle(mangled: string, outSize: nat)
    returns (ok: bool, overflowed: bool, steppedBack: bool, cur: int, outCur: nat)
    requires outSize >= 1
    ensures steppedBack <==> MangledName(mangled, 0).Back?
    ensures !steppedBack ==> 0 <= cur <= |mangled| && outCur < outSize
    ensures !steppedBack ==> (ok <==> IsMangled(mangled) && !overflowed)
    ensures !steppedBack && ok ==> Bnf.IsName(mangled, false)
    ensures !steppedBack && ok && Reading.CleanMangledName(mangled, 0) ==> Bnf.IsName(mangled, true)
  {
    var demangler := new Demangler(mangled, outSize);
    ok := demangler.ParseTopLevelMangledName();
    if IsMangled(mangled) { Reading.AcceptedIsDerived(mangled); }
    ok := ok && !demangler.state.overflowed;
    overflowed, steppedBack := demangler.state.overflowed, demangler.state.steppedBack;
    cur, outCur := demangler.state.cur, demangler.state.outCur;
  }

  lemma NoNulInTables()
    ensures forall k :: 0 <= k < |SUBSTITUTIONS| ==> SUBSTITUTIONS[k].0 != '\0'
    ensures forall k :: 0 <= k < |BUILTIN_TYPES| ==> BUILTIN_TYPES[k].0 != '\0'
  {
  }
}
