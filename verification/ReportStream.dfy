/** The incremental report decoder, with the mutable fields and the loop of the program. */
module ReportStream {
  import opened Wrappers
  import opened JsonText
  import opened JsonSyntax
  import opened DecoderMachine
  import DecoderLanguage

  datatype Delta = Delta(field: Field, index: Option<nat>, offset: nat, text: Text)

  datatype FeedResult = Deltas(deltas: seq<Delta>) | Failed(error: Error)

  datatype Expect = Slash | LetterU

  datatype StringToken = StringToken(
    isKey: bool, field: Option<Field>, index: Option<nat>, keyParts: Text,
    escaped: bool, unicodeDigits: Option<Text>, pendingHigh: Option<int>, expectLow: Option<Expect>)

  function NewToken(isKey: bool, field: Option<Field>, index: Option<nat>): StringToken {
    StringToken(isKey, field, index, [], false, None, None, None)
  }

  // The combinations of escape fields that occur
  predicate WfToken(t: StringToken) {
    && (t.pendingHigh.Some? ==> IsHigh(t.pendingHigh.value) && (t.expectLow.Some? != t.unicodeDigits.Some?))
    && (t.expectLow.Some? ==> t.pendingHigh.Some? && t.unicodeDigits.None?)
    && (t.unicodeDigits.Some? ==> |t.unicodeDigits.value| < 4 && AllHex(t.unicodeDigits.value))
    && (t.escaped ==> t.pendingHigh.None? && t.unicodeDigits.None?)
  }

  function ModeOf(t: StringToken): Mode
    requires WfToken(t)
  {
    match t.expectLow
    case Some(Slash) => ExpectSlash(t.pendingHigh.value)
    case Some(LetterU) => ExpectU(t.pendingHigh.value)
    case None =>
      if t.unicodeDigits.Some? then Digits(t.pendingHigh, t.unicodeDigits.value)
      else if t.escaped then Escaped
      else Plain
  }

  function RoleOf(t: StringToken): Role {
    if t.isKey then KeyRole(t.keyParts) else ValueRole(t.field, t.index)
  }

  function Get(lengths: map<Slot, nat>, slot: Slot): nat {
    if slot in lengths then lengths[slot] else 0
  }

  // One character joins the last delta when it continues that delta's slot.
  function AddChar(ds: seq<Delta>, e: Emit, offset: nat): seq<Delta> {
    if ds != [] && ds[|ds| - 1].field == e.field && ds[|ds| - 1].index == e.index
       && ds[|ds| - 1].offset + |ds[|ds| - 1].text| == offset
    then ds[..|ds| - 1] + [ds[|ds| - 1].(text := ds[|ds| - 1].text + [e.c])]
    else ds + [Delta(e.field, e.index, offset, [e.c])]
  }

  /** The deltas of `out[from..]`: each character at the length its slot had before it. */
  function DeltasOf(out: seq<Emit>, from: nat): seq<Delta>
    requires from <= |out|
  {
    if |out| == from then []
    else
      var e := out[|out| - 1];
      var before := out[..|out| - 1];
      AddChar(DeltasOf(before, from), e, |DecoderLanguage.SlotText(before, (e.field, e.index))|)
  }

  lemma DeltasSnoc(out: seq<Emit>, from: nat, e: Emit)
    requires from <= |out|
    ensures DeltasOf(out + [e], from)
            == AddChar(DeltasOf(out, from), e, |DecoderLanguage.SlotText(out, (e.field, e.index))|)
    ensures Bytes(out + [e]) == Bytes(out) + Utf8Size(e.c)
  {
    assert (out + [e])[..|out|] == out;
  }

  // The recorded lengths are those of the published texts.
  ghost predicate Tracks(lengths: map<Slot, nat>, out: seq<Emit>) {
    forall slot {:trigger Get(lengths, slot)} :: Get(lengths, slot) == |DecoderLanguage.SlotText(out, slot)|
  }

  lemma TracksSnoc(lengths: map<Slot, nat>, out: seq<Emit>, e: Emit)
    requires Tracks(lengths, out)
    ensures Tracks(lengths[(e.field, e.index) := Get(lengths, (e.field, e.index)) + 1], out + [e])
  {
    assert (out + [e])[..|out|] == out;
    forall slot
      ensures Get(lengths[(e.field, e.index) := Get(lengths, (e.field, e.index)) + 1], slot)
              == |DecoderLanguage.SlotText(out + [e], slot)|
    {
      assert Get(lengths, slot) == |DecoderLanguage.SlotText(out, slot)|;
    }
  }

  // The bookkeeping of the draft agrees with what has been published.
  ghost predicate Account(lengths: map<Slot, nat>, bytes: nat, ds: seq<Delta>, out: seq<Emit>, from: nat) {
    && Tracks(lengths, out)
    && bytes == Bytes(out)
    && from <= |out|
    && ds == DeltasOf(out, from)
  }

  lemma AccountSnoc(lengths: map<Slot, nat>, bytes: nat, ds: seq<Delta>, out: seq<Emit>, from: nat, e: Emit)
    requires Account(lengths, bytes, ds, out, from)
    ensures var offset := Get(lengths, (e.field, e.index));
            Account(lengths[(e.field, e.index) := offset + 1], bytes + Utf8Size(e.c),
                    AddChar(ds, e, offset), out + [e], from)
  {
    DeltasSnoc(out, from, e);
    TracksSnoc(lengths, out, e);
  }

  class IncrementalReportJSONDecoder {
    const maxDraftBytes: nat
    var stack: seq<Frame>
    var rootStarted: bool
    var rootComplete: bool
    var str: Option<StringToken>
    var primitive: Option<Text>
    var draftLengths: map<Slot, nat>
    var draftBytes: nat
    var feedDeltas: seq<Delta>
    var finished: bool
    ghost var emitted: seq<Emit>  // everything published since construction
    ghost var feedStart: nat      // how much of it was published by earlier feeds

    /** The abstract state, over which the language theorems are stated. */
    ghost function Spec(): State
      requires str.Some? ==> WfToken(str.value)
      reads this
    {
      State(maxDraftBytes, stack, rootStarted, rootComplete,
            if str.Some? then Some(Token(RoleOf(str.value), ModeOf(str.value))) else None,
            primitive, emitted)
    }

    ghost predicate Valid()
      reads this
    {
      && (str.Some? ==> WfToken(str.value))
      && (str.Some? || primitive.Some? ==> stack != [])
      && !(str.Some? && primitive.Some?)
      && DraftValid()
    }

    ghost predicate DraftValid()
      reads `draftLengths, `draftBytes, `feedDeltas, `emitted, `feedStart
    {
      Account(draftLengths, draftBytes, feedDeltas, emitted, feedStart)
    }

    // A raise is an error value; after it the decoder is not used again.
    ghost predicate Reached(o: Outcome, error: Option<Error>)
      reads this
    {
      if error.None? then o.Ok? && Valid() && Spec() == o.s else o == Err(error.value)
    }

    constructor (maxDraftBytes: nat)
      requires maxDraftBytes >= 1
      ensures Valid() && Spec() == Initial(maxDraftBytes) && !finished && feedDeltas == []
    {
      this.maxDraftBytes := maxDraftBytes;
      stack := [];
      rootStarted, rootComplete := false, false;
      str, primitive := None, None;
      draftLengths := map[];
      draftBytes := 0;
      feedDeltas := [];
      finished := false;
      emitted, feedStart := [], 0;
    }

    method CompleteValue() returns (error: Option<Error>)
      requires Valid() && stack != [] && str.None? && primitive.None?
      modifies `stack
      ensures Reached(DecoderMachine.CompleteValue(old(Spec())), error)
    {
      var parent := Last(stack);
      if parent.kind == ObjectKind {
        if parent.phase != ValueNext {
          return Some(StateInvalid);
        }
        parent := parent.(phase := CommaOrEnd, currentKey := None);
      } else {
        if parent.phase != ValueOrEnd && parent.phase != ValueRequired {
          return Some(StateInvalid);
        }
        parent := parent.(phase := CommaOrEnd, items := parent.items + 1);
      }
      stack := SetLast(stack, parent);
      return None;
    }

    method CloseContainer() returns (error: Option<Error>)
      requires Valid() && stack != [] && str.None? && primitive.None?
      modifies `stack, `rootComplete
      ensures Reached(DecoderMachine.CloseContainer(old(Spec())), error)
    {
      var frame := Last(stack);
      if frame.kind == ObjectKind && frame.phase != KeyOrEnd && frame.phase != CommaOrEnd {
        return Some(StateInvalid);
      }
      if frame.kind == ArrayKind && frame.phase != ValueOrEnd && frame.phase != CommaOrEnd {
        return Some(StateInvalid);
      }
      stack := DropLast(stack);
      if stack == [] {
        rootComplete := true;
        return None;
      }
      error := CompleteValue();
    }

    method FinishPrimitive() returns (error: Option<Error>)
      requires Valid() && str.None? && primitive.Some?
      modifies `stack, `primitive
      ensures Reached(DecoderMachine.FinishPrimitive(old(Spec()), old(primitive.value)), error)
      ensures error.None? ==> primitive.None?
    {
      var token := primitive.value;
      primitive := None;
      if token != TRUE && token != FALSE && token != NULL {
        var number := ValidJsonNumber(token, IsDigit);
        if !number {
          return Some(PrimitiveInvalid);
        }
      }
      error := CompleteValue();
    }

    method StartMemberValue(c: CodePoint) returns (error: Option<Error>)
      requires Valid() && stack != [] && str.None? && primitive.None? && Last(stack).kind == ObjectKind
      modifies `stack, `str, `primitive
      ensures Reached(DecoderMachine.StartValue(old(Spec()), c), error)
    {
      var parent := Last(stack);
      if parent.phase != ValueNext {
        return Some(StateInvalid);
      }
      var rootField := if parent.root && parent.currentKey.Some? then FieldNamed(parent.currentKey.value) else None;
      if c == QUOTE {
        var field := if rootField.Some? && IsTextField(rootField.value) then rootField else None;
        str := Some(NewToken(false, field, None));
      } else if c == LBRACE {
        stack := stack + [NewFrame(ObjectKind, KeyOrEnd, false, None)];
      } else if c == LBRACKET {
        var draftField := if rootField.Some? && !IsTextField(rootField.value) then rootField else None;
        stack := stack + [NewFrame(ArrayKind, ValueOrEnd, false, draftField)];
      } else if StartsPrimitive(c) {
        primitive := Some([c]);
      } else {
        return Some(ValueInvalid);
      }
      return None;
    }

    method StartItemValue(c: CodePoint) returns (error: Option<Error>)
      requires Valid() && stack != [] && str.None? && primitive.None? && Last(stack).kind == ArrayKind
      modifies `stack, `str, `primitive
      ensures Reached(DecoderMachine.StartValue(old(Spec()), c), error)
    {
      var parent := Last(stack);
      if parent.phase != ValueOrEnd && parent.phase != ValueRequired {
        return Some(StateInvalid);
      }
      if c == QUOTE {
        var index := if parent.draftField.Some? then Some(parent.items) else None;
        str := Some(NewToken(false, parent.draftField, index));
      } else if c == LBRACE {
        stack := stack + [NewFrame(ObjectKind, KeyOrEnd, false, None)];
      } else if c == LBRACKET {
        stack := stack + [NewFrame(ArrayKind, ValueOrEnd, false, None)];
      } else if StartsPrimitive(c) {
        primitive := Some([c]);
      } else {
        return Some(ValueInvalid);
      }
      return None;
    }

    method StartValue(c: CodePoint) returns (error: Option<Error>)
      requires Valid() && stack != [] && str.None? && primitive.None?
      modifies `stack, `str, `primitive
      ensures Reached(DecoderMachine.StartValue(old(Spec()), c), error)
    {
      if Last(stack).kind == ObjectKind {
        error := StartMemberValue(c);
      } else {
        error := StartItemValue(c);
      }
    }

    method ConsumeObjectChar(c: CodePoint) returns (error: Option<Error>)
      requires Valid() && stack != [] && str.None? && primitive.None?
      modifies `stack, `str, `primitive, `rootComplete
      ensures Reached(ConsumeObject(old(Spec()), c), error)
    {
      var frame := Last(stack);
      if frame.phase == KeyOrEnd || frame.phase == KeyRequired {
        if c == RBRACE && frame.phase == KeyOrEnd {
          error := CloseContainer();
        } else if c == QUOTE {
          str := Some(NewToken(true, None, None));
          return None;
        } else {
          return Some(KeyInvalid);
        }
        return;
      }
      if frame.phase == ColonNext {
        if c != COLON {
          return Some(ColonMissing);
        }
        stack := SetLast(stack, frame.(phase := ValueNext));
        return None;
      }
      if frame.phase == ValueNext {
        error := StartValue(c);
        return;
      }
      if frame.phase == CommaOrEnd {
        if c == COMMA {
          stack := SetLast(stack, frame.(phase := KeyRequired));
          return None;
        } else if c == RBRACE {
          error := CloseContainer();
        } else {
          return Some(ObjectSeparator);
        }
        return;
      }
      return Some(StateInvalid);
    }

    method ConsumeArrayChar(c: CodePoint) returns (error: Option<Error>)
      requires Valid() && stack != [] && str.None? && primitive.None?
      modifies `stack, `str, `primitive, `rootComplete
      ensures Reached(ConsumeArray(old(Spec()), c), error)
    {
      var frame := Last(stack);
      if frame.phase == ValueOrEnd || frame.phase == ValueRequired {
        if c == RBRACKET && frame.phase == ValueOrEnd {
          error := CloseContainer();
        } else {
          error := StartValue(c);
        }
        return;
      }
      if frame.phase == CommaOrEnd {
        if c == COMMA {
          stack := SetLast(stack, frame.(phase := ValueRequired));
          return None;
        } else if c == RBRACKET {
          error := CloseContainer();
        } else {
          return Some(ArraySeparator);
        }
        return;
      }
      return Some(StateInvalid);
    }

    method ConsumeJsonChar(c: CodePoint) returns (error: Option<Error>)
      requires Valid() && str.None? && primitive.None?
      modifies `stack, `str, `primitive, `rootStarted, `rootComplete
      ensures Reached(ConsumeJson(old(Spec()), c), error)
    {
      if IsWs(c) {
        return None;
      }
      if stack == [] {
        if rootComplete {
          return Some(ExtraContent);
        }
        if rootStarted || c != LBRACE {
          return Some(NotAnObject);
        }
        rootStarted := true;
        stack := stack + [NewFrame(ObjectKind, KeyOrEnd, true, None)];
        return None;
      }
      if Last(stack).kind == ObjectKind {
        error := ConsumeObjectChar(c);
      } else {
        error := ConsumeArrayChar(c);
      }
    }

    method EmitStringChar(c: CodePoint) returns (error: Option<Error>)
      requires Valid() && str.Some? && ModeOf(str.value) == Plain
      modifies `str, `draftLengths, `draftBytes, `feedDeltas, `emitted
      ensures Reached(EmitChar(old(Spec()), old(RoleOf(str.value)), c), error)
    {
      var token := str.value;
      if token.isKey {
        str := Some(token.(keyParts := token.keyParts + [c]));
        return None;
      }
      if token.field.None? {
        return None;
      }
      var size := Utf8Size(c);
      if draftBytes + size > maxDraftBytes {
        return Some(DraftTooLarge);
      }
      var slot := (token.field.value, token.index);
      var offset := Get(draftLengths, slot);
      Publish(Emit(token.field.value, token.index, c), offset);
      return None;
    }

    method Publish(e: Emit, offset: nat)
      requires DraftValid() && offset == Get(draftLengths, (e.field, e.index))
      modifies `draftLengths, `draftBytes, `feedDeltas, `emitted
      ensures DraftValid() && emitted == old(emitted) + [e]
    {
      AccountSnoc(draftLengths, draftBytes, feedDeltas, emitted, feedStart, e);
      draftLengths := draftLengths[(e.field, e.index) := offset + 1];
      draftBytes := draftBytes + Utf8Size(e.c);
      feedDeltas := AddChar(feedDeltas, e, offset);
      emitted := emitted + [e];
    }

    method CloseString() returns (error: Option<Error>)
      requires Valid() && str.Some? && ModeOf(str.value) == Plain
      modifies `str, `stack
      ensures Reached(DecoderMachine.CloseString(old(Spec()), old(RoleOf(str.value))), error)
    {
      var token := str.value;
      // The source raises here for an unfinished escape; no such state reaches this point.
      assert token.pendingHigh.None? && token.unicodeDigits.None?;
      str := None;
      var parent := Last(stack);
      if token.isKey {
        var key := token.keyParts;
        if key in parent.keys {
          return Some(DuplicateKey);
        }
        stack := SetLast(stack, parent.(keys := parent.keys + {key}, currentKey := Some(key), phase := ColonNext));
        return None;
      }
      error := CompleteValue();
    }

    method ConsumeUnicodeDigit(c: CodePoint) returns (error: Option<Error>)
      requires Valid() && str.Some? && ModeOf(str.value).Digits?
      modifies `str, `draftLengths, `draftBytes, `feedDeltas, `emitted
      ensures Reached(ConsumeString(old(Spec()), old(RoleOf(str.value)), old(ModeOf(str.value)), c), error)
    {
      var token := str.value;
      if !IsHex(c) {
        return Some(EscapeDigit);
      }
      var digits := token.unicodeDigits.value + [c];
      if |digits| < 4 {
        str := Some(token.(unicodeDigits := Some(digits)));
        return None;
      }
      error := FinishUnicode(HexValue(digits));
    }

    // The fourth digit of an escape
    method FinishUnicode(value: nat) returns (error: Option<Error>)
      requires Valid() && str.Some? && ModeOf(str.value).Digits? && value <= 0xFFFF
      modifies `str, `draftLengths, `draftBytes, `feedDeltas, `emitted
      ensures Reached(FinishDigits(old(Spec()), old(RoleOf(str.value)), old(str.value.pendingHigh), value), error)
    {
      var token := str.value;
      if token.pendingHigh.Some? {
        if !(0xDC00 <= value <= 0xDFFF) {
          return Some(PairInvalid);
        }
        var codepoint := PairValue(token.pendingHigh.value, value);
        str := Some(token.(unicodeDigits := None, pendingHigh := None));
        error := EmitStringChar(codepoint);
      } else if 0xD800 <= value <= 0xDBFF {
        str := Some(token.(unicodeDigits := None, pendingHigh := Some(value), expectLow := Some(Slash)));
        return None;
      } else if 0xDC00 <= value <= 0xDFFF {
        return Some(LoneLow);
      } else {
        str := Some(token.(unicodeDigits := None));
        error := EmitStringChar(value);
      }
    }

    // The second escape of a surrogate pair is announced by a backslash and a `u`.
    method ConsumeExpected(c: CodePoint) returns (error: Option<Error>)
      requires Valid() && str.Some? && str.value.expectLow.Some?
      modifies `str
      ensures Reached(ConsumeString(old(Spec()), old(RoleOf(str.value)), old(ModeOf(str.value)), c), error)
    {
      var token := str.value;
      if token.expectLow.value == Slash {
        if c != BACKSLASH {
          return Some(PairIncomplete);
        }
        str := Some(token.(expectLow := Some(LetterU)));
      } else {
        if c != LOWER_U {
          return Some(PairIncomplete);
        }
        str := Some(token.(expectLow := None, unicodeDigits := Some([])));
      }
      return None;
    }

    method ConsumeEscaped(c: CodePoint) returns (error: Option<Error>)
      requires Valid() && str.Some? && ModeOf(str.value) == Escaped
      modifies `str, `draftLengths, `draftBytes, `feedDeltas, `emitted
      ensures Reached(ConsumeString(old(Spec()), old(RoleOf(str.value)), Escaped, c), error)
    {
      var token := str.value.(escaped := false);
      str := Some(token);
      if c == LOWER_U {
        str := Some(token.(unicodeDigits := Some([])));
        return None;
      }
      var escape := ShortEscape(c);
      if escape.None? {
        return Some(EscapeInvalid);
      }
      error := EmitStringChar(escape.value);
    }

    method ConsumePlain(c: CodePoint) returns (error: Option<Error>)
      requires Valid() && str.Some? && ModeOf(str.value) == Plain
      modifies `str, `stack, `draftLengths, `draftBytes, `feedDeltas, `emitted
      ensures Reached(ConsumeString(old(Spec()), old(RoleOf(str.value)), Plain, c), error)
    {
      if c == QUOTE {
        error := CloseString();
      } else if c == BACKSLASH {
        str := Some(str.value.(escaped := true));
        return None;
      } else if c < 0x20 || 0xD800 <= c <= 0xDFFF {
        return Some(CharInvalid);
      } else {
        error := EmitStringChar(c);
      }
    }

    method ConsumeStringChar(c: CodePoint) returns (error: Option<Error>)
      requires Valid() && str.Some?
      modifies `str, `stack, `draftLengths, `draftBytes, `feedDeltas, `emitted
      ensures Reached(Step(old(Spec()), c), error)
    {
      if str.value.expectLow.Some? {
        error := ConsumeExpected(c);
      } else if str.value.unicodeDigits.Some? {
        error := ConsumeUnicodeDigit(c);
      } else if str.value.escaped {
        error := ConsumeEscaped(c);
      } else {
        error := ConsumePlain(c);
      }
    }

    // One turn of the loop: `again` when `c` ended a primitive and is to be read once more.
    method Consume(c: CodePoint) returns (error: Option<Error>, again: bool)
      requires Valid()
      modifies `stack, `str, `primitive, `rootStarted, `rootComplete,
               `draftLengths, `draftBytes, `feedDeltas, `emitted
      ensures !again ==> Reached(Step(old(Spec()), c), error)
      ensures again ==> error.None? && Valid() && Step(Spec(), c) == Step(old(Spec()), c)
      ensures again ==> old(primitive).Some? && primitive.None?
      ensures error.None? ==> old(emitted) <= emitted
    {
      DecoderLanguage.StepExtends(Spec(), c);
      again := false;
      if str.Some? {
        error := ConsumeStringChar(c);
      } else if primitive.Some? {
        if EndsPrimitive(c) {
          ghost var before := Spec();
          error := FinishPrimitive();
          if error.None? {
            Reread(before, Spec(), c);
            again := true;
          }
        } else {
          primitive := Some(primitive.value + [c]);
          error := None;
        }
      } else {
        error := ConsumeJsonChar(c);
      }
    }

    method ConsumeAll(text: Text) returns (error: Option<Error>)
      requires Valid()
      modifies `stack, `str, `primitive, `rootStarted, `rootComplete,
               `draftLengths, `draftBytes, `feedDeltas, `emitted
      ensures Reached(Run(Ok(old(Spec())), text), error)
      ensures error.None? ==> old(emitted) <= emitted
    {
      hide Step;
      var index := 0;
      ghost var s0 := Spec();
      ghost var mid := s0;  // the state after `text[..index]`
      while index < |text|
        invariant index <= |text| && Valid() && old(emitted) <= emitted
        invariant Run(Ok(s0), text[..index]) == Ok(mid)
        invariant mid == Spec() || (index < |text| && Step(mid, text[index]) == Step(Spec(), text[index]))
        decreases |text| - index, if primitive.Some? then 1 else 0
      {
        RunNext(s0, text, index);
        var again: bool;
        error, again := Consume(text[index]);
        if error.Some? {
          RunFails(s0, text, index + 1, error.value);
          return;
        }
        if !again {
          mid := Spec();
          index := index + 1;
        }
      }
      assert text[..|text|] == text;
      error := None;
    }

    method Feed(text: Text) returns (r: FeedResult)
      requires Valid()
      modifies this
      ensures finished == old(finished)
      ensures old(finished) ==> r == Failed(AlreadyFinished)
      ensures !old(finished) ==>
                match Run(Ok(old(Spec())), text)
                case Err(e) => r == Failed(e)
                case Ok(s) => Valid() && Spec() == s && old(emitted) <= emitted
                              && r == Deltas(DeltasOf(emitted, |old(emitted)|))
    {
      if finished {
        return Failed(AlreadyFinished);
      }
      feedDeltas := [];
      feedStart := |emitted|;
      var error := ConsumeAll(text);
      if error.Some? {
        return Failed(error.value);
      }
      r := Deltas(feedDeltas);
      feedDeltas := [];
      feedStart := |emitted|;
    }

    method Finish() returns (error: Option<Error>)
      requires Valid()
      modifies this
      ensures old(finished) ==> error == Some(AlreadyFinished)
      ensures !old(finished) ==> finished && Reached(DecoderMachine.Finish(old(Spec())), error)
    {
      if finished {
        return Some(AlreadyFinished);
      }
      finished := true;
      if primitive.Some? {
        error := FinishPrimitive();
        if error.Some? {
          return;
        }
      }
      if str.Some? || stack != [] || !rootComplete {
        return Some(Incomplete);
      }
      return None;
    }
  }

  lemma RunNext(s: State, t: Text, i: nat)
    requires i < |t|
    ensures Run(Ok(s), t[..i + 1]) == Then(Run(Ok(s), t[..i]), t[i])
  {
    assert t[..i + 1][..i] == t[..i];
  }

  // A delimiter that ended a primitive is read again.
  lemma Reread(s: State, s1: State, c: CodePoint)
    requires s.str.None? && s.prim.Some? && EndsPrimitive(c)
    requires DecoderMachine.FinishPrimitive(s, s.prim.value) == Ok(s1)
    ensures Step(s, c) == Step(s1, c) && s1.out == s.out
  {
  }

  lemma RunFails(s: State, t: Text, i: nat, e: Error)
    requires i <= |t| && Run(Ok(s), t[..i]) == Err(e)
    ensures Run(Ok(s), t) == Err(e)
  {
    assert t == t[..i] + t[i..];
    RunConcat(Ok(s), t[..i], t[i..]);
    RunErr(e, t[i..]);
  }
}
