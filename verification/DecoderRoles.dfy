/** The fields that the decoder publishes to: text fields without an index, list fields with one. */
module DecoderRoles {
  import opened Wrappers
  import opened JsonText
  import opened JsonSyntax
  import opened DecoderMachine

  // Only list items carry an index.
  ghost predicate TypedOut(out: seq<Emit>) {
    forall i :: 0 <= i < |out| ==> (IsTextField(out[i].field) <==> out[i].index.None?)
  }

  // Only the arrays of list fields publish.
  ghost predicate ListFrames(stack: seq<Frame>) {
    forall i :: 0 <= i < |stack| && stack[i].draftField.Some? ==> !IsTextField(stack[i].draftField.value)
  }

  predicate TypedRole(role: Role) {
    role.ValueRole? && role.field.Some? ==> (IsTextField(role.field.value) <==> role.index.None?)
  }

  ghost predicate Typed(s: State) {
    ListFrames(s.stack) && (s.str.Some? ==> TypedRole(s.str.value.role)) && TypedOut(s.out)
  }

  ghost predicate TypedOutcome(o: Outcome) {
    o.Ok? ==> Typed(o.s)
  }

  lemma TopTyped(s: State, f: Frame)
    requires Typed(s) && s.stack != [] && f.draftField == Top(s).draftField
    ensures Typed(SetTop(s, f))
  {
  }

  lemma PushTyped(s: State, kind: Kind, phase: Phase, root: bool, f: Option<Field>)
    requires Typed(s) && (f.Some? ==> !IsTextField(f.value))
    ensures Typed(s.(stack := s.stack + [NewFrame(kind, phase, root, f)]))
  {
  }

  lemma CompleteTyped(s: State)
    requires Typed(s)
    ensures TypedOutcome(CompleteValue(s))
  {
    hide Typed, SetTop;
    if s.stack != [] {
      var f := Top(s);
      TopTyped(s, f.(phase := CommaOrEnd, currentKey := None));
      TopTyped(s, f.(phase := CommaOrEnd, items := f.items + 1));
    }
  }

  lemma CloseTyped(s: State)
    requires Typed(s) && s.stack != []
    ensures TypedOutcome(CloseContainer(s))
  {
    hide CompleteValue;
    CompleteTyped(s.(stack := DropLast(s.stack)));
  }

  lemma StartTyped(s: State, c: CodePoint)
    requires Typed(s) && s.stack != []
    ensures TypedOutcome(StartValue(s, c))
  {
    PushTyped(s, ObjectKind, KeyOrEnd, false, None);
    PushTyped(s, ArrayKind, ValueOrEnd, false, ListTarget(Top(s)));
  }

  lemma ObjectTyped(s: State, c: CodePoint)
    requires Typed(s) && s.stack != []
    ensures TypedOutcome(ConsumeObject(s, c))
  {
    hide StartValue, CloseContainer, SetTop, Typed;
    CloseTyped(s);
    StartTyped(s, c);
    TopTyped(s, Top(s).(phase := ValueNext));
    TopTyped(s, Top(s).(phase := KeyRequired));
    KeyTyped(s, []);
  }

  lemma KeyTyped(s: State, key: Text)
    requires Typed(s)
    ensures Typed(s.(str := Some(Token(KeyRole(key), Plain)))) && Typed(s.(str := None))
  {
  }

  lemma ArrayTyped(s: State, c: CodePoint)
    requires Typed(s) && s.stack != []
    ensures TypedOutcome(ConsumeArray(s, c))
  {
    hide StartValue, CloseContainer, SetTop, Typed;
    CloseTyped(s);
    StartTyped(s, c);
    TopTyped(s, Top(s).(phase := ValueRequired));
  }

  lemma JsonTyped(s: State, c: CodePoint)
    requires Typed(s)
    ensures TypedOutcome(ConsumeJson(s, c))
  {
    hide ConsumeObject, ConsumeArray;
    if s.stack != [] {
      ObjectTyped(s, c);
      ArrayTyped(s, c);
    }
  }

  lemma EmitTyped(s: State, role: Role, c: CodePoint)
    requires Typed(s) && TypedRole(role)
    ensures TypedOutcome(EmitChar(s, role, c))
  {
  }

  lemma ModeTyped(s: State, role: Role, mode: Mode)
    requires Typed(s) && TypedRole(role)
    ensures Typed(SetMode(s, role, mode))
  {
  }

  lemma EndTyped(s: State, role: Role)
    requires Typed(s) && TypedRole(role)
    ensures TypedOutcome(CloseString(s, role))
  {
    hide Typed, CompleteValue, SetTop;
    KeyTyped(s, []);
    CompleteTyped(s.(str := None));
    if role.KeyRole? && s.stack != [] {
      var f := Top(s);
      TopTyped(s.(str := None), f.(keys := f.keys + {role.parts}, currentKey := Some(role.parts), phase := ColonNext));
    }
  }

  lemma DigitsTyped(s: State, role: Role, high: Option<int>, value: nat)
    requires value <= 0xFFFF && (high.Some? ==> IsHigh(high.value)) && Typed(s) && TypedRole(role)
    ensures TypedOutcome(FinishDigits(s, role, high, value))
  {
    hide Typed, EmitChar, SetMode;
    if high.Some? && IsLow(value) {
      EmitTyped(s, role, PairValue(high.value, value));
    } else if high.None? {
      ModeTyped(s, role, ExpectSlash(value));
      EmitTyped(s, role, value);
    }
  }

  lemma StringTyped(s: State, role: Role, mode: Mode, c: CodePoint)
    requires Typed(s) && TypedRole(role)
    ensures TypedOutcome(ConsumeString(s, role, mode, c))
  {
    hide Typed, EmitChar, SetMode, FinishDigits, CloseString, TypedRole;
    match mode
    case ExpectSlash(h) => ModeTyped(s, role, ExpectU(h));
    case ExpectU(h) => ModeTyped(s, role, Digits(Some(h), []));
    case Digits(high, digits) =>
      ModeTyped(s, role, Digits(high, digits + [c]));
      if WfMode(mode) && IsHex(c) && |digits| == 3 {
        DigitsTyped(s, role, high, HexValue(digits + [c]));
      }
    case Escaped =>
      ModeTyped(s, role, Digits(None, []));
      if ShortEscape(c).Some? {
        EmitTyped(s, role, ShortEscape(c).value);
      }
    case Plain =>
      EndTyped(s, role);
      ModeTyped(s, role, Escaped);
      EmitTyped(s, role, c);
  }

  lemma PrimitiveTyped(s: State, t: Text)
    requires Typed(s)
    ensures TypedOutcome(FinishPrimitive(s, t)) && Typed(s.(prim := Some(t)))
  {
    CompleteTyped(s.(prim := None));
  }

  lemma RoleTyped(s: State)
    requires Typed(s) && s.str.Some?
    ensures TypedRole(s.str.value.role)
  {
  }

  lemma StepTyped(s: State, c: CodePoint)
    requires Typed(s)
    ensures TypedOutcome(Step(s, c))
  {
    hide ConsumeString, ConsumeJson, Typed, FinishPrimitive, TypedRole;
    if s.str.Some? {
      RoleTyped(s);
      StringTyped(s, s.str.value.role, s.str.value.mode, c);
    } else if s.prim.Some? && EndsPrimitive(c) {
      PrimitiveTyped(s, s.prim.value);
      var o := FinishPrimitive(s, s.prim.value);
      if o.Ok? {
        JsonTyped(o.s, c);
      }
    } else if s.prim.Some? {
      PrimitiveTyped(s, s.prim.value + [c]);
    } else {
      JsonTyped(s, c);
    }
  }

  /** Whatever the input, a text field is published without an index and a list field with one. */
  lemma {:induction false} RunTyped(s: State, t: Text)
    requires Typed(s)
    ensures TypedOutcome(Run(Ok(s), t))
  {
    hide Step, Typed;
    if t != [] {
      RunTyped(s, t[..|t| - 1]);
      var o := Run(Ok(s), t[..|t| - 1]);
      if o.Ok? {
        StepTyped(o.s, t[|t| - 1]);
      }
    }
  }
}
