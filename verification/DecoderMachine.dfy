/**
 * The incremental decoder as a function of one character: the specification that the
 * imperative decoder is proved against, and the object of the language theorems.
 */
module DecoderMachine {
  import opened Wrappers
  import opened JsonText
  import opened JsonSyntax

  datatype Kind = ObjectKind | ArrayKind

  datatype Phase = KeyOrEnd | KeyRequired | ColonNext | ValueNext | CommaOrEnd | ValueOrEnd | ValueRequired

  datatype Frame = Frame(
    kind: Kind, phase: Phase, root: bool,
    keys: set<Text>, currentKey: Option<Text>, draftField: Option<Field>, items: nat)

  datatype Role = KeyRole(parts: Text) | ValueRole(field: Option<Field>, index: Option<nat>)

  // Where a string token stands inside an escape sequence
  datatype Mode =
    | Plain
    | Escaped
    | Digits(high: Option<int>, digits: Text)
    | ExpectSlash(first: int)
    | ExpectU(first: int)

  datatype Token = Token(role: Role, mode: Mode)

  datatype Error =
    | NotAnObject | ExtraContent | KeyInvalid | ColonMissing | ObjectSeparator | ArraySeparator
    | ValueInvalid | PairIncomplete | EscapeDigit | PairInvalid | LoneLow | EscapeInvalid
    | CharInvalid | DraftTooLarge | DuplicateKey | PrimitiveInvalid | Incomplete | AlreadyFinished
    | StateInvalid  // the raises for states that the automaton never enters

  datatype State = State(
    cap: nat, stack: seq<Frame>, started: bool, complete: bool,
    str: Option<Token>, prim: Option<Text>, out: seq<Emit>)

  datatype Outcome = Ok(s: State) | Err(error: Error)

  function Initial(cap: nat): State {
    State(cap, [], false, false, None, None, [])
  }

  function NewFrame(kind: Kind, phase: Phase, root: bool, draftField: Option<Field>): Frame {
    Frame(kind, phase, root, {}, None, draftField, 0)
  }

  function Last(stack: seq<Frame>): Frame
    requires stack != []
  {
    stack[|stack| - 1]
  }

  function DropLast(stack: seq<Frame>): seq<Frame>
    requires stack != []
  {
    stack[..|stack| - 1]
  }

  function SetLast(stack: seq<Frame>, f: Frame): seq<Frame>
    requires stack != []
  {
    stack[..|stack| - 1] + [f]
  }

  function SetTop(s: State, f: Frame): State
    requires s.stack != []
  {
    s.(stack := SetLast(s.stack, f))
  }

  function Top(s: State): Frame
    requires s.stack != []
  {
    Last(s.stack)
  }

  function CompleteValue(s: State): Outcome {
    if s.stack == [] then Err(StateInvalid)
    else
      var f := Top(s);
      match f.kind
      case ObjectKind =>
        if f.phase != ValueNext then Err(StateInvalid)
        else Ok(SetTop(s, f.(phase := CommaOrEnd, currentKey := None)))
      case ArrayKind =>
        if f.phase != ValueOrEnd && f.phase != ValueRequired then Err(StateInvalid)
        else Ok(SetTop(s, f.(phase := CommaOrEnd, items := f.items + 1)))
  }

  function CloseContainer(s: State): Outcome
    requires s.stack != []
  {
    var f := Top(s);
    if f.kind.ObjectKind? && f.phase != KeyOrEnd && f.phase != CommaOrEnd then Err(StateInvalid)
    else if f.kind.ArrayKind? && f.phase != ValueOrEnd && f.phase != CommaOrEnd then Err(StateInvalid)
    else
      var s' := s.(stack := DropLast(s.stack));
      if s'.stack == [] then Ok(s'.(complete := true)) else CompleteValue(s')
  }

  // The draft field and the item index of a string that starts as a value at the top frame
  function Target(f: Frame): (Option<Field>, Option<nat>) {
    match f.kind
    case ObjectKind =>
      if f.root && f.currentKey.Some? then
        match FieldNamed(f.currentKey.value)
        case Some(field) => if IsTextField(field) then (Some(field), None) else (None, None)
        case None => (None, None)
      else (None, None)
    case ArrayKind =>
      (f.draftField, if f.draftField.Some? then Some(f.items) else None)
  }

  // The draft field of an array that starts as a value at the top frame
  function ListTarget(f: Frame): Option<Field> {
    if f.kind.ObjectKind? && f.root && f.currentKey.Some? then
      match FieldNamed(f.currentKey.value)
      case Some(field) => if IsTextField(field) then None else Some(field)
      case None => None
    else None
  }

  predicate StartsPrimitive(c: CodePoint) {
    c == MINUS || IsDigit(c) || c == LOWER_T || c == LOWER_F || c == LOWER_N
  }

  predicate EndsPrimitive(c: CodePoint) {
    c == COMMA || c == RBRACKET || c == RBRACE || IsWs(c)
  }

  predicate InValuePosition(f: Frame) {
    match f.kind
    case ObjectKind => f.phase == ValueNext
    case ArrayKind => f.phase == ValueOrEnd || f.phase == ValueRequired
  }

  function StartValue(s: State, c: CodePoint): Outcome
    requires s.stack != []
  {
    var f := Top(s);
    if !InValuePosition(f) then Err(StateInvalid)
    else if c == QUOTE then
      var (field, index) := Target(f);
      Ok(s.(str := Some(Token(ValueRole(field, index), Plain))))
    else if c == LBRACE then Ok(s.(stack := s.stack + [NewFrame(ObjectKind, KeyOrEnd, false, None)]))
    else if c == LBRACKET then
      Ok(s.(stack := s.stack + [NewFrame(ArrayKind, ValueOrEnd, false, ListTarget(f))]))
    else if StartsPrimitive(c) then Ok(s.(prim := Some([c])))
    else Err(ValueInvalid)
  }

  function ConsumeObject(s: State, c: CodePoint): Outcome
    requires s.stack != []
  {
    var f := Top(s);
    match f.phase
    case KeyOrEnd =>
      if c == RBRACE then CloseContainer(s)
      else if c == QUOTE then Ok(s.(str := Some(Token(KeyRole([]), Plain))))
      else Err(KeyInvalid)
    case KeyRequired =>
      if c == QUOTE then Ok(s.(str := Some(Token(KeyRole([]), Plain)))) else Err(KeyInvalid)
    case ColonNext =>
      if c == COLON then Ok(SetTop(s, f.(phase := ValueNext))) else Err(ColonMissing)
    case ValueNext => StartValue(s, c)
    case CommaOrEnd =>
      if c == COMMA then Ok(SetTop(s, f.(phase := KeyRequired)))
      else if c == RBRACE then CloseContainer(s)
      else Err(ObjectSeparator)
    case _ => Err(StateInvalid)
  }

  function ConsumeArray(s: State, c: CodePoint): Outcome
    requires s.stack != []
  {
    var f := Top(s);
    match f.phase
    case ValueOrEnd => if c == RBRACKET then CloseContainer(s) else StartValue(s, c)
    case ValueRequired => StartValue(s, c)
    case CommaOrEnd =>
      if c == COMMA then Ok(SetTop(s, f.(phase := ValueRequired)))
      else if c == RBRACKET then CloseContainer(s)
      else Err(ArraySeparator)
    case _ => Err(StateInvalid)
  }

  function ConsumeJson(s: State, c: CodePoint): Outcome {
    if IsWs(c) then Ok(s)
    else if s.stack == [] then
      if s.complete then Err(ExtraContent)
      else if s.started || c != LBRACE then Err(NotAnObject)
      else Ok(s.(started := true, stack := [NewFrame(ObjectKind, KeyOrEnd, true, None)]))
    else if Top(s).kind.ObjectKind? then ConsumeObject(s, c)
    else ConsumeArray(s, c)
  }

  // Appends one decoded character to the token, within the cap on draft bytes.
  function EmitChar(s: State, role: Role, c: CodePoint): Outcome {
    match role
    case KeyRole(parts) => Ok(s.(str := Some(Token(KeyRole(parts + [c]), Plain))))
    case ValueRole(field, index) =>
      var s' := s.(str := Some(Token(role, Plain)));
      if field.None? then Ok(s')
      else if Bytes(s.out) + Utf8Size(c) > s.cap then Err(DraftTooLarge)
      else Ok(s'.(out := s.out + [Emit(field.value, index, c)]))
  }

  function CloseString(s: State, role: Role): Outcome {
    var s' := s.(str := None);
    match role
    case ValueRole(_, _) => CompleteValue(s')
    case KeyRole(key) =>
      if s.stack == [] then Err(StateInvalid)
      else if key in Top(s).keys then Err(DuplicateKey)
      else
        var f := Top(s);
        Ok(SetTop(s', f.(keys := f.keys + {key}, currentKey := Some(key), phase := ColonNext)))
  }

  function SetMode(s: State, role: Role, mode: Mode): State {
    s.(str := Some(Token(role, mode)))
  }

  // Four hexadecimal digits are complete.
  function FinishDigits(s: State, role: Role, high: Option<int>, value: nat): Outcome
    requires value <= 0xFFFF && (high.Some? ==> IsHigh(high.value))
  {
    match high
    case Some(h) => if IsLow(value) then EmitChar(s, role, PairValue(h, value)) else Err(PairInvalid)
    case None =>
      if IsHigh(value) then Ok(SetMode(s, role, ExpectSlash(value)))
      else if IsLow(value) then Err(LoneLow)
      else EmitChar(s, role, value)
  }

  // The highs that a token stores are high surrogates, and its digits are fewer than four.
  predicate WfMode(m: Mode) {
    match m
    case Digits(high, digits) =>
      (high.Some? ==> IsHigh(high.value)) && |digits| < 4 && AllHex(digits)
    case ExpectSlash(h) => IsHigh(h)
    case ExpectU(h) => IsHigh(h)
    case _ => true
  }

  function ConsumeString(s: State, role: Role, mode: Mode, c: CodePoint): Outcome {
    if !WfMode(mode) then Err(StateInvalid) else
    match mode
    case ExpectSlash(h) =>
      if c == BACKSLASH then Ok(SetMode(s, role, ExpectU(h))) else Err(PairIncomplete)
    case ExpectU(h) =>
      if c == LOWER_U then Ok(SetMode(s, role, Digits(Some(h), []))) else Err(PairIncomplete)
    case Digits(high, digits) =>
      if !IsHex(c) then Err(EscapeDigit)
      else if |digits| < 3 then Ok(SetMode(s, role, Digits(high, digits + [c])))
      else FinishDigits(s, role, high, HexValue(digits + [c]))
    case Escaped =>
      if c == LOWER_U then Ok(SetMode(s, role, Digits(None, [])))
      else if ShortEscape(c).Some? then EmitChar(s, role, ShortEscape(c).value)
      else Err(EscapeInvalid)
    case Plain =>
      if c == QUOTE then CloseString(s, role)
      else if c == BACKSLASH then Ok(SetMode(s, role, Escaped))
      else if c < 0x20 || !IsScalar(c) then Err(CharInvalid)
      else EmitChar(s, role, c)
  }

  ghost function FinishPrimitive(s: State, token: Text): Outcome {
    if WfPrimitive(token) then CompleteValue(s.(prim := None)) else Err(PrimitiveInvalid)
  }

  // A delimiter ends a pending primitive and is then read again.
  ghost function Step(s: State, c: CodePoint): Outcome {
    if s.str.Some? then ConsumeString(s, s.str.value.role, s.str.value.mode, c)
    else if s.prim.Some? then
      if EndsPrimitive(c) then
        match FinishPrimitive(s, s.prim.value)
        case Ok(s') => ConsumeJson(s', c)
        case Err(e) => Err(e)
      else Ok(s.(prim := Some(s.prim.value + [c])))
    else ConsumeJson(s, c)
  }

  ghost function Then(o: Outcome, c: CodePoint): Outcome {
    if o.Ok? then Step(o.s, c) else o
  }

  ghost function Run(o: Outcome, t: Text): Outcome {
    if t == [] then o else Then(Run(o, t[..|t| - 1]), t[|t| - 1])
  }

  ghost function Settle(s: State): Outcome {
    if s.str.None? && s.prim.Some? then FinishPrimitive(s, s.prim.value) else Ok(s)
  }

  ghost function Finish(s: State): Outcome {
    match if s.prim.Some? then FinishPrimitive(s, s.prim.value) else Ok(s)
    case Err(e) => Err(e)
    case Ok(s') => if s'.str.Some? || s'.stack != [] || !s'.complete then Err(Incomplete) else Ok(s')
  }

  /** The result of feeding a whole text to a fresh decoder and finishing it. */
  ghost function Decode(cap: nat, t: Text): Outcome {
    var o := Run(Ok(Initial(cap)), t);
    if o.Ok? then Finish(o.s) else o
  }

  // ---------------------------------------------------------------- composition

  lemma {:induction false} RunConcat(o: Outcome, a: Text, b: Text)
    ensures Run(o, a + b) == Run(Run(o, a), b)
  {
    if b == [] {
      assert a + b == a;
    } else {
      RunConcat(o, a, b[..|b| - 1]);
      assert (a + b)[..|a + b| - 1] == a + b[..|b| - 1];
    }
  }

  lemma RunOne(o: Outcome, c: CodePoint)
    ensures Run(o, [c]) == Then(o, c)
  {
    assert Run(o, [c][..0]) == o;
  }

  lemma RunCons(o: Outcome, c: CodePoint, t: Text)
    ensures Run(o, [c] + t) == Run(Then(o, c), t)
  {
    RunConcat(o, [c], t);
    RunOne(o, c);
  }

  lemma {:induction false} RunErr(e: Error, t: Text)
    ensures Run(Err(e), t) == Err(e)
  {
    if t != [] {
      RunErr(e, t[..|t| - 1]);
    }
  }
}
