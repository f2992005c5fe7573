/** Descriptors of the gstd primitives the builders call (`msg::send*`, `msg::reply*`,
    `ProgramGenerator::create_program*`). The primitives themselves are external: a builder's
    `execute` is modelled as the `Call` it makes, and the primitive's `Result` is what `execute`
    returns, unchanged. */
module Gstd {
  import opened Common

  datatype Operation = SendOp | ReplyOp | CreateProgramOp

  /** How the call pays for gas: the default, an explicit limit (`_with_gas`), or a
      reservation (`_from_reservation`). */
  datatype GasMode = DefaultGas | WithGas | FromReservation

  /** A primitive is identified by what it does, the payload it takes, its gas mode and
      whether it is `_delayed`. */
  datatype Primitive = Primitive(op: Operation, kind: PayloadKind, gas: GasMode, delayed: bool)

  const SendBytes := Primitive(SendOp, BytesKind, DefaultGas, false)
  const SendBytesWithGas := Primitive(SendOp, BytesKind, WithGas, false)
  const SendBytesDelayed := Primitive(SendOp, BytesKind, DefaultGas, true)
  const SendBytesWithGasDelayed := Primitive(SendOp, BytesKind, WithGas, true)
  const SendBytesFromReservation := Primitive(SendOp, BytesKind, FromReservation, false)
  const SendBytesDelayedFromReservation := Primitive(SendOp, BytesKind, FromReservation, true)
  const Send := Primitive(SendOp, EncodableKind, DefaultGas, false)
  const SendWithGas := Primitive(SendOp, EncodableKind, WithGas, false)
  const SendDelayed := Primitive(SendOp, EncodableKind, DefaultGas, true)
  const SendWithGasDelayed := Primitive(SendOp, EncodableKind, WithGas, true)
  const SendFromReservation := Primitive(SendOp, EncodableKind, FromReservation, false)
  const SendDelayedFromReservation := Primitive(SendOp, EncodableKind, FromReservation, true)
  const SendInput := Primitive(SendOp, InputKind, DefaultGas, false)
  const SendInputWithGas := Primitive(SendOp, InputKind, WithGas, false)
  const SendInputDelayed := Primitive(SendOp, InputKind, DefaultGas, true)
  const SendInputWithGasDelayed := Primitive(SendOp, InputKind, WithGas, true)

  const ReplyBytes := Primitive(ReplyOp, BytesKind, DefaultGas, false)
  const ReplyBytesWithGas := Primitive(ReplyOp, BytesKind, WithGas, false)
  const ReplyBytesFromReservation := Primitive(ReplyOp, BytesKind, FromReservation, false)
  const Reply := Primitive(ReplyOp, EncodableKind, DefaultGas, false)
  const ReplyWithGas := Primitive(ReplyOp, EncodableKind, WithGas, false)
  const ReplyFromReservation := Primitive(ReplyOp, EncodableKind, FromReservation, false)
  const ReplyInput := Primitive(ReplyOp, InputKind, DefaultGas, false)
  const ReplyInputWithGas := Primitive(ReplyOp, InputKind, WithGas, false)

  const CreateProgram := Primitive(CreateProgramOp, BytesKind, DefaultGas, false)
  const CreateProgramWithGas := Primitive(CreateProgramOp, BytesKind, WithGas, false)
  const CreateProgramDelayed := Primitive(CreateProgramOp, BytesKind, DefaultGas, true)
  const CreateProgramWithGasDelayed := Primitive(CreateProgramOp, BytesKind, WithGas, true)

  /** The primitives the builders call: replies are never delayed, input payloads never
      draw gas from a reservation, and program creation takes a byte payload and has no
      reservation form. */
  predicate Available(p: Primitive)
  {
    match p.op
    case SendOp => !(p.kind == InputKind && p.gas == FromReservation)
    case ReplyOp => !p.delayed && !(p.kind == InputKind && p.gas == FromReservation)
    case CreateProgramOp => p.kind == BytesKind && p.gas != FromReservation
  }

  /** gstd's naming rule, as the words of the function name (joined by `_`): the family, the
      payload kind (none for program creation), then `with_gas`, `delayed` and
      `from_reservation` as they apply. */
  function Name(p: Primitive): seq<string>
  {
    var family :=
      match p.op
      case SendOp => ["send"]
      case ReplyOp => ["reply"]
      case CreateProgramOp => ["create", "program"];
    var payload :=
      if p.op == CreateProgramOp then []
      else match p.kind
        case BytesKind => ["bytes"]
        case EncodableKind => []
        case InputKind => ["input"];
    family + payload
    + (if p.gas == WithGas then ["with", "gas"] else [])
    + (if p.delayed then ["delayed"] else [])
    + (if p.gas == FromReservation then ["from", "reservation"] else [])
  }

  // The primitives the builders call, under their gstd names; all are available.
  lemma SendBytesNames()
    ensures Available(SendBytes) && Name(SendBytes) == ["send", "bytes"]
    ensures Available(SendBytesWithGas) && Name(SendBytesWithGas) == ["send", "bytes", "with", "gas"]
    ensures Available(SendBytesDelayed) && Name(SendBytesDelayed) == ["send", "bytes", "delayed"]
    ensures Available(SendBytesWithGasDelayed) && Name(SendBytesWithGasDelayed) == ["send", "bytes", "with", "gas", "delayed"]
    ensures Available(SendBytesFromReservation) && Name(SendBytesFromReservation) == ["send", "bytes", "from", "reservation"]
    ensures Available(SendBytesDelayedFromReservation) && Name(SendBytesDelayedFromReservation) == ["send", "bytes", "delayed", "from", "reservation"]
  {
  }

  lemma SendNames()
    ensures Available(Send) && Name(Send) == ["send"]
    ensures Available(SendWithGas) && Name(SendWithGas) == ["send", "with", "gas"]
    ensures Available(SendDelayed) && Name(SendDelayed) == ["send", "delayed"]
    ensures Available(SendWithGasDelayed) && Name(SendWithGasDelayed) == ["send", "with", "gas", "delayed"]
    ensures Available(SendFromReservation) && Name(SendFromReservation) == ["send", "from", "reservation"]
    ensures Available(SendDelayedFromReservation) && Name(SendDelayedFromReservation) == ["send", "delayed", "from", "reservation"]
  {
  }

  lemma SendInputNames()
    ensures Available(SendInput) && Name(SendInput) == ["send", "input"]
    ensures Available(SendInputWithGas) && Name(SendInputWithGas) == ["send", "input", "with", "gas"]
    ensures Available(SendInputDelayed) && Name(SendInputDelayed) == ["send", "input", "delayed"]
    ensures Available(SendInputWithGasDelayed) && Name(SendInputWithGasDelayed) == ["send", "input", "with", "gas", "delayed"]
  {
  }

  lemma ReplyBytesNames()
    ensures Available(ReplyBytes) && Name(ReplyBytes) == ["reply", "bytes"]
    ensures Available(ReplyBytesWithGas) && Name(ReplyBytesWithGas) == ["reply", "bytes", "with", "gas"]
    ensures Available(ReplyBytesFromReservation) && Name(ReplyBytesFromReservation) == ["reply", "bytes", "from", "reservation"]
  {
  }

  lemma ReplyNames()
    ensures Available(Reply) && Name(Reply) == ["reply"]
    ensures Available(ReplyWithGas) && Name(ReplyWithGas) == ["reply", "with", "gas"]
    ensures Available(ReplyFromReservation) && Name(ReplyFromReservation) == ["reply", "from", "reservation"]
  {
  }

  lemma ReplyInputNames()
    ensures Available(ReplyInput) && Name(ReplyInput) == ["reply", "input"]
    ensures Available(ReplyInputWithGas) && Name(ReplyInputWithGas) == ["reply", "input", "with", "gas"]
  {
  }

  lemma CreateProgramNames()
    ensures Available(CreateProgram) && Name(CreateProgram) == ["create", "program"]
    ensures Available(CreateProgramWithGas) && Name(CreateProgramWithGas) == ["create", "program", "with", "gas"]
    ensures Available(CreateProgramDelayed) && Name(CreateProgramDelayed) == ["create", "program", "delayed"]
    ensures Available(CreateProgramWithGasDelayed) && Name(CreateProgramWithGasDelayed) == ["create", "program", "with", "gas", "delayed"]
  {
  }

  // Each component of an available primitive shows in its name: the first word gives the
  // family, and the words `bytes`, `input`, `gas`, `reservation`, `delayed` appear exactly
  // when the payload kind, gas mode or delay they stand for apply.

  lemma NameShowsFamily(p: Primitive)
    ensures |Name(p)| > 0
    ensures Name(p)[0] == (match p.op case SendOp => "send" case ReplyOp => "reply" case CreateProgramOp => "create")
  {
  }

  lemma NameShowsKind(p: Primitive)
    requires Available(p)
    ensures "bytes" in Name(p) <==> p.op != CreateProgramOp && p.kind == BytesKind
    ensures "input" in Name(p) <==> p.kind == InputKind
  {
  }

  lemma NameShowsGasMode(p: Primitive)
    ensures "gas" in Name(p) <==> p.gas == WithGas
    ensures "reservation" in Name(p) <==> p.gas == FromReservation
  {
  }

  lemma NameShowsDelay(p: Primitive)
    ensures "delayed" in Name(p) <==> p.delayed
  {
  }

  /** Among the available primitives, the name identifies the primitive. */
  lemma NameIdentifiesPrimitive(p: Primitive, q: Primitive)
    requires Available(p) && Available(q) && Name(p) == Name(q)
    ensures p == q
  {
    NameShowsFamily(p);
    NameShowsFamily(q);
    NameShowsKind(p);
    NameShowsKind(q);
    NameShowsGasMode(p);
    NameShowsGasMode(q);
    NameShowsDelay(p);
    NameShowsDelay(q);
  }

  /** An argument as it is passed to a primitive. */
  datatype Arg<E> =
    | ReservationIdArg(reservationId: ReservationId)
    | ActorIdArg(program: ActorId)
    | CodeIdArg(codeId: CodeId)
    | PayloadArg(payload: Payload<E>)
    | GasLimitArg(gasLimit: u64)
    | ValueArg(value: u128)
    | DelayArg(delay: u32)

  /** One call of a primitive with its positional arguments. */
  datatype Call<E> = Call(primitive: Primitive, args: seq<Arg<E>>)

  /** The gas mode that an explicit limit or a reservation selects. */
  function GasModeOf(gasLimitSet: bool, reservationSet: bool): GasMode
    requires !(gasLimitSet && reservationSet)
  {
    if gasLimitSet then WithGas else if reservationSet then FromReservation else DefaultGas
  }

  /** A builder's slots as a primitive receives them: the target if the operation has one,
      the payload, the value (already defaulted), and the optional slots. */
  datatype Slots<E> = Slots(
    target: Option<Arg<E>>,
    payload: Payload<E>,
    value: u128,
    gasLimit: Option<u64>,
    delay: Option<u32>,
    reservationId: Option<ReservationId>)

  /** The call that gstd's conventions prescribe for `op` on the slots `s`: the delay selects a
      `_delayed` primitive, the gas limit a `_with_gas` one and the reservation a
      `_from_reservation` one, and the arguments go in gstd's order (reservation id, target,
      payload, gas limit, value, delay; an input range after the value). */
  function Convention<E>(op: Operation, s: Slots<E>): Call<E>
    requires !(s.gasLimit.Some? && s.reservationId.Some?)
  {
    var reservation := if s.reservationId.Some? then [ReservationIdArg(s.reservationId.value)] else [];
    var target := if s.target.Some? then [s.target.value] else [];
    var gas := if s.gasLimit.Some? then [GasLimitArg(s.gasLimit.value)] else [];
    var delay := if s.delay.Some? then [DelayArg(s.delay.value)] else [];
    var payload := PayloadArg(s.payload);
    var args :=
      if s.payload.PayloadInput? then reservation + target + gas + [ValueArg(s.value), payload] + delay
      else reservation + target + [payload] + gas + [ValueArg(s.value)] + delay;
    Call(Primitive(op, KindOf(s.payload), GasModeOf(s.gasLimit.Some?, s.reservationId.Some?), s.delay.Some?), args)
  }
}
