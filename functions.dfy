/** The free entry functions of the crate root (src/functions.rs): each starts a builder with
    only its required slots filled. Gstd is imported qualified, since its primitive names
    coincide with these. */
module Functions {
  import opened Common
  import Gstd
  import opened GeneratedSend
  import opened GeneratedReply
  import opened GeneratedCreateProgram

  /** `reply_bytes(payload)`: executed at once, it replies with the bytes and value 0. */
  function ReplyBytes<E>(payload: seq<u8>): (b: ReplyBuilder<E>)
    ensures b.payload == PayloadBytes(payload) && b.Unconfigured()
    ensures b.Execute() == Gstd.Call(Gstd.ReplyBytes, [Gstd.PayloadArg(PayloadBytes(payload)), Gstd.ValueArg(0)])
  {
    ReplyBuilder<E>.Bytes(payload)
  }

  /** `reply(payload)`: executed at once, it replies with the encodable value and value 0. */
  function Reply<E>(payload: E): (b: ReplyBuilder<E>)
    ensures b.payload == PayloadEncodable(payload) && b.Unconfigured()
    ensures b.Execute() == Gstd.Call(Gstd.Reply, [Gstd.PayloadArg(PayloadEncodable(payload)), Gstd.ValueArg(0)])
  {
    ReplyBuilder<E>.Encode(payload)
  }

  /** `reply_input(range)`: executed at once, it forwards the range with value 0. */
  function ReplyInput<E>(payload: InputRange): (b: ReplyBuilder<E>)
    ensures b.payload == PayloadInput(payload) && b.Unconfigured()
    ensures b.Execute() == Gstd.Call(Gstd.ReplyInput, [Gstd.ValueArg(0), Gstd.PayloadArg(PayloadInput(payload))])
  {
    ReplyBuilder<E>.Input(payload)
  }

  /** `send_bytes(program, payload)`: executed at once, it sends the bytes to `program` with value 0. */
  function SendBytes<E>(program: ActorId, payload: seq<u8>): (b: SendBuilder<E>)
    ensures b.program == program && b.payload == PayloadBytes(payload) && b.Unconfigured()
    ensures b.Execute() == Gstd.Call(Gstd.SendBytes,
      [Gstd.ActorIdArg(program), Gstd.PayloadArg(PayloadBytes(payload)), Gstd.ValueArg(0)])
  {
    SendBuilder<E>.Bytes(program, payload)
  }

  /** `send(program, payload)`: executed at once, it sends the encodable value to `program`
      with value 0. */
  function Send<E>(program: ActorId, payload: E): (b: SendBuilder<E>)
    ensures b.program == program && b.payload == PayloadEncodable(payload) && b.Unconfigured()
    ensures b.Execute() == Gstd.Call(Gstd.Send,
      [Gstd.ActorIdArg(program), Gstd.PayloadArg(PayloadEncodable(payload)), Gstd.ValueArg(0)])
  {
    SendBuilder<E>.Encode(program, payload)
  }

  /** `send_input(program, range)`: executed at once, it forwards the range to `program` with value 0. */
  function SendInput<E>(program: ActorId, payload: InputRange): (b: SendBuilder<E>)
    ensures b.program == program && b.payload == PayloadInput(payload) && b.Unconfigured()
    ensures b.Execute() == Gstd.Call(Gstd.SendInput,
      [Gstd.ActorIdArg(program), Gstd.ValueArg(0), Gstd.PayloadArg(PayloadInput(payload))])
  {
    SendBuilder<E>.Input(program, payload)
  }

  /** `create_program_bytes(code_id, payload)`: executed at once, it creates a program from
      `code_id` with the bytes as init payload and value 0. */
  function CreateProgramBytes<E>(codeId: CodeId, payload: seq<u8>): (b: CreateProgramBuilder<E>)
    ensures b.codeId == codeId && b.payload == PayloadBytes(payload) && b.Unconfigured()
    ensures b.Execute() == Gstd.Call(Gstd.CreateProgram,
      [Gstd.CodeIdArg(codeId), Gstd.PayloadArg(PayloadBytes(payload)), Gstd.ValueArg(0)])
  {
    CreateProgramBuilder<E>.Bytes(codeId, payload)
  }

  /** The crate's first usage example: `send(source, payload).with_delay(30)` is
      `send_delayed(source, payload, 0, 30)`, the value defaulting to 0. */
  lemma DelayedSendExample<E>(source: ActorId, payload: E)
    ensures Send(source, payload).WithDelay(30).Execute()
      == Gstd.Call(Gstd.SendDelayed,
        [Gstd.ActorIdArg(source), Gstd.PayloadArg(PayloadEncodable(payload)), Gstd.ValueArg(0), Gstd.DelayArg(30)])
  {
  }

  /** The crate's second usage example: adding a gas limit and a value to the delayed send
      switches to `send_with_gas_delayed(source, payload, 1_000_000, 1_000, 30)`. */
  lemma GasDelayedSendExample<E>(source: ActorId, payload: E)
    ensures Send(source, payload).WithDelay(30).WithGasLimit(1_000_000).WithValue(1_000).Execute()
      == Gstd.Call(Gstd.SendWithGasDelayed,
        [Gstd.ActorIdArg(source), Gstd.PayloadArg(PayloadEncodable(payload)),
         Gstd.GasLimitArg(1_000_000), Gstd.ValueArg(1_000), Gstd.DelayArg(30)])
  {
  }

  /** Value, delay and gas limit set in the order value, delay, gas limit, or in the order
      gas limit, delay, value, give the same builder, which calls
      `send_bytes_with_gas_delayed(program, payload, gas_limit, value, delay)`. */
  lemma SendBytesAllSlots<E>(program: ActorId, payload: seq<u8>, v: u128, d: u32, g: u64)
    ensures SendBytes<E>(program, payload).WithValue(v).WithDelay(d).WithGasLimit(g)
      == SendBytes<E>(program, payload).WithGasLimit(g).WithDelay(d).WithValue(v)
    ensures SendBytes<E>(program, payload).WithValue(v).WithDelay(d).WithGasLimit(g).Execute()
      == Gstd.Call(Gstd.SendBytesWithGasDelayed,
        [Gstd.ActorIdArg(program), Gstd.PayloadArg(PayloadBytes(payload)),
         Gstd.GasLimitArg(g), Gstd.ValueArg(v), Gstd.DelayArg(d)])
  {
  }

  /** A reply drawing gas from a reservation, with no value set, passes the reservation
      first and value 0. */
  lemma ReplyFromReservationExample<E>(payload: E, id: ReservationId)
    ensures Reply(payload).WithGasFromReservation(id).Execute()
      == Gstd.Call(Gstd.ReplyFromReservation,
        [Gstd.ReservationIdArg(id), Gstd.PayloadArg(PayloadEncodable(payload)), Gstd.ValueArg(0)])
  {
  }

  /** A program creation with any value, delay and gas limit calls
      `create_program_with_gas_delayed(code_id, payload, gas_limit, value, delay)`. */
  lemma CreateProgramAllSlots<E>(codeId: CodeId, payload: seq<u8>, v: u128, d: u32, g: u64)
    ensures CreateProgramBytes<E>(codeId, payload).WithValue(v).WithDelay(d).WithGasLimit(g).Execute()
      == Gstd.Call(Gstd.CreateProgramWithGasDelayed,
        [Gstd.CodeIdArg(codeId), Gstd.PayloadArg(PayloadBytes(payload)),
         Gstd.GasLimitArg(g), Gstd.ValueArg(v), Gstd.DelayArg(d)])
  {
  }
}
