# gstd-fluent builders in Dafny

gstd-fluent wraps the Gear runtime's `gstd` messaging primitives in three fluent
type-state builders: `SendBuilder`, `ReplyBuilder` and `CreateProgramBuilder`. An entry
function fixes the target (an actor id, a code id, or nothing for a reply) and the payload
kind (raw bytes, an encodable value, or a range of the incoming message). Modifiers
(`with_value`, `with_delay`, `with_gas_limit`, `with_gas_from_reservation`) each fill one
optional slot, and each is offered only while its slot is empty. `execute` exists only for
certain slot patterns, and each pattern calls exactly one `gstd` primitive with the slots
forwarded in a fixed order.

The Dafny model follows the crate file by file:

- `common.dfy` (module `Common`, src/common.rs): the slot vocabulary. Ids are 32-byte hashes.
  Value, gas limit and delay are `u128`, `u64` and `u32` newtypes. `Payload<E>` is exactly one
  of bytes, an encodable `E`, or an input range. `GasFromReservationMarker` holds for bytes and
  encodable payloads only. `IntoValue` is `Into<ValueW>`, where an unset value gives 0.
  `Modifier` is one modifier call with its argument.
- `gstd.dfy` (module `Gstd`): the external primitives as descriptors. A `Primitive` is an
  operation, a payload kind, a gas mode and a delayed flag. There are 28 named constants, one
  per primitive the builders call. `Name` is gstd's naming rule. `Convention` is the call that
  gstd's conventions prescribe for a set of slots. It is written once, independently of the
  three impl tables, and every `execute` is proved equal to it.
- `send.dfy`, `reply.dfy`, `create_program.dfy` (src/generated/): each builder is a datatype
  with `Option` slots. Each modifier is a member function whose `requires` is the Rust impl
  bound, where `()` in a slot position means the slot is unset. `Execute` is the hand-written
  impl table as a `match`, with `requires Dispatchable()`; it returns the `Call` (the primitive
  and its positional arguments), not its result. `Chain(ms)` applies a sequence of modifier
  calls and returns `None` when one of them is not offered at its point, that is, when the
  chain would not compile.
- `functions.dfy` (module `Functions`, src/functions.rs): the free entry functions, plus the
  crate's usage examples as lemmas.

Three gaps in the generated code are resolved as follows:

- `UnitTypeMarker` (src/generated/send.rs:56) means "slot unset". It is not defined in
  src/common.rs.
- `PayloadWithGasReservationMarker` (src/generated/send.rs:65) is `GasFromReservationMarker`
  (src/common.rs:16-19). It is not defined in src/common.rs either.
- Every send `execute` bounds its value slot by `Into<ValueW>` (src/generated/send.rs:74) and
  forwards `value.into().0` (src/generated/send.rs:77). src/common.rs:11 declares `ValueW(u128)`
  but no conversion from an unset slot. The model converts an unset value to 0, as the crate's
  doc comments say (src/lib.rs:41, src/lib.rs:72). The reply and program-creation impls write
  that 0 out literally (src/generated/reply.rs:68, src/generated/create_program.rs:52).

Facts about the code that the model keeps:

- A reply's `with_gas_limit` (src/generated/reply.rs:56) checks only its own slot. Its
  `with_gas_from_reservation` (src/generated/reply.rs:47) does not check the gas limit. So a
  reply builder holding both a gas limit and a reservation compiles, and it has no `execute`.
  For replies, mutual exclusion holds at dispatch only, not when the slots are set
  (`GeneratedReply.GasAndReservationReachable`). For sends it holds at set time
  (src/generated/send.rs:56, 65).
- An unset delay or gas limit is never forwarded as a number. It selects the primitive without
  `_delayed` or `_with_gas`. Only the value has a default, 0.
- The first usage example's comment (src/lib.rs:27) says the call is
  `send_delayed(source, payload, 30, 0)`. The code passes `(program, payload, value, delay)`,
  so the call is `send_delayed(source, payload, 0, 30)` (`Functions.DelayedSendExample`).

## Model

| member | source | states |
|---|---|---|
| Common.IntoValue | src/generated/send.rs:74-79 | `Into<ValueW>` for the value slot (`value.into().0` at send.rs:77): a set value is forwarded as it is, and an unset one as 0, the literal the reply and creation impls write (reply.rs:68) |
| Common.GasFromReservationMarker | src/common.rs:16-19 | the marker holds exactly for byte and encodable payloads, never for an input range |
| Gstd.SendBytesNames | src/generated/send.rs:74-114 | the byte send primitives are available and are named `send_bytes`, `send_bytes_with_gas`, `send_bytes_delayed`, `send_bytes_with_gas_delayed`, `send_bytes_from_reservation` and `send_bytes_delayed_from_reservation` |
| Gstd.SendNames | src/generated/send.rs:116-156 | the encodable send primitives are available and are named `send`, `send_with_gas`, `send_delayed`, `send_with_gas_delayed`, `send_from_reservation` and `send_delayed_from_reservation` |
| Gstd.SendInputNames | src/generated/send.rs:158-184 | the input send primitives are available and are named `send_input`, `send_input_with_gas`, `send_input_delayed` and `send_input_with_gas_delayed` |
| Gstd.ReplyBytesNames | src/generated/reply.rs:65-105 | the byte reply primitives are available and are named `reply_bytes`, `reply_bytes_with_gas` and `reply_bytes_from_reservation` |
| Gstd.ReplyNames | src/generated/reply.rs:107-147 | the encodable reply primitives are available and are named `reply`, `reply_with_gas` and `reply_from_reservation` |
| Gstd.ReplyInputNames | src/generated/reply.rs:149-175 | the input reply primitives are available and are named `reply_input` and `reply_input_with_gas` |
| Gstd.CreateProgramNames | src/generated/create_program.rs:49-103 | the four program-creation primitives are available and are named `create_program`, `create_program_with_gas`, `create_program_delayed` and `create_program_with_gas_delayed` |
| Gstd.NameShowsFamily | src/generated/send.rs:74-184 | for all 28 primitives (sends, replies and program creations alike), the first word of the name is its family: send, reply or create (the same holds for the reply table, src/generated/reply.rs:65-175, and the creation table, src/generated/create_program.rs:49-103) |
| Gstd.NameShowsKind | src/generated/send.rs:74-184 | for every available primitive, send, reply or program creation, the word `bytes` is in the name exactly when it is a byte send or reply, and `input` exactly when it takes an input range (the same holds for the reply table, src/generated/reply.rs:65-175, and the creation table, src/generated/create_program.rs:49-103) |
| Gstd.NameShowsGasMode | src/generated/send.rs:74-184 | for every primitive, send, reply or program creation, `gas` is in the name exactly for the explicit-limit mode, and `reservation` exactly for the reservation mode (the same holds for the reply table, src/generated/reply.rs:65-175, and the creation table, src/generated/create_program.rs:49-103) |
| Gstd.NameShowsDelay | src/generated/send.rs:95-114 | for every primitive, send or program creation, `delayed` is in the name exactly for a delayed primitive (the same holds for the creation table, src/generated/create_program.rs:49-103) |
| Gstd.NameIdentifiesPrimitive | src/generated/send.rs:74-184 | over all available primitives of the three families, two with the same name are the same, so each impl's primitive in the send, reply and creation tables is named unambiguously (the same holds for the reply table, src/generated/reply.rs:65-175, and the creation table, src/generated/create_program.rs:49-103) |
| GeneratedSend.SendBuilder.Bytes | src/generated/send.rs:14-20 | stores the program and the byte payload; every optional slot is unset; the result has an `execute` |
| GeneratedSend.SendBuilder.Encode | src/generated/send.rs:22-28 | stores the program and the encodable payload; every optional slot is unset |
| GeneratedSend.SendBuilder.Input | src/generated/send.rs:30-36 | stores the program and the input range; every optional slot is unset |
| GeneratedSend.SendBuilder.WithValue | src/generated/send.rs:38-45 | offered only while the value is unset; fills the value and leaves every other slot as it was |
| GeneratedSend.SendBuilder.WithDelay | src/generated/send.rs:47-54 | offered only while the delay is unset; fills the delay and leaves every other slot as it was |
| GeneratedSend.SendBuilder.WithGasLimit | src/generated/send.rs:56-63 | offered only while both the gas limit and the reservation are unset; fills the gas limit only |
| GeneratedSend.SendBuilder.WithGasFromReservation | src/generated/send.rs:65-72 | offered only while both gas slots are unset, and only for a byte or encodable payload; fills the reservation only |
| GeneratedSend.SendBuilder.Apply | src/generated/send.rs:38-72 | an offered modifier finds its slot empty, fills exactly that slot with its argument, changes no other slot, and keeps gas and reservation exclusive |
| GeneratedSend.SendBuilder.Dispatchable | src/generated/send.rs:74-184 | the slot patterns with an `execute` impl header are exactly the states the modifier bounds allow: gas limit and reservation not both set, and a reservation only with a byte or encodable payload |
| GeneratedSend.SendBuilder.Execute | src/generated/send.rs:74-184 | every dispatchable pattern calls gstd's conventional primitive for its slots, with arguments in gstd's order and an unset value passed as 0; the primitive called is one gstd offers |
| GeneratedSend.SendBuilder.ExecuteBytes | src/generated/send.rs:74-114 | the six byte impls; a reservation id is passed first, before the program |
| GeneratedSend.SendBuilder.ExecuteEncodable | src/generated/send.rs:116-156 | the six encodable impls, in the same shape as the byte ones |
| GeneratedSend.SendBuilder.ExecuteInput | src/generated/send.rs:158-184 | the four input impls: the gas limit comes before the value, the value before the range, and the delay last |
| GeneratedSend.ChainKeepsInvariant | src/generated/send.rs:56-72 | along any chain that compiles, gas limit and reservation are never both set, and only byte or encodable payloads carry a reservation |
| GeneratedSend.ChainKeepsHeld | src/generated/send.rs:38-72 | once a slot is filled, no later modifier call changes it |
| GeneratedSend.ChainRecordsModifiers | src/generated/send.rs:38-72 | set-once: each slot is filled at most once along a chain, exactly the slots supplied become filled, each holds its argument, and program and payload never change |
| GeneratedSend.ChainFrames | src/generated/send.rs:38-72 | a slot that no call of a chain fills keeps its content through the chain |
| GeneratedSend.ChainOrderIrrelevant | src/generated/send.rs:38-72 | any two chains of the same modifier calls, in any order, that both compile reach the same builder |
| GeneratedSend.ReachableIsDispatchable | src/generated/send.rs:74-184 | every builder a chain reaches from an entry constructor has an `execute` impl |
| GeneratedSend.DispatchableIsReachable | src/generated/send.rs:14-72 | every pattern with an `execute` impl is reached from `bytes`, `encode` or `input` (whichever its payload kind calls for) on its program and payload, by the calls that fill its slots |
| GeneratedSend.ExecuteDeterminesBuilder | src/generated/send.rs:74-184 | two builders that make the same call agree on every slot, except whether the value was set explicitly |
| GeneratedSend.EveryPrimitiveDispatched | src/generated/send.rs:74-184 | each of the 16 send primitives is the call of some builder |
| GeneratedReply.ReplyBuilder.Bytes | src/generated/reply.rs:14-20 | stores the byte payload; value, reservation and gas limit are unset |
| GeneratedReply.ReplyBuilder.Encode | src/generated/reply.rs:22-28 | stores the encodable payload; every optional slot is unset |
| GeneratedReply.ReplyBuilder.Input | src/generated/reply.rs:30-36 | stores the input range; every optional slot is unset |
| GeneratedReply.ReplyBuilder.WithValue | src/generated/reply.rs:38-45 | offered only while the value is unset; fills the value and leaves every other slot as it was |
| GeneratedReply.ReplyBuilder.WithGasFromReservation | src/generated/reply.rs:47-54 | offered while the reservation is unset, for a byte or encodable payload; fills the reservation only; the result always satisfies the reservation marker bound |
| GeneratedReply.ReplyBuilder.WithGasLimit | src/generated/reply.rs:56-63 | offered while the gas limit is unset, whatever the reservation; fills the gas limit only |
| GeneratedReply.ReplyBuilder.Apply | src/generated/reply.rs:38-63 | an offered modifier fills exactly its own empty slot with its argument; a reply has no delay |
| GeneratedReply.ReplyBuilder.Dispatchable | src/generated/reply.rs:65-175 | the slot patterns with an `execute` impl header: no reservation on an input payload, and never both a gas limit and a reservation |
| GeneratedReply.ReplyBuilder.Execute | src/generated/reply.rs:65-175 | every dispatchable pattern calls gstd's conventional reply primitive, passing 0 for an unset value |
| GeneratedReply.ReplyBuilder.ExecuteBytes | src/generated/reply.rs:65-105 | the six byte impls: none gives `reply_bytes(payload, value)`, a gas limit gives `reply_bytes_with_gas(payload, gas_limit, value)`, and a reservation gives `reply_bytes_from_reservation(id, payload, value)` |
| GeneratedReply.ReplyBuilder.ExecuteEncodable | src/generated/reply.rs:107-147 | the six encodable impls, in the same shape |
| GeneratedReply.ReplyBuilder.ExecuteInput | src/generated/reply.rs:149-175 | the four input impls: `reply_input(value, payload)` and `reply_input_with_gas(gas_limit, value, payload)` |
| GeneratedReply.ChainKeepsInvariant | src/generated/reply.rs:47-54 | along any chain, an input reply never gets a reservation |
| GeneratedReply.ChainKeepsHeld | src/generated/reply.rs:38-63 | once a slot is filled, no later modifier call changes it |
| GeneratedReply.ChainRecordsModifiers | src/generated/reply.rs:38-63 | set-once: each slot is filled at most once, the delay never; exactly the slots supplied become filled and hold their arguments; the payload never changes |
| GeneratedReply.ChainFrames | src/generated/reply.rs:38-63 | a slot that no call of a chain fills keeps its content through the chain |
| GeneratedReply.ChainOrderIrrelevant | src/generated/reply.rs:38-63 | any two chains of the same modifier calls, in any order, that both compile reach the same builder |
| GeneratedReply.ReachableDispatchableIff | src/generated/reply.rs:65-175 | a reachable reply builder has an `execute` exactly when it does not hold both a gas limit and a reservation |
| GeneratedReply.GasAndReservationReachable | src/generated/reply.rs:47-63 | gas limit then reservation, and reservation then gas limit, both compile and leave a builder with no `execute` |
| GeneratedReply.DispatchableIsReachable | src/generated/reply.rs:14-63 | every pattern with an `execute` impl is reached from `bytes`, `encode` or `input` (whichever its payload kind calls for) on its payload, by the calls that fill its slots |
| GeneratedReply.ExecuteDeterminesBuilder | src/generated/reply.rs:65-175 | two builders that make the same call agree on every slot, except whether the value was set explicitly |
| GeneratedReply.EveryPrimitiveDispatched | src/generated/reply.rs:65-175 | each of the 8 reply primitives is the call of some builder |
| GeneratedCreateProgram.CreateProgramBuilder.Bytes | src/generated/create_program.rs:14-20 | stores the code id and the byte payload; value, delay and gas limit are unset |
| GeneratedCreateProgram.CreateProgramBuilder.WithValue | src/generated/create_program.rs:22-29 | offered only while the value is unset; fills it and leaves every other slot as it was |
| GeneratedCreateProgram.CreateProgramBuilder.WithDelay | src/generated/create_program.rs:31-38 | offered only while the delay is unset; fills it and leaves every other slot as it was |
| GeneratedCreateProgram.CreateProgramBuilder.WithGasLimit | src/generated/create_program.rs:40-47 | offered only while the gas limit is unset; fills it and leaves every other slot as it was |
| GeneratedCreateProgram.CreateProgramBuilder.Apply | src/generated/create_program.rs:22-47 | an offered modifier fills exactly its own empty slot; there is no reservation modifier; code id and payload are unchanged |
| GeneratedCreateProgram.CreateProgramBuilder.Dispatchable | src/generated/create_program.rs:49-103 | every `execute` impl header takes a byte payload, with any value, delay and gas limit |
| GeneratedCreateProgram.CreateProgramBuilder.Execute | src/generated/create_program.rs:49-103 | the eight impls: `create_program[_with_gas][_delayed](code_id, payload, [gas_limit,] value[, delay])`, passing 0 for an unset value |
| GeneratedCreateProgram.ChainKeepsHeld | src/generated/create_program.rs:22-47 | once a slot is filled, no later modifier call changes it |
| GeneratedCreateProgram.ChainRecordsModifiers | src/generated/create_program.rs:22-47 | set-once: each slot is filled at most once, the reservation never; exactly the slots supplied become filled and hold their arguments |
| GeneratedCreateProgram.ChainFrames | src/generated/create_program.rs:22-47 | a slot that no call of a chain fills keeps its content through the chain |
| GeneratedCreateProgram.ChainOrderIrrelevant | src/generated/create_program.rs:22-47 | any two chains of the same modifier calls, in any order, that both compile reach the same builder |
| GeneratedCreateProgram.ReachableIsDispatchable | src/generated/create_program.rs:49-103 | every chain that compiles on a `bytes` builder ends in a builder with an `execute` |
| GeneratedCreateProgram.DispatchableIsReachable | src/generated/create_program.rs:14-47 | every pattern with an `execute` impl is reached from `bytes` |
| GeneratedCreateProgram.ExecuteDeterminesBuilder | src/generated/create_program.rs:49-103 | two builders that make the same call agree on every slot, except whether the value was set explicitly |
| GeneratedCreateProgram.EveryPrimitiveDispatched | src/generated/create_program.rs:49-103 | each of the 4 program-creation primitives is the call of some builder |
| Functions.ReplyBytes | src/functions.rs:4-8 | a reply builder with the byte payload and nothing else set; executed at once it calls `reply_bytes(payload, 0)` |
| Functions.Reply | src/functions.rs:11-15 | a reply builder with the encodable payload; executed at once it calls `reply(payload, 0)` |
| Functions.ReplyInput | src/functions.rs:18-22 | a reply builder with the input range; executed at once it calls `reply_input(0, range)` |
| Functions.SendBytes | src/functions.rs:25-30 | a send builder with the program and the byte payload; executed at once it calls `send_bytes(program, payload, 0)` |
| Functions.Send | src/functions.rs:33-38 | a send builder with the program and the encodable payload; executed at once it calls `send(program, payload, 0)` |
| Functions.SendInput | src/functions.rs:41-46 | a send builder with the program and the input range; executed at once it calls `send_input(program, 0, range)` |
| Functions.CreateProgramBytes | src/functions.rs:49-54 | a program-creation builder with the code id and the byte payload; executed at once it calls `create_program(code_id, payload, 0)` |
| Functions.DelayedSendExample | src/lib.rs:27-34 | `send(source, payload).with_delay(30)` calls `send_delayed(source, payload, 0, 30)` |
| Functions.GasDelayedSendExample | src/lib.rs:37-45 | adding `with_gas_limit(1_000_000)` and `with_value(1_000)` calls `send_with_gas_delayed(source, payload, 1_000_000, 1_000, 30)` |
| Functions.SendBytesAllSlots | src/generated/send.rs:109-114 | for any value, delay and gas limit, the orders value-delay-gas and gas-delay-value give the same builder, which calls `send_bytes_with_gas_delayed(program, payload, gas_limit, value, delay)` |
| Functions.ReplyFromReservationExample | src/generated/reply.rs:121-126 | an encodable reply with reservation R and no value calls `reply_from_reservation(R, payload, 0)` |
| Functions.CreateProgramAllSlots | src/generated/create_program.rs:98-103 | for any value v, delay d and gas limit g set together, the builder calls `create_program_with_gas_delayed(code_id, payload, g, v, d)` |

## Left out

- The gstd primitives are external. They are modelled only as `Call` descriptors. Their on-chain effect, gas metering and errors are not modelled. Each `execute` returns the primitive's `Result` unchanged: `MessageId` for sends and replies, and `(MessageId, ActorId)` for program creation. The model stops at the call.
- The codec: encoding an encodable payload belongs to an external library. The payload is an opaque `E`.
- Input ranges are forwarded untouched, so a range is an opaque pair of bounds. Nothing checks it against the incoming message.
- The reply-wait stage (`for_reply`, `for_reply_as`, `with_reply_deposit`) appears only in doc comments (src/lib.rs:78-83, src/lib.rs:134-139). No code implements it.
- The `create_program` entry function (src/functions.rs:57-62) calls `CreateProgramBuilder::encode`. That constructor is not defined in src/generated/create_program.rs, and there is no encodable `execute` table. The model keeps a generic payload slot for program creation, but only `bytes` creates it, and `Dispatchable` requires a byte payload.
- src/builder/msg.rs and src/prog.rs are not part of this model. They are not in the crate's module tree (src/lib.rs:150-153).
- src/lib.rs and src/generated/mod.rs hold only documentation, module declarations and re-exports. Their usage examples appear as lemmas in `Functions`.
- Rust's type-level encoding of states (generic impls, marker traits) is replaced by `Option` slots and `requires` clauses. A call that would not compile is a call whose `requires` fails, or a `Chain` that yields `None`.
- The `AsRef<[u8]>` buffer conversion is not modelled. A byte payload is its byte sequence.
