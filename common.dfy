/** The field vocabulary shared by the three builders: the wrapped target ids, the three
    payload representations, the numeric slots with their fixed widths, and the marker that
    says which payloads may draw gas from a reservation (src/common.rs). */
module Common {

  datatype Option<T> = None | Some(value: T)

  // Rust's unsigned integers, with the widths the wrappers carry.
  newtype u8 = x: int | 0 <= x < 0x100
  newtype u32 = x: int | 0 <= x < 0x1_0000_0000
  newtype u64 = x: int | 0 <= x < 0x1_0000_0000_0000_0000
  newtype u128 = x: int | 0 <= x < 0x1_0000_0000_0000_0000_0000_0000_0000_0000

  /** gstd's 32-byte identifiers. */
  type Hash = s: seq<u8> | |s| == 32 witness seq(32, _ => 0)

  /** The target of a send (`ProgramW`), and of a program creation (`CodeIdW`): distinct types. */
  datatype ActorId = ActorId(hash: Hash)
  datatype CodeId = CodeId(hash: Hash)
  /** The id of a gas reservation (`ReservationIdW`). */
  datatype ReservationId = ReservationId(hash: Hash)

  /** A `RangeBounds<usize>` over the incoming message's bytes; the builders forward it untouched. */
  datatype Bound = Included(at: nat) | Excluded(at: nat) | Unbounded
  datatype InputRange = InputRange(start: Bound, end: Bound)

  /** The payload slot holds exactly one of the three representations; `E` is the
      encodable value's type, whose encoding is left to the primitive. */
  datatype Payload<E> =
    | PayloadBytes(buffer: seq<u8>)
    | PayloadEncodable(encodable: E)
    | PayloadInput(range: InputRange)

  datatype PayloadKind = BytesKind | EncodableKind | InputKind

  function KindOf<E>(p: Payload<E>): PayloadKind
  {
    match p
    case PayloadBytes(_) => BytesKind
    case PayloadEncodable(_) => EncodableKind
    case PayloadInput(_) => InputKind
  }

  /** `GasFromReservationMarker`: implemented for byte and encodable payloads only. */
  function GasFromReservationMarker<E>(p: Payload<E>): (r: bool)
    ensures r <==> KindOf(p) != InputKind
  {
    p.PayloadBytes? || p.PayloadEncodable?
  }

  /** `Into<ValueW>` for the value slot: a set slot gives its amount, an unset one the literal 0. */
  function IntoValue(v: Option<u128>): (r: u128)
    ensures v.Some? ==> r == v.value
    ensures v.None? ==> r == 0
  {
    match v
    case Some(amount) => amount
    case None => 0
  }

  /** The optional slots a modifier can fill. */
  datatype Slot = ValueSlot | DelaySlot | GasLimitSlot | ReservationSlot

  /** One fluent modifier call with its argument: `with_value`, `with_delay`,
      `with_gas_limit`, `with_gas_from_reservation`. */
  datatype Modifier =
    | SetValue(value: u128)
    | SetDelay(delay: u32)
    | SetGasLimit(gasLimit: u64)
    | SetGasFromReservation(reservationId: ReservationId)
  {
    /** The one slot this call fills. */
    function Slot(): Slot
    {
      match this
      case SetValue(_) => ValueSlot
      case SetDelay(_) => DelaySlot
      case SetGasLimit(_) => GasLimitSlot
      case SetGasFromReservation(_) => ReservationSlot
    }
  }

  /** How many calls in `ms` fill slot `s`. */
  function Count(ms: seq<Modifier>, s: Slot): nat
  {
    if ms == [] then 0
    else (if ms[0].Slot() == s then 1 else 0) + Count(ms[1..], s)
  }

  /** A slot that some call in `ms` fills is the slot of one of its elements; one that no
      call fills is the slot of none. */
  lemma {:induction false} CountWitness(ms: seq<Modifier>, s: Slot)
    ensures Count(ms, s) > 0 <==> exists i :: 0 <= i < |ms| && ms[i].Slot() == s
  {
    if ms != [] {
      CountWitness(ms[1..], s);
      if Count(ms[1..], s) > 0 {
        var i :| 0 <= i < |ms[1..]| && ms[1..][i].Slot() == s;
        assert ms[i + 1].Slot() == s;
      }
      if exists i :: 0 <= i < |ms| && ms[i].Slot() == s {
        var i :| 0 <= i < |ms| && ms[i].Slot() == s;
        if i > 0 {
          assert ms[1..][i - 1].Slot() == s;
        }
      }
    }
  }
}
