/** `ReplyBuilder<(Payload, Value, ReservationId, GasLimit)>` (src/generated/reply.rs): no
    target and no delay; `with_gas_limit` checks only its own slot, so the gas limit and the
    reservation can both be filled, and only the `execute` impls keep them apart. */
module GeneratedReply {
  import opened Common
  import opened Gstd

  datatype ReplyBuilder<E> = ReplyBuilder(
    payload: Payload<E>,
    value: Option<u128>,
    reservationId: Option<ReservationId>,
    gasLimit: Option<u64>)
  {
    /** No optional slot is filled yet. */
    predicate Unconfigured()
    {
      value.None? && reservationId.None? && gasLimit.None?
    }

    /** A reply has no delay slot. */
    predicate Filled(s: Slot)
    {
      match s
      case ValueSlot => value.Some?
      case DelaySlot => false
      case GasLimitSlot => gasLimit.Some?
      case ReservationSlot => reservationId.Some?
    }

    /** The slot of `m` holds `m`'s argument. */
    predicate Holds(m: Modifier)
    {
      match m
      case SetValue(v) => value == Some(v)
      case SetDelay(_) => false
      case SetGasLimit(g) => gasLimit == Some(g)
      case SetGasFromReservation(id) => reservationId == Some(id)
    }

    /** What the modifiers' impl bounds keep true: only a byte or encodable payload carries
        a reservation. */
    predicate Invariant()
    {
      reservationId.Some? ==> GasFromReservationMarker(payload)
    }

    static function Bytes(payload: seq<u8>): (b: ReplyBuilder<E>)
      ensures b.payload == PayloadBytes(payload)
      ensures b.Unconfigured() && b.Invariant() && b.Dispatchable()
    {
      ReplyBuilder(PayloadBytes(payload), None, None, None)
    }

    static function Encode(payload: E): (b: ReplyBuilder<E>)
      ensures b.payload == PayloadEncodable(payload)
      ensures b.Unconfigured() && b.Invariant() && b.Dispatchable()
    {
      ReplyBuilder(PayloadEncodable(payload), None, None, None)
    }

    static function Input(payload: InputRange): (b: ReplyBuilder<E>)
      ensures b.payload == PayloadInput(payload)
      ensures b.Unconfigured() && b.Invariant() && b.Dispatchable()
    {
      ReplyBuilder(PayloadInput(payload), None, None, None)
    }

    /** Offered while the value slot is unset. */
    function WithValue(v: u128): (r: ReplyBuilder<E>)
      requires Offers(SetValue(v))
      ensures r.value == Some(v) && r.(value := None) == this
      ensures Invariant() ==> r.Invariant()
    {
      ReplyBuilder(payload, Some(v), reservationId, gasLimit)
    }

    /** Offered while the reservation slot is unset, for a byte or encodable payload; the gas
        limit slot is not consulted. */
    function WithGasFromReservation(id: ReservationId): (r: ReplyBuilder<E>)
      requires Offers(SetGasFromReservation(id))
      ensures r.reservationId == Some(id) && r.(reservationId := None) == this
      ensures r.Invariant()
    {
      ReplyBuilder(payload, value, Some(id), gasLimit)
    }

    /** Offered while the gas limit slot is unset; the reservation slot is not consulted. */
    function WithGasLimit(g: u64): (r: ReplyBuilder<E>)
      requires Offers(SetGasLimit(g))
      ensures r.gasLimit == Some(g) && r.(gasLimit := None) == this
      ensures Invariant() ==> r.Invariant()
    {
      ReplyBuilder(payload, value, reservationId, Some(g))
    }

    /** The builder its entry constructor made: the same payload, no optional slot. */
    function Origin(): ReplyBuilder<E>
    {
      ReplyBuilder(payload, None, None, None)
    }

    /** A chain of modifier calls that fills exactly the slots this builder has filled. */
    function Modifiers(): seq<Modifier>
    {
      (if value.Some? then [SetValue(value.value)] else [])
      + (if reservationId.Some? then [SetGasFromReservation(reservationId.value)] else [])
      + (if gasLimit.Some? then [SetGasLimit(gasLimit.value)] else [])
    }

    /** Whether the builder in its current state offers the modifier `m`: the bound of that
        modifier's impl header, which is the `requires` of its `With` function; there is no
        `with_delay` on a reply. */
    predicate Offers(m: Modifier)
    {
      match m
      case SetValue(_) => value.None?
      case SetDelay(_) => false
      case SetGasLimit(_) => gasLimit.None?
      case SetGasFromReservation(_) => reservationId.None? && GasFromReservationMarker(payload)
    }

    function Apply(m: Modifier): (r: ReplyBuilder<E>)
      requires Offers(m)
      ensures !Filled(m.Slot()) && r.Holds(m)
      ensures forall s :: r.Filled(s) <==> Filled(s) || s == m.Slot()
      ensures forall m': Modifier :: m'.Slot() != m.Slot() ==> (r.Holds(m') <==> Holds(m'))
      ensures r.payload == payload
      ensures Invariant() ==> r.Invariant()
    {
      match m
      case SetValue(v) => WithValue(v)
      case SetGasLimit(g) => WithGasLimit(g)
      case SetGasFromReservation(id) => WithGasFromReservation(id)
    }

    /** The builder after the chained calls `ms`, or None when some call in the chain is
        not offered at its point (the chain does not compile). */
    function Chain(ms: seq<Modifier>): Option<ReplyBuilder<E>>
      decreases |ms|
    {
      if ms == [] then Some(this)
      else if Offers(ms[0]) then Apply(ms[0]).Chain(ms[1..])
      else None
    }

    /** The slot patterns that have an `execute` impl: any value, with no gas policy, a gas
        limit, or (byte and encodable payloads only) a reservation; never both. */
    function Dispatchable(): (d: bool)
      ensures d <==> Invariant() && !(gasLimit.Some? && reservationId.Some?)
    {
      match payload
      case PayloadInput(_) => reservationId.None?
      case _ => reservationId.None? || gasLimit.None?
    }

    /** The slots as the primitive receives them; an unset value becomes 0. */
    function AsSlots(): Slots<E>
    {
      Slots(None, payload, IntoValue(value), gasLimit, None, reservationId)
    }

    /** The 16 `execute` impls, grouped by payload: the gas limit picks a `_with_gas`
        primitive and the reservation a `_from_reservation` one; an unset value is passed
        as the literal 0. */
    function Execute(): (c: Call<E>)
      requires Dispatchable()
      ensures c == Convention(ReplyOp, AsSlots())
      ensures Available(c.primitive)
    {
      match payload
      case PayloadBytes(_) => ExecuteBytes()
      case PayloadEncodable(_) => ExecuteEncodable()
      case PayloadInput(_) => ExecuteInput()
    }

    /** The six impls for `PayloadBytesW`. */
    function ExecuteBytes(): (c: Call<E>)
      requires Dispatchable() && payload.PayloadBytes?
      ensures c == Convention(ReplyOp, AsSlots())
      ensures Available(c.primitive)
    {
      var p := PayloadArg(payload);
      match (value, reservationId, gasLimit)
      case (None, None, None) => Call(ReplyBytes, [p, ValueArg(0)])
      case (None, None, Some(g)) => Call(ReplyBytesWithGas, [p, GasLimitArg(g), ValueArg(0)])
      case (None, Some(id), None) => Call(ReplyBytesFromReservation, [ReservationIdArg(id), p, ValueArg(0)])
      case (Some(v), None, None) => Call(ReplyBytes, [p, ValueArg(v)])
      case (Some(v), None, Some(g)) => Call(ReplyBytesWithGas, [p, GasLimitArg(g), ValueArg(v)])
      case (Some(v), Some(id), None) => Call(ReplyBytesFromReservation, [ReservationIdArg(id), p, ValueArg(v)])
    }

    /** The six impls for `PayloadEncodableW`. */
    function ExecuteEncodable(): (c: Call<E>)
      requires Dispatchable() && payload.PayloadEncodable?
      ensures c == Convention(ReplyOp, AsSlots())
      ensures Available(c.primitive)
    {
      var p := PayloadArg(payload);
      match (value, reservationId, gasLimit)
      case (None, None, None) => Call(Reply, [p, ValueArg(0)])
      case (None, None, Some(g)) => Call(ReplyWithGas, [p, GasLimitArg(g), ValueArg(0)])
      case (None, Some(id), None) => Call(ReplyFromReservation, [ReservationIdArg(id), p, ValueArg(0)])
      case (Some(v), None, None) => Call(Reply, [p, ValueArg(v)])
      case (Some(v), None, Some(g)) => Call(ReplyWithGas, [p, GasLimitArg(g), ValueArg(v)])
      case (Some(v), Some(id), None) => Call(ReplyFromReservation, [ReservationIdArg(id), p, ValueArg(v)])
    }

    /** The four impls for `PayloadInputW`: the value comes before the range. */
    function ExecuteInput(): (c: Call<E>)
      requires Dispatchable() && payload.PayloadInput?
      ensures c == Convention(ReplyOp, AsSlots())
      ensures Available(c.primitive)
    {
      var p := PayloadArg(payload);
      match (value, gasLimit)
      case (None, None) => Call(ReplyInput, [ValueArg(0), p])
      case (None, Some(g)) => Call(ReplyInputWithGas, [GasLimitArg(g), ValueArg(0), p])
      case (Some(v), None) => Call(ReplyInput, [ValueArg(v), p])
      case (Some(v), Some(g)) => Call(ReplyInputWithGas, [GasLimitArg(g), ValueArg(v), p])
    }
  }

  /** Chaining `ms` and then `ns` is chaining `ms + ns`. */
  lemma {:induction false} ChainConcat<E>(b: ReplyBuilder<E>, ms: seq<Modifier>, ns: seq<Modifier>)
    ensures b.Chain(ms + ns) == if b.Chain(ms).Some? then b.Chain(ms).value.Chain(ns) else None
    decreases |ms|
  {
    if ms == [] {
      assert ms + ns == ns;
    } else {
      assert (ms + ns)[0] == ms[0];
      assert (ms + ns)[1..] == ms[1..] + ns;
      if b.Offers(ms[0]) {
        ChainConcat(b.Apply(ms[0]), ms[1..], ns);
      }
    }
  }

  /** The impl bounds keep reservations off input payloads through any chain of calls. */
  lemma {:induction false} ChainKeepsInvariant<E>(b: ReplyBuilder<E>, ms: seq<Modifier>)
    requires b.Invariant() && b.Chain(ms).Some?
    ensures b.Chain(ms).value.Invariant()
    decreases |ms|
  {
    if ms != [] {
      ChainKeepsInvariant(b.Apply(ms[0]), ms[1..]);
    }
  }

  /** A filled slot keeps its content through any chain of modifier calls. */
  lemma {:induction false} ChainKeepsHeld<E>(b: ReplyBuilder<E>, ms: seq<Modifier>, m: Modifier)
    requires b.Holds(m) && b.Chain(ms).Some?
    ensures b.Chain(ms).value.Holds(m)
    decreases |ms|
  {
    if ms != [] {
      assert b.Filled(m.Slot());
      ChainKeepsHeld(b.Apply(ms[0]), ms[1..], m);
    }
  }

  /** Set-once: along a chain that compiles, each slot is filled at most once (never if it
      was already filled, and the delay never), exactly the supplied slots become filled,
      each holds the argument it was given, and the payload never changes. */
  lemma {:induction false} ChainRecordsModifiers<E>(b: ReplyBuilder<E>, ms: seq<Modifier>)
    requires b.Chain(ms).Some?
    ensures var r := b.Chain(ms).value;
      && r.payload == b.payload
      && Count(ms, DelaySlot) == 0
      && (forall s :: Count(ms, s) + (if b.Filled(s) then 1 else 0) <= 1)
      && (forall s :: r.Filled(s) <==> b.Filled(s) || Count(ms, s) == 1)
      && (forall i :: 0 <= i < |ms| ==> r.Holds(ms[i]))
    decreases |ms|
  {
    if ms != [] {
      var b' := b.Apply(ms[0]);
      var r := b.Chain(ms).value;
      ChainRecordsModifiers(b', ms[1..]);
      ChainKeepsHeld(b', ms[1..], ms[0]);
      forall i | 0 <= i < |ms|
        ensures r.Holds(ms[i])
      {
        if i > 0 {
          assert ms[i] == ms[1..][i - 1];
        }
      }
    }
  }

  /** A slot that no call in `ms` fills keeps its content through the chain. */
  lemma {:induction false} ChainFrames<E>(b: ReplyBuilder<E>, ms: seq<Modifier>, m: Modifier)
    requires b.Chain(ms).Some? && Count(ms, m.Slot()) == 0
    ensures b.Chain(ms).value.Holds(m) <==> b.Holds(m)
    decreases |ms|
  {
    if ms != [] {
      ChainFrames(b.Apply(ms[0]), ms[1..], m);
    }
  }

  /** What a chain leaves in a slot, any other chain of the same calls in another order
      leaves there too. */
  lemma HeldTransfers<E>(b: ReplyBuilder<E>, ms: seq<Modifier>, ns: seq<Modifier>, m: Modifier)
    requires b.Chain(ms).Some? && b.Chain(ns).Some? && multiset(ms) == multiset(ns)
    requires b.Chain(ms).value.Holds(m)
    ensures b.Chain(ns).value.Holds(m)
  {
    var r := b.Chain(ms).value;
    ChainRecordsModifiers(b, ms);
    ChainRecordsModifiers(b, ns);
    if Count(ms, m.Slot()) == 0 {
      ChainFrames(b, ms, m);
      ChainKeepsHeld(b, ns, m);
    } else {
      CountWitness(ms, m.Slot());
      var i :| 0 <= i < |ms| && ms[i].Slot() == m.Slot();
      assert r.Holds(ms[i]);
      assert ms[i] == m;
      assert m in multiset(ns);
      var j :| 0 <= j < |ns| && ns[j] == m;
    }
  }

  /** The order of the modifier calls does not matter: two chains of the same calls that
      both compile reach the same builder. */
  lemma ChainOrderIrrelevant<E>(b: ReplyBuilder<E>, ms: seq<Modifier>, ns: seq<Modifier>)
    requires b.Chain(ms).Some? && b.Chain(ns).Some? && multiset(ms) == multiset(ns)
    ensures b.Chain(ms) == b.Chain(ns)
  {
    var r1, r2 := b.Chain(ms).value, b.Chain(ns).value;
    ChainRecordsModifiers(b, ms);
    ChainRecordsModifiers(b, ns);
    if r1.value.Some? { HeldTransfers(b, ms, ns, SetValue(r1.value.value)); }
    if r2.value.Some? { HeldTransfers(b, ns, ms, SetValue(r2.value.value)); }
    if r1.gasLimit.Some? { HeldTransfers(b, ms, ns, SetGasLimit(r1.gasLimit.value)); }
    if r2.gasLimit.Some? { HeldTransfers(b, ns, ms, SetGasLimit(r2.gasLimit.value)); }
    if r1.reservationId.Some? { HeldTransfers(b, ms, ns, SetGasFromReservation(r1.reservationId.value)); }
    if r2.reservationId.Some? { HeldTransfers(b, ns, ms, SetGasFromReservation(r2.reservationId.value)); }
  }

  /** A builder reached from an entry constructor has an `execute` impl exactly when it does
      not hold both a gas limit and a reservation. */
  lemma ReachableDispatchableIff<E>(start: ReplyBuilder<E>, ms: seq<Modifier>)
    requires start.Unconfigured() && start.Chain(ms).Some?
    ensures var r := start.Chain(ms).value;
      r.Dispatchable() <==> !(r.gasLimit.Some? && r.reservationId.Some?)
  {
    ChainKeepsInvariant(start, ms);
  }

  /** Both orders of `with_gas_limit` and `with_gas_from_reservation` compile, and leave a
      builder with no `execute` impl. */
  lemma GasAndReservationReachable<E>(payload: seq<u8>, g: u64, id: ReservationId)
    ensures var r := ReplyBuilder<E>.Bytes(payload).Chain([SetGasLimit(g), SetGasFromReservation(id)]);
      r.Some? && !r.value.Dispatchable()
    ensures var r := ReplyBuilder<E>.Bytes(payload).Chain([SetGasFromReservation(id), SetGasLimit(g)]);
      r.Some? && !r.value.Dispatchable()
  {
    var b := ReplyBuilder<E>.Bytes(payload);
    var both := ReplyBuilder(PayloadBytes(payload), None, Some(id), Some(g));
    assert b.Chain([SetGasLimit(g), SetGasFromReservation(id)])
      == b.WithGasLimit(g).Chain([SetGasFromReservation(id)])
      == b.WithGasLimit(g).WithGasFromReservation(id).Chain([])
      == Some(both);
    assert b.Chain([SetGasFromReservation(id), SetGasLimit(g)])
      == b.WithGasFromReservation(id).Chain([SetGasLimit(g)])
      == b.WithGasFromReservation(id).WithGasLimit(g).Chain([])
      == Some(both);
  }

  /** Every slot pattern with an `execute` impl is reached from the entry constructor's
      result by the modifier calls that fill its slots. */
  lemma DispatchableIsReachable<E>(b: ReplyBuilder<E>)
    requires b.Dispatchable()
    ensures b.Origin().Unconfigured() && b.Origin().Chain(b.Modifiers()) == Some(b)
    ensures b.payload.PayloadBytes? ==> b.Origin() == ReplyBuilder<E>.Bytes(b.payload.buffer)
    ensures b.payload.PayloadEncodable? ==> b.Origin() == ReplyBuilder<E>.Encode(b.payload.encodable)
    ensures b.payload.PayloadInput? ==> b.Origin() == ReplyBuilder<E>.Input(b.payload.range)
  {
    var o := b.Origin();
    var vs := if b.value.Some? then [SetValue(b.value.value)] else [];
    var rs := if b.reservationId.Some? then [SetGasFromReservation(b.reservationId.value)] else [];
    var gs := if b.gasLimit.Some? then [SetGasLimit(b.gasLimit.value)] else [];
    var o1 := o.(value := b.value);
    var o2 := o1.(reservationId := b.reservationId);
    assert o.Chain(vs) == Some(o1);
    assert o1.Chain(rs) == Some(o2);
    assert o2.Chain(gs) == Some(b);
    ChainConcat(o, vs, rs);
    ChainConcat(o, vs + rs, gs);
  }

  /** `execute` loses nothing but whether the value was set explicitly. */
  lemma ExecuteDeterminesBuilder<E>(b1: ReplyBuilder<E>, b2: ReplyBuilder<E>)
    requires b1.Dispatchable() && b2.Dispatchable() && b1.Execute() == b2.Execute()
    ensures b1.(value := None) == b2.(value := None)
    ensures IntoValue(b1.value) == IntoValue(b2.value)
  {
  }

  /** Every reply primitive is the target of some builder's `execute`. */
  lemma EveryPrimitiveDispatched<E>(p: Primitive, payload: Payload<E>)
    requires p.op == ReplyOp && Available(p) && KindOf(payload) == p.kind
    ensures exists b: ReplyBuilder<E> :: b.Dispatchable() && b.Execute().primitive == p
  {
    var id := ReservationId(seq(32, _ => 0));
    var b := ReplyBuilder(payload, None,
      if p.gas == FromReservation then Some(id) else None,
      if p.gas == WithGas then Some(0) else None);
    assert b.Dispatchable() && b.Execute().primitive == p;
  }
}
