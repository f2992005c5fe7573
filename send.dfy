/** `SendBuilder<(Program, Payload, Value, Delay, GasLimit, ReservationId)>`
    (src/generated/send.rs): a consumed-and-rebuilt tuple of slots, one modifier per optional
    slot, and one `execute` per dispatchable slot pattern. */
module GeneratedSend {
  import opened Common
  import opened Gstd

  datatype SendBuilder<E> = SendBuilder(
    program: ActorId,
    payload: Payload<E>,
    value: Option<u128>,
    delay: Option<u32>,
    gasLimit: Option<u64>,
    reservationId: Option<ReservationId>)
  {
    /** No optional slot is filled yet. */
    predicate Unconfigured()
    {
      value.None? && delay.None? && gasLimit.None? && reservationId.None?
    }

    predicate Filled(s: Slot)
    {
      match s
      case ValueSlot => value.Some?
      case DelaySlot => delay.Some?
      case GasLimitSlot => gasLimit.Some?
      case ReservationSlot => reservationId.Some?
    }

    /** The slot of `m` holds `m`'s argument. */
    predicate Holds(m: Modifier)
    {
      match m
      case SetValue(v) => value == Some(v)
      case SetDelay(d) => delay == Some(d)
      case SetGasLimit(g) => gasLimit == Some(g)
      case SetGasFromReservation(id) => reservationId == Some(id)
    }

    /** What the modifiers' impl bounds keep true: an explicit gas limit and a reservation
        are never both set, and only a byte or encodable payload carries a reservation. */
    predicate Invariant()
    {
      && !(gasLimit.Some? && reservationId.Some?)
      && (reservationId.Some? ==> GasFromReservationMarker(payload))
    }

    static function Bytes(program: ActorId, payload: seq<u8>): (b: SendBuilder<E>)
      ensures b.program == program && b.payload == PayloadBytes(payload)
      ensures b.Unconfigured() && b.Invariant() && b.Dispatchable()
    {
      SendBuilder(program, PayloadBytes(payload), None, None, None, None)
    }

    static function Encode(program: ActorId, payload: E): (b: SendBuilder<E>)
      ensures b.program == program && b.payload == PayloadEncodable(payload)
      ensures b.Unconfigured() && b.Invariant() && b.Dispatchable()
    {
      SendBuilder(program, PayloadEncodable(payload), None, None, None, None)
    }

    static function Input(program: ActorId, payload: InputRange): (b: SendBuilder<E>)
      ensures b.program == program && b.payload == PayloadInput(payload)
      ensures b.Unconfigured() && b.Invariant() && b.Dispatchable()
    {
      SendBuilder(program, PayloadInput(payload), None, None, None, None)
    }

    /** Offered while the value slot is unset. */
    function WithValue(v: u128): (r: SendBuilder<E>)
      requires Offers(SetValue(v))
      ensures r.value == Some(v) && r.(value := None) == this
      ensures Invariant() ==> r.Invariant()
    {
      SendBuilder(program, payload, Some(v), delay, gasLimit, reservationId)
    }

    /** Offered while the delay slot is unset. */
    function WithDelay(d: u32): (r: SendBuilder<E>)
      requires Offers(SetDelay(d))
      ensures r.delay == Some(d) && r.(delay := None) == this
      ensures Invariant() ==> r.Invariant()
    {
      SendBuilder(program, payload, value, Some(d), gasLimit, reservationId)
    }

    /** Offered while neither the gas limit nor the reservation is set. */
    function WithGasLimit(g: u64): (r: SendBuilder<E>)
      requires Offers(SetGasLimit(g))
      ensures r.gasLimit == Some(g) && r.(gasLimit := None) == this
      ensures Invariant() ==> r.Invariant()
    {
      SendBuilder(program, payload, value, delay, Some(g), reservationId)
    }

    /** Offered while neither the gas limit nor the reservation is set, and only for a
        byte or encodable payload. */
    function WithGasFromReservation(id: ReservationId): (r: SendBuilder<E>)
      requires Offers(SetGasFromReservation(id))
      ensures r.reservationId == Some(id) && r.(reservationId := None) == this
      ensures Invariant() ==> r.Invariant()
    {
      SendBuilder(program, payload, value, delay, gasLimit, Some(id))
    }

    /** The builder its entry constructor made: the same target and payload, no optional slot. */
    function Origin(): SendBuilder<E>
    {
      SendBuilder(program, payload, None, None, None, None)
    }

    /** A chain of modifier calls that fills exactly the slots this builder has filled. */
    function Modifiers(): seq<Modifier>
    {
      (if value.Some? then [SetValue(value.value)] else [])
      + (if delay.Some? then [SetDelay(delay.value)] else [])
      + (if gasLimit.Some? then [SetGasLimit(gasLimit.value)] else [])
      + (if reservationId.Some? then [SetGasFromReservation(reservationId.value)] else [])
    }

    /** Whether the builder in its current state offers the modifier `m`: the bound of that
        modifier's impl header, which is the `requires` of its `With` function. */
    predicate Offers(m: Modifier)
    {
      match m
      case SetValue(_) => value.None?
      case SetDelay(_) => delay.None?
      case SetGasLimit(_) => gasLimit.None? && reservationId.None?
      case SetGasFromReservation(_) =>
        reservationId.None? && gasLimit.None? && GasFromReservationMarker(payload)
    }

    function Apply(m: Modifier): (r: SendBuilder<E>)
      requires Offers(m)
      ensures !Filled(m.Slot()) && r.Holds(m)
      ensures forall s :: r.Filled(s) <==> Filled(s) || s == m.Slot()
      ensures forall m': Modifier :: m'.Slot() != m.Slot() ==> (r.Holds(m') <==> Holds(m'))
      ensures r.program == program && r.payload == payload
      ensures Invariant() ==> r.Invariant()
    {
      match m
      case SetValue(v) => WithValue(v)
      case SetDelay(d) => WithDelay(d)
      case SetGasLimit(g) => WithGasLimit(g)
      case SetGasFromReservation(id) => WithGasFromReservation(id)
    }

    /** The builder after the chained calls `ms`, or None when some call in the chain is
        not offered at its point (the chain does not compile). */
    function Chain(ms: seq<Modifier>): Option<SendBuilder<E>>
      decreases |ms|
    {
      if ms == [] then Some(this)
      else if Offers(ms[0]) then Apply(ms[0]).Chain(ms[1..])
      else None
    }

    /** The slot patterns that have an `execute` impl: any value and any delay, with no gas
        policy, a gas limit, or (byte and encodable payloads only) a reservation. */
    function Dispatchable(): (d: bool)
      ensures d <==> Invariant()
    {
      match payload
      case PayloadInput(_) => reservationId.None?
      case _ => gasLimit.None? || reservationId.None?
    }

    /** The slots as the primitive receives them; an unset value becomes 0. */
    function AsSlots(): Slots<E>
    {
      Slots(Some(ActorIdArg(program)), payload, IntoValue(value), gasLimit, delay, reservationId)
    }

    /** The 16 `execute` impls, grouped by payload: the delay picks a `_delayed` primitive,
        the gas limit a `_with_gas` one and the reservation a `_from_reservation` one, and the
        slots are passed in gstd's parameter order with an unset value as 0. */
    function Execute(): (c: Call<E>)
      requires Dispatchable()
      ensures c == Convention(SendOp, AsSlots())
      ensures Available(c.primitive)
    {
      match payload
      case PayloadBytes(_) => ExecuteBytes()
      case PayloadEncodable(_) => ExecuteEncodable()
      case PayloadInput(_) => ExecuteInput()
    }

    /** The six impls for `PayloadBytesW`. */
    function ExecuteBytes(): (c: Call<E>)
      requires Dispatchable() && payload.PayloadBytes?
      ensures c == Convention(SendOp, AsSlots())
      ensures Available(c.primitive)
    {
      var v := IntoValue(value);
      var p := PayloadArg(payload);
      match (delay, gasLimit, reservationId)
      case (None, None, None) =>
        Call(SendBytes, [ActorIdArg(program), p, ValueArg(v)])
      case (None, None, Some(id)) =>
        Call(SendBytesFromReservation, [ReservationIdArg(id), ActorIdArg(program), p, ValueArg(v)])
      case (None, Some(g), None) =>
        Call(SendBytesWithGas, [ActorIdArg(program), p, GasLimitArg(g), ValueArg(v)])
      case (Some(d), None, None) =>
        Call(SendBytesDelayed, [ActorIdArg(program), p, ValueArg(v), DelayArg(d)])
      case (Some(d), None, Some(id)) =>
        Call(SendBytesDelayedFromReservation,
             [ReservationIdArg(id), ActorIdArg(program), p, ValueArg(v), DelayArg(d)])
      case (Some(d), Some(g), None) =>
        Call(SendBytesWithGasDelayed, [ActorIdArg(program), p, GasLimitArg(g), ValueArg(v), DelayArg(d)])
    }

    /** The six impls for `PayloadEncodableW`. */
    function ExecuteEncodable(): (c: Call<E>)
      requires Dispatchable() && payload.PayloadEncodable?
      ensures c == Convention(SendOp, AsSlots())
      ensures Available(c.primitive)
    {
      var v := IntoValue(value);
      var p := PayloadArg(payload);
      match (delay, gasLimit, reservationId)
      case (None, None, None) =>
        Call(Send, [ActorIdArg(program), p, ValueArg(v)])
      case (None, None, Some(id)) =>
        Call(SendFromReservation, [ReservationIdArg(id), ActorIdArg(program), p, ValueArg(v)])
      case (None, Some(g), None) =>
        Call(SendWithGas, [ActorIdArg(program), p, GasLimitArg(g), ValueArg(v)])
      case (Some(d), None, None) =>
        Call(SendDelayed, [ActorIdArg(program), p, ValueArg(v), DelayArg(d)])
      case (Some(d), None, Some(id)) =>
        Call(SendDelayedFromReservation,
             [ReservationIdArg(id), ActorIdArg(program), p, ValueArg(v), DelayArg(d)])
      case (Some(d), Some(g), None) =>
        Call(SendWithGasDelayed, [ActorIdArg(program), p, GasLimitArg(g), ValueArg(v), DelayArg(d)])
    }

    /** The four impls for `PayloadInputW`: the value comes before the range. */
    function ExecuteInput(): (c: Call<E>)
      requires Dispatchable() && payload.PayloadInput?
      ensures c == Convention(SendOp, AsSlots())
      ensures Available(c.primitive)
    {
      var v := IntoValue(value);
      var p := PayloadArg(payload);
      match (delay, gasLimit)
      case (None, None) =>
        Call(SendInput, [ActorIdArg(program), ValueArg(v), p])
      case (None, Some(g)) =>
        Call(SendInputWithGas, [ActorIdArg(program), GasLimitArg(g), ValueArg(v), p])
      case (Some(d), None) =>
        Call(SendInputDelayed, [ActorIdArg(program), ValueArg(v), p, DelayArg(d)])
      case (Some(d), Some(g)) =>
        Call(SendInputWithGasDelayed, [ActorIdArg(program), GasLimitArg(g), ValueArg(v), p, DelayArg(d)])
    }
  }

  /** Chaining `ms` and then `ns` is chaining `ms + ns`. */
  lemma {:induction false} ChainConcat<E>(b: SendBuilder<E>, ms: seq<Modifier>, ns: seq<Modifier>)
    ensures b.Chain(ms + ns) == if b.Chain(ms).Some? then b.Chain(ms).value.Chain(ns) else None
    decreases |ms|
  {
    if ms == [] {
      assert ms + ns == ns;
    } else {
      assert (ms + ns)[0] == ms[0];
      assert (ms + ns)[1..] == ms[1..] + ns;
      if b.Offers(ms[0]) {
        ChainConcat(b.Apply(ms[0]), ms[1..], ns);
      }
    }
  }

  /** The impl bounds keep gas limit and reservation exclusive, and reservations off input
      payloads, through any chain of modifier calls. */
  lemma {:induction false} ChainKeepsInvariant<E>(b: SendBuilder<E>, ms: seq<Modifier>)
    requires b.Invariant() && b.Chain(ms).Some?
    ensures b.Chain(ms).value.Invariant()
    decreases |ms|
  {
    if ms != [] {
      ChainKeepsInvariant(b.Apply(ms[0]), ms[1..]);
    }
  }

  /** A filled slot keeps its content through any chain of modifier calls. */
  lemma {:induction false} ChainKeepsHeld<E>(b: SendBuilder<E>, ms: seq<Modifier>, m: Modifier)
    requires b.Holds(m) && b.Chain(ms).Some?
    ensures b.Chain(ms).value.Holds(m)
    decreases |ms|
  {
    if ms != [] {
      assert b.Filled(m.Slot());
      ChainKeepsHeld(b.Apply(ms[0]), ms[1..], m);
    }
  }

  /** Set-once: along a chain that compiles, each slot is filled at most once (never if it
      was already filled), exactly the supplied slots become filled, each holds the argument
      it was given, and the target and payload never change. */
  lemma {:induction false} ChainRecordsModifiers<E>(b: SendBuilder<E>, ms: seq<Modifier>)
    requires b.Chain(ms).Some?
    ensures var r := b.Chain(ms).value;
      && r.program == b.program && r.payload == b.payload
      && (forall s :: Count(ms, s) + (if b.Filled(s) then 1 else 0) <= 1)
      && (forall s :: r.Filled(s) <==> b.Filled(s) || Count(ms, s) == 1)
      && (forall i :: 0 <= i < |ms| ==> r.Holds(ms[i]))
    decreases |ms|
  {
    if ms != [] {
      var b' := b.Apply(ms[0]);
      var r := b.Chain(ms).value;
      ChainRecordsModifiers(b', ms[1..]);
      ChainKeepsHeld(b', ms[1..], ms[0]);
      forall i | 0 <= i < |ms|
        ensures r.Holds(ms[i])
      {
        if i > 0 {
          assert ms[i] == ms[1..][i - 1];
        }
      }
    }
  }

  /** A slot that no call in `ms` fills keeps its content through the chain. */
  lemma {:induction false} ChainFrames<E>(b: SendBuilder<E>, ms: seq<Modifier>, m: Modifier)
    requires b.Chain(ms).Some? && Count(ms, m.Slot()) == 0
    ensures b.Chain(ms).value.Holds(m) <==> b.Holds(m)
    decreases |ms|
  {
    if ms != [] {
      ChainFrames(b.Apply(ms[0]), ms[1..], m);
    }
  }

  /** What a chain leaves in a slot, any other chain of the same calls in another order
      leaves there too. */
  lemma HeldTransfers<E>(b: SendBuilder<E>, ms: seq<Modifier>, ns: seq<Modifier>, m: Modifier)
    requires b.Chain(ms).Some? && b.Chain(ns).Some? && multiset(ms) == multiset(ns)
    requires b.Chain(ms).value.Holds(m)
    ensures b.Chain(ns).value.Holds(m)
  {
    var r := b.Chain(ms).value;
    ChainRecordsModifiers(b, ms);
    ChainRecordsModifiers(b, ns);
    if Count(ms, m.Slot()) == 0 {
      ChainFrames(b, ms, m);
      ChainKeepsHeld(b, ns, m);
    } else {
      CountWitness(ms, m.Slot());
      var i :| 0 <= i < |ms| && ms[i].Slot() == m.Slot();
      assert r.Holds(ms[i]);
      assert ms[i] == m;
      assert m in multiset(ns);
      var j :| 0 <= j < |ns| && ns[j] == m;
    }
  }

  /** The order of the modifier calls does not matter: two chains of the same calls that
      both compile reach the same builder. */
  lemma ChainOrderIrrelevant<E>(b: SendBuilder<E>, ms: seq<Modifier>, ns: seq<Modifier>)
    requires b.Chain(ms).Some? && b.Chain(ns).Some? && multiset(ms) == multiset(ns)
    ensures b.Chain(ms) == b.Chain(ns)
  {
    var r1, r2 := b.Chain(ms).value, b.Chain(ns).value;
    ChainRecordsModifiers(b, ms);
    ChainRecordsModifiers(b, ns);
    if r1.value.Some? { HeldTransfers(b, ms, ns, SetValue(r1.value.value)); }
    if r2.value.Some? { HeldTransfers(b, ns, ms, SetValue(r2.value.value)); }
    if r1.delay.Some? { HeldTransfers(b, ms, ns, SetDelay(r1.delay.value)); }
    if r2.delay.Some? { HeldTransfers(b, ns, ms, SetDelay(r2.delay.value)); }
    if r1.gasLimit.Some? { HeldTransfers(b, ms, ns, SetGasLimit(r1.gasLimit.value)); }
    if r2.gasLimit.Some? { HeldTransfers(b, ns, ms, SetGasLimit(r2.gasLimit.value)); }
    if r1.reservationId.Some? { HeldTransfers(b, ms, ns, SetGasFromReservation(r1.reservationId.value)); }
    if r2.reservationId.Some? { HeldTransfers(b, ns, ms, SetGasFromReservation(r2.reservationId.value)); }
  }

  /** Every builder that a chain of modifier calls reaches from an entry constructor has an
      `execute` impl. */
  lemma ReachableIsDispatchable<E>(start: SendBuilder<E>, ms: seq<Modifier>)
    requires start.Unconfigured() && start.Chain(ms).Some?
    ensures start.Chain(ms).value.Dispatchable()
  {
    ChainKeepsInvariant(start, ms);
  }

  /** Every slot pattern with an `execute` impl is reached from the entry constructor's
      result by the modifier calls that fill its slots. */
  lemma DispatchableIsReachable<E>(b: SendBuilder<E>)
    requires b.Dispatchable()
    ensures b.Origin().Unconfigured() && b.Origin().Chain(b.Modifiers()) == Some(b)
    ensures b.payload.PayloadBytes? ==> b.Origin() == SendBuilder<E>.Bytes(b.program, b.payload.buffer)
    ensures b.payload.PayloadEncodable? ==> b.Origin() == SendBuilder<E>.Encode(b.program, b.payload.encodable)
    ensures b.payload.PayloadInput? ==> b.Origin() == SendBuilder<E>.Input(b.program, b.payload.range)
  {
    var o := b.Origin();
    var vs := if b.value.Some? then [SetValue(b.value.value)] else [];
    var ds := if b.delay.Some? then [SetDelay(b.delay.value)] else [];
    var gs := if b.gasLimit.Some? then [SetGasLimit(b.gasLimit.value)] else [];
    var rs := if b.reservationId.Some? then [SetGasFromReservation(b.reservationId.value)] else [];
    var o1 := o.(value := b.value);
    var o2 := o1.(delay := b.delay);
    var o3 := o2.(gasLimit := b.gasLimit);
    assert o.Chain(vs) == Some(o1);
    assert o1.Chain(ds) == Some(o2);
    assert o2.Chain(gs) == Some(o3);
    assert o3.Chain(rs) == Some(b);
    ChainConcat(o, vs, ds);
    ChainConcat(o, vs + ds, gs);
    ChainConcat(o, vs + ds + gs, rs);
  }

  /** `execute` loses nothing but whether the value was set explicitly: two builders that
      make the same call agree on every slot, and on the value once it is defaulted. */
  lemma ExecuteDeterminesBuilder<E>(b1: SendBuilder<E>, b2: SendBuilder<E>)
    requires b1.Dispatchable() && b2.Dispatchable() && b1.Execute() == b2.Execute()
    ensures b1.(value := None) == b2.(value := None)
    ensures IntoValue(b1.value) == IntoValue(b2.value)
  {
  }

  /** Every send primitive is the target of some builder's `execute`. */
  lemma EveryPrimitiveDispatched<E>(p: Primitive, program: ActorId, payload: Payload<E>)
    requires p.op == SendOp && Available(p) && KindOf(payload) == p.kind
    ensures exists b: SendBuilder<E> :: b.Dispatchable() && b.Execute().primitive == p
  {
    var id := ReservationId(seq(32, _ => 0));
    var b := SendBuilder(program, payload, None,
      if p.delayed then Some(0) else None,
      if p.gas == WithGas then Some(0) else None,
      if p.gas == FromReservation then Some(id) else None);
    assert b.Dispatchable() && b.Execute().primitive == p;
  }
}
