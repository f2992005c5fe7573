/** `CreateProgramBuilder<(CodeId, Payload, Value, Delay, GasLimit)>`
    (src/generated/create_program.rs): the target is a code id, there is no reservation
    slot, and every `execute` impl takes a byte payload. */
module GeneratedCreateProgram {
  import opened Common
  import opened Gstd

  datatype CreateProgramBuilder<E> = CreateProgramBuilder(
    codeId: CodeId,
    payload: Payload<E>,
    value: Option<u128>,
    delay: Option<u32>,
    gasLimit: Option<u64>)
  {
    /** No optional slot is filled yet. */
    predicate Unconfigured()
    {
      value.None? && delay.None? && gasLimit.None?
    }

    /** A program creation has no reservation slot. */
    predicate Filled(s: Slot)
    {
      match s
      case ValueSlot => value.Some?
      case DelaySlot => delay.Some?
      case GasLimitSlot => gasLimit.Some?
      case ReservationSlot => false
    }

    /** The slot of `m` holds `m`'s argument. */
    predicate Holds(m: Modifier)
    {
      match m
      case SetValue(v) => value == Some(v)
      case SetDelay(d) => delay == Some(d)
      case SetGasLimit(g) => gasLimit == Some(g)
      case SetGasFromReservation(_) => false
    }

    /** `bytes` is the only entry constructor: it stores a code id and a byte payload. */
    static function Bytes(codeId: CodeId, payload: seq<u8>): (b: CreateProgramBuilder<E>)
      ensures b.codeId == codeId && b.payload == PayloadBytes(payload)
      ensures b.Unconfigured() && b.Dispatchable()
    {
      CreateProgramBuilder(codeId, PayloadBytes(payload), None, None, None)
    }

    /** Offered while the value slot is unset. */
    function WithValue(v: u128): (r: CreateProgramBuilder<E>)
      requires Offers(SetValue(v))
      ensures r.value == Some(v) && r.(value := None) == this
      ensures Dispatchable() ==> r.Dispatchable()
    {
      CreateProgramBuilder(codeId, payload, Some(v), delay, gasLimit)
    }

    /** Offered while the delay slot is unset. */
    function WithDelay(d: u32): (r: CreateProgramBuilder<E>)
      requires Offers(SetDelay(d))
      ensures r.delay == Some(d) && r.(delay := None) == this
      ensures Dispatchable() ==> r.Dispatchable()
    {
      CreateProgramBuilder(codeId, payload, value, Some(d), gasLimit)
    }

    /** Offered while the gas limit slot is unset. */
    function WithGasLimit(g: u64): (r: CreateProgramBuilder<E>)
      requires Offers(SetGasLimit(g))
      ensures r.gasLimit == Some(g) && r.(gasLimit := None) == this
      ensures Dispatchable() ==> r.Dispatchable()
    {
      CreateProgramBuilder(codeId, payload, value, delay, Some(g))
    }

    /** The builder its entry constructor made: the same code id and payload, no optional slot. */
    function Origin(): CreateProgramBuilder<E>
    {
      CreateProgramBuilder(codeId, payload, None, None, None)
    }

    /** A chain of modifier calls that fills exactly the slots this builder has filled. */
    function Modifiers(): seq<Modifier>
    {
      (if value.Some? then [SetValue(value.value)] else [])
      + (if delay.Some? then [SetDelay(delay.value)] else [])
      + (if gasLimit.Some? then [SetGasLimit(gasLimit.value)] else [])
    }

    /** Whether the builder in its current state offers the modifier `m`: the bound of that
        modifier's impl header, which is the `requires` of its `With` function; there is no
        `with_gas_from_reservation` on a program creation. */
    predicate Offers(m: Modifier)
    {
      match m
      case SetValue(_) => value.None?
      case SetDelay(_) => delay.None?
      case SetGasLimit(_) => gasLimit.None?
      case SetGasFromReservation(_) => false
    }

    function Apply(m: Modifier): (r: CreateProgramBuilder<E>)
      requires Offers(m)
      ensures !Filled(m.Slot()) && r.Holds(m)
      ensures forall s :: r.Filled(s) <==> Filled(s) || s == m.Slot()
      ensures forall m': Modifier :: m'.Slot() != m.Slot() ==> (r.Holds(m') <==> Holds(m'))
      ensures r.codeId == codeId && r.payload == payload
    {
      match m
      case SetValue(v) => WithValue(v)
      case SetDelay(d) => WithDelay(d)
      case SetGasLimit(g) => WithGasLimit(g)
    }

    /** The builder after the chained calls `ms`, or None when some call in the chain is
        not offered at its point (the chain does not compile). */
    function Chain(ms: seq<Modifier>): Option<CreateProgramBuilder<E>>
      decreases |ms|
    {
      if ms == [] then Some(this)
      else if Offers(ms[0]) then Apply(ms[0]).Chain(ms[1..])
      else None
    }

    /** The `execute` impls cover every value, delay and gas limit pattern, for a byte
        payload only. */
    function Dispatchable(): (d: bool)
      ensures d <==> KindOf(payload) == BytesKind
    {
      payload.PayloadBytes?
    }

    /** The slots as the primitive receives them; an unset value becomes 0. */
    function AsSlots(): Slots<E>
    {
      Slots(Some(CodeIdArg(codeId)), payload, IntoValue(value), gasLimit, delay, None)
    }

    /** The eight `execute` impls: the gas limit picks a `_with_gas` primitive and the delay a
        `_delayed` one; an unset value is passed as the literal 0. */
    function Execute(): (c: Call<E>)
      requires Dispatchable()
      ensures c == Convention(CreateProgramOp, AsSlots())
      ensures Available(c.primitive)
    {
      var code := CodeIdArg(codeId);
      var p := PayloadArg(payload);
      match (value, delay, gasLimit)
      case (None, None, None) => Call(CreateProgram, [code, p, ValueArg(0)])
      case (None, None, Some(g)) => Call(CreateProgramWithGas, [code, p, GasLimitArg(g), ValueArg(0)])
      case (None, Some(d), None) => Call(CreateProgramDelayed, [code, p, ValueArg(0), DelayArg(d)])
      case (None, Some(d), Some(g)) => Call(CreateProgramWithGasDelayed, [code, p, GasLimitArg(g), ValueArg(0), DelayArg(d)])
      case (Some(v), None, None) => Call(CreateProgram, [code, p, ValueArg(v)])
      case (Some(v), None, Some(g)) => Call(CreateProgramWithGas, [code, p, GasLimitArg(g), ValueArg(v)])
      case (Some(v), Some(d), None) => Call(CreateProgramDelayed, [code, p, ValueArg(v), DelayArg(d)])
      case (Some(v), Some(d), Some(g)) => Call(CreateProgramWithGasDelayed, [code, p, GasLimitArg(g), ValueArg(v), DelayArg(d)])
    }
  }

  /** Chaining `ms` and then `ns` is chaining `ms + ns`. */
  lemma {:induction false} ChainConcat<E>(b: CreateProgramBuilder<E>, ms: seq<Modifier>, ns: seq<Modifier>)
    ensures b.Chain(ms + ns) == if b.Chain(ms).Some? then b.Chain(ms).value.Chain(ns) else None
    decreases |ms|
  {
    if ms == [] {
      assert ms + ns == ns;
    } else {
      assert (ms + ns)[0] == ms[0];
      assert (ms + ns)[1..] == ms[1..] + ns;
      if b.Offers(ms[0]) {
        ChainConcat(b.Apply(ms[0]), ms[1..], ns);
      }
    }
  }

  /** A filled slot keeps its content through any chain of modifier calls. */
  lemma {:induction false} ChainKeepsHeld<E>(b: CreateProgramBuilder<E>, ms: seq<Modifier>, m: Modifier)
    requires b.Holds(m) && b.Chain(ms).Some?
    ensures b.Chain(ms).value.Holds(m)
    decreases |ms|
  {
    if ms != [] {
      assert b.Filled(m.Slot());
      ChainKeepsHeld(b.Apply(ms[0]), ms[1..], m);
    }
  }

  /** Set-once: along a chain that compiles, each slot is filled at most once (never if it
      was already filled, and the reservation never), exactly the supplied slots become
      filled, each holds the argument it was given, and the code id and payload never change. */
  lemma {:induction false} ChainRecordsModifiers<E>(b: CreateProgramBuilder<E>, ms: seq<Modifier>)
    requires b.Chain(ms).Some?
    ensures var r := b.Chain(ms).value;
      && r.codeId == b.codeId && r.payload == b.payload
      && Count(ms, ReservationSlot) == 0
      && (forall s :: Count(ms, s) + (if b.Filled(s) then 1 else 0) <= 1)
      && (forall s :: r.Filled(s) <==> b.Filled(s) || Count(ms, s) == 1)
      && (forall i :: 0 <= i < |ms| ==> r.Holds(ms[i]))
    decreases |ms|
  {
    if ms != [] {
      var b' := b.Apply(ms[0]);
      var r := b.Chain(ms).value;
      ChainRecordsModifiers(b', ms[1..]);
      ChainKeepsHeld(b', ms[1..], ms[0]);
      forall i | 0 <= i < |ms|
        ensures r.Holds(ms[i])
      {
        if i > 0 {
          assert ms[i] == ms[1..][i - 1];
        }
      }
    }
  }

  /** A slot that no call in `ms` fills keeps its content through the chain. */
  lemma {:induction false} ChainFrames<E>(b: CreateProgramBuilder<E>, ms: seq<Modifier>, m: Modifier)
    requires b.Chain(ms).Some? && Count(ms, m.Slot()) == 0
    ensures b.Chain(ms).value.Holds(m) <==> b.Holds(m)
    decreases |ms|
  {
    if ms != [] {
      ChainFrames(b.Apply(ms[0]), ms[1..], m);
    }
  }

  /** What a chain leaves in a slot, any other chain of the same calls in another order
      leaves there too. */
  lemma HeldTransfers<E>(b: CreateProgramBuilder<E>, ms: seq<Modifier>, ns: seq<Modifier>, m: Modifier)
    requires b.Chain(ms).Some? && b.Chain(ns).Some? && multiset(ms) == multiset(ns)
    requires b.Chain(ms).value.Holds(m)
    ensures b.Chain(ns).value.Holds(m)
  {
    var r := b.Chain(ms).value;
    ChainRecordsModifiers(b, ms);
    ChainRecordsModifiers(b, ns);
    if Count(ms, m.Slot()) == 0 {
      ChainFrames(b, ms, m);
      ChainKeepsHeld(b, ns, m);
    } else {
      CountWitness(ms, m.Slot());
      var i :| 0 <= i < |ms| && ms[i].Slot() == m.Slot();
      assert r.Holds(ms[i]);
      assert ms[i] == m;
      assert m in multiset(ns);
      var j :| 0 <= j < |ns| && ns[j] == m;
    }
  }

  /** The order of the modifier calls does not matter: two chains of the same calls that
      both compile reach the same builder. */
  lemma ChainOrderIrrelevant<E>(b: CreateProgramBuilder<E>, ms: seq<Modifier>, ns: seq<Modifier>)
    requires b.Chain(ms).Some? && b.Chain(ns).Some? && multiset(ms) == multiset(ns)
    ensures b.Chain(ms) == b.Chain(ns)
  {
    var r1, r2 := b.Chain(ms).value, b.Chain(ns).value;
    ChainRecordsModifiers(b, ms);
    ChainRecordsModifiers(b, ns);
    if r1.value.Some? { HeldTransfers(b, ms, ns, SetValue(r1.value.value)); }
    if r2.value.Some? { HeldTransfers(b, ns, ms, SetValue(r2.value.value)); }
    if r1.delay.Some? { HeldTransfers(b, ms, ns, SetDelay(r1.delay.value)); }
    if r2.delay.Some? { HeldTransfers(b, ns, ms, SetDelay(r2.delay.value)); }
    if r1.gasLimit.Some? { HeldTransfers(b, ms, ns, SetGasLimit(r1.gasLimit.value)); }
    if r2.gasLimit.Some? { HeldTransfers(b, ns, ms, SetGasLimit(r2.gasLimit.value)); }
  }

  /** Every chain of modifier calls that compiles on a fresh `bytes` builder ends in a
      builder with an `execute` impl. */
  lemma {:induction false} ReachableIsDispatchable<E>(codeId: CodeId, payload: seq<u8>, ms: seq<Modifier>)
    requires CreateProgramBuilder<E>.Bytes(codeId, payload).Chain(ms).Some?
    ensures CreateProgramBuilder<E>.Bytes(codeId, payload).Chain(ms).value.Dispatchable()
  {
    ChainRecordsModifiers(CreateProgramBuilder<E>.Bytes(codeId, payload), ms);
  }

  /** Every slot pattern with an `execute` impl is reached from `bytes` by the modifier calls
      that fill its slots. */
  lemma DispatchableIsReachable<E>(b: CreateProgramBuilder<E>)
    requires b.Dispatchable()
    ensures b.Origin() == CreateProgramBuilder<E>.Bytes(b.codeId, b.payload.buffer)
    ensures b.Origin().Chain(b.Modifiers()) == Some(b)
  {
    var o := b.Origin();
    var vs := if b.value.Some? then [SetValue(b.value.value)] else [];
    var ds := if b.delay.Some? then [SetDelay(b.delay.value)] else [];
    var gs := if b.gasLimit.Some? then [SetGasLimit(b.gasLimit.value)] else [];
    var o1 := o.(value := b.value);
    var o2 := o1.(delay := b.delay);
    assert o.Chain(vs) == Some(o1);
    assert o1.Chain(ds) == Some(o2);
    assert o2.Chain(gs) == Some(b);
    ChainConcat(o, vs, ds);
    ChainConcat(o, vs + ds, gs);
  }

  /** `execute` loses nothing but whether the value was set explicitly. */
  lemma ExecuteDeterminesBuilder<E>(b1: CreateProgramBuilder<E>, b2: CreateProgramBuilder<E>)
    requires b1.Dispatchable() && b2.Dispatchable() && b1.Execute() == b2.Execute()
    ensures b1.(value := None) == b2.(value := None)
    ensures IntoValue(b1.value) == IntoValue(b2.value)
  {
  }

  /** Every program-creation primitive is the target of some builder's `execute`. */
  lemma EveryPrimitiveDispatched<E>(p: Primitive, codeId: CodeId, payload: seq<u8>)
    requires p.op == CreateProgramOp && Available(p)
    ensures exists b: CreateProgramBuilder<E> :: b.Dispatchable() && b.Execute().primitive == p
  {
    var b: CreateProgramBuilder<E> := CreateProgramBuilder(codeId, PayloadBytes(payload), None,
      if p.delayed then Some(0) else None,
      if p.gas == WithGas then Some(0) else None);
    assert b.Dispatchable() && b.Execute().primitive == p;
  }
}
