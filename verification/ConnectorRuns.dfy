/**
 The connector over whole runs (internal/connector/connector.go), told by the steps
 themselves: what becomes of every event between a provider's publish and a subscriber,
 and when a subscription or a provider is closed.
 */
module ConnectorRuns {
  import opened Lists
  import opened ConnectorModel
  import O = ConnectorOpen

  ghost predicate StepAt(sts: seq<State>, ops: seq<Op>, i: int)
    requires |sts| == |ops| + 1 && 0 <= i < |ops|
  {
    Enabled(sts[i], ops[i]) && sts[i + 1] == Step(sts[i], ops[i])
  }

  /** The states of a run from the start, one more than it has steps. */
  ghost predicate Run(sts: seq<State>, ops: seq<Op>) {
    |sts| == |ops| + 1 && sts[0] == Init() && forall i | 0 <= i < |ops| :: StepAt(sts, ops, i)
  }

  /** Every run in the sense of ConnectorModel has its states. */
  lemma {:induction false} StatesOf(st: State, ops: seq<Op>, end: State) returns (sts: seq<State>)
    requires Reaches(st, ops, end)
    ensures |sts| == |ops| + 1 && sts[0] == st && sts[|ops|] == end
    ensures forall i | 0 <= i < |ops| :: StepAt(sts, ops, i)
    decreases |ops|
  {
    if ops == [] {
      sts := [st];
    } else {
      var rest := StatesOf(Step(st, ops[0]), ops[1..], end);
      sts := [st] + rest;
      forall i | 0 <= i < |ops| ensures StepAt(sts, ops, i) {
        if i > 0 {
          assert StepAt(rest, ops[1..], i - 1);
        }
      }
    }
  }

  lemma {:induction false} RunIsSound(sts: seq<State>, ops: seq<Op>, n: nat)
    requires Run(sts, ops) && n <= |ops|
    ensures Inv(sts[n]) && O.AllOpenInv(sts[n])
  {
    if n > 0 {
      RunIsSound(sts, ops, n - 1);
      assert StepAt(sts, ops, n - 1);
      StepKeepsInv(sts[n - 1], ops[n - 1]);
      O.StepKeepsOpen(sts[n - 1], ops[n - 1]);
    }
  }

  // ---------------------------------------------------------------- what a pump hands to a subscriber

  /** The pump's event is for `s`: it is open, of the pump's account. */
  predicate Hears(st: State, g: nat, s: nat) {
    && g in st.insts && s in st.info
    && st.insts[g].accountId == st.info[s].accountId && !st.info[s].flag
  }

  /** The event that the step hands to `s`, if it does and there is room. */
  predicate Gives(st: State, op: Op, s: nat) {
    && op.PumpDelivers? && Hears(st, op.g, s) && st.insts[op.g].pump.Holding?
    && |st.info[s].ch.buffer| < SUBSCRIBER_CAPACITY
  }

  /** Steps that leave every subscription as it is. */
  lemma SlotOpSpares(st: State, op: Op)
    requires Enabled(st, op) && SlotOp(op)
    ensures Step(st, op).info == st.info
  {
    O.SlotOpSparesSubs(st, op);
  }

  /**
   An open subscription of the pump's account with fewer than 32 events waiting gets
   exactly the pump's event appended; a full one and every other one stays as it is.
   */
  lemma DeliverHands(st: State, g: nat, s: nat)
    requires Inv(st) && O.AllOpenInv(st) && Enabled(st, PumpDelivers(g)) && s in st.info
    ensures var (sub, e, sub') := (st.info[s], st.insts[g].pump.e, Step(st, PumpDelivers(g)).info[s]);
            if Gives(st, PumpDelivers(g), s)
            then sub' == sub.(ch := sub.ch.(buffer := sub.ch.buffer + [e]), got := sub.got + [e])
            else sub' == sub
  {
    assert O.OpenInv(st, s) && SubInv(st, s);
    var a := st.insts[g].accountId;
    if a in st.subs {
      assert ListInv(st, a);
    }
  }

  lemma ListOpHands(st: State, op: Op, s: nat)
    requires Enabled(st, op) && (op.PumpSweeps? || op.Unsubscribe? || op.Subscribe?) && s in st.info && s != st.nextSub
    ensures s in Step(st, op).info
    ensures Step(st, op).info[s].got == st.info[s].got && Step(st, op).info[s].ch.buffer == st.info[s].ch.buffer
  {
  }

  lemma ConsumeHands(st: State, c: nat, s: nat)
    requires Enabled(st, Consume(c)) && s in st.info
    ensures s in Step(st, Consume(c)).info
    ensures var (sub, sub') := (st.info[s], Step(st, Consume(c)).info[s]);
            sub'.got == sub.got && |sub'.ch.buffer| == |sub.ch.buffer| - if s == c then 1 else 0
  {
  }

  lemma HandStep(st: State, op: Op, s: nat)
    requires Inv(st) && O.AllOpenInv(st) && Enabled(st, op) && s in st.info
    ensures s in Step(st, op).info
    ensures var (sub, sub') := (st.info[s], Step(st, op).info[s]);
            && sub'.got == sub.got + (if Gives(st, op, s) then [st.insts[op.g].pump.e] else [])
            && |sub'.got| - |sub'.ch.buffer| == |sub.got| - |sub.ch.buffer| + if op == Consume(s) then 1 else 0
  {
    if SlotOp(op) {
      SlotOpSpares(st, op);
    } else if op.PumpDelivers? {
      DeliverHands(st, op.g, s);
    } else if op.Consume? {
      ConsumeHands(st, op.s, s);
    } else {
      assert SubInv(st, s);
      ListOpHands(st, op, s);
    }
  }

  /** What the pumps handed to `s` while it was open and had room. */
  function Handed(sts: seq<State>, ops: seq<Op>, n: nat, s: nat): seq<Event>
    requires |sts| == |ops| + 1 && n <= |ops|
  {
    if n == 0 then []
    else
      Handed(sts, ops, n - 1, s)
        + if Gives(sts[n - 1], ops[n - 1], s) then [sts[n - 1].insts[ops[n - 1].g].pump.e] else []
  }

  function Consumed(ops: seq<Op>, n: nat, s: nat): nat
    requires n <= |ops|
  {
    if n == 0 then 0 else Consumed(ops, n - 1, s) + if ops[n - 1] == Consume(s) then 1 else 0
  }

  predicate Registers(st: State, op: Op, s: nat, a: string) {
    op == Subscribe(a) && st.nextSub == s
  }

  lemma SubscribeRegisters(st: State, b: string, s: nat, a: string)
    requires Inv(st)
    ensures var st' := Step(st, Subscribe(b));
            && (s in st'.info && st'.info[s].accountId == a
                <==> (s in st.info && st.info[s].accountId == a) || (b == a && st.nextSub == s))
            && st.nextSub !in st.info
            && st'.info[st.nextSub].got == [] && st'.info[st.nextSub].ch.buffer == [] && !st'.info[st.nextSub].flag
  {
    NextSubIsNew(st);
  }

  lemma OthersRegisterNone(st: State, op: Op, s: nat)
    requires Enabled(st, op) && !op.Subscribe?
    ensures s in Step(st, op).info <==> s in st.info
    ensures s in st.info ==> Step(st, op).info[s].accountId == st.info[s].accountId
  {
    if SlotOp(op) {
      SlotOpSpares(st, op);
    }
  }

  lemma RegisteredStep(st: State, op: Op, s: nat, a: string)
    requires Inv(st) && Enabled(st, op)
    ensures s in Step(st, op).info && Step(st, op).info[s].accountId == a
            <==> (s in st.info && st.info[s].accountId == a) || Registers(st, op, s, a)
    ensures Registers(st, op, s, a) ==>
              var sub := Step(st, op).info[s]; s !in st.info && sub.got == [] && sub.ch.buffer == [] && !sub.flag
  {
    if op.Subscribe? {
      SubscribeRegisters(st, op.accountId, s, a);
    } else {
      OthersRegisterNone(st, op, s);
    }
  }

  /** A subscription exists for an account exactly if a Subscribe made it. */
  lemma {:induction false} RegisteredIff(sts: seq<State>, ops: seq<Op>, n: nat, s: nat, a: string)
    requires Run(sts, ops) && n <= |ops|
    ensures s in sts[n].info && sts[n].info[s].accountId == a
            <==> exists k :: 0 <= k < n && Registers(sts[k], ops[k], s, a)
  {
    if n > 0 {
      RegisteredIff(sts, ops, n - 1, s, a);
      RegisteredNow(sts, ops, n - 1, s, a);
    }
  }

  lemma RegisteredNow(sts: seq<State>, ops: seq<Op>, n: nat, s: nat, a: string)
    requires Run(sts, ops) && n < |ops|
    ensures s in sts[n + 1].info && sts[n + 1].info[s].accountId == a
            <==> (s in sts[n].info && sts[n].info[s].accountId == a) || Registers(sts[n], ops[n], s, a)
  {
    RunIsSound(sts, ops, n);
    assert StepAt(sts, ops, n);
    RegisteredStep(sts[n], ops[n], s, a);
  }

  /** Nothing that was registered is forgotten. */
  lemma {:induction false} NotYet(sts: seq<State>, ops: seq<Op>, k: nat, n: nat, s: nat)
    requires Run(sts, ops) && k <= n <= |ops| && s !in sts[n].info
    ensures s !in sts[k].info
  {
    if k < n {
      RegisteredNow(sts, ops, n - 1, s, if s in sts[n - 1].info then sts[n - 1].info[s].accountId else "");
      NotYet(sts, ops, k, n - 1, s);
    }
  }

  lemma {:induction false} NothingHanded(sts: seq<State>, ops: seq<Op>, n: nat, s: nat)
    requires Run(sts, ops) && n <= |ops| && s !in sts[n].info
    ensures Handed(sts, ops, n, s) == [] && Consumed(ops, n, s) == 0
  {
    if n > 0 {
      NotYet(sts, ops, n - 1, n, s);
      assert StepAt(sts, ops, n - 1);
      NothingHanded(sts, ops, n - 1, s);
    }
  }

  lemma HandedNow(sts: seq<State>, ops: seq<Op>, n: nat, s: nat)
    requires Run(sts, ops) && n < |ops| && s in sts[n + 1].info
    ensures s in sts[n].info ==>
              var (sub, sub', given) := (sts[n].info[s], sts[n + 1].info[s], Gives(sts[n], ops[n], s));
              && sub'.got == sub.got + (if given then [sts[n].insts[ops[n].g].pump.e] else [])
              && |sub'.got| - |sub'.ch.buffer| == |sub.got| - |sub.ch.buffer| + if ops[n] == Consume(s) then 1 else 0
    ensures s !in sts[n].info ==>
              sts[n + 1].info[s].got == [] && sts[n + 1].info[s].ch.buffer == [] && ops[n].Subscribe?
  {
    assert StepAt(sts, ops, n);
    RunIsSound(sts, ops, n);
    if s in sts[n].info {
      HandStep(sts[n], ops[n], s);
    } else {
      RegisteredStep(sts[n], ops[n], s, sts[n + 1].info[s].accountId);
    }
  }

  lemma {:induction false} GotIsHanded(sts: seq<State>, ops: seq<Op>, n: nat, s: nat)
    requires Run(sts, ops) && n <= |ops| && s in sts[n].info
    ensures sts[n].info[s].got == Handed(sts, ops, n, s)
    ensures |sts[n].info[s].got| - |sts[n].info[s].ch.buffer| == Consumed(ops, n, s)
  {
    if n > 0 {
      HandedNow(sts, ops, n - 1, s);
      if s in sts[n - 1].info {
        GotIsHanded(sts, ops, n - 1, s);
      } else {
        NothingHanded(sts, ops, n - 1, s);
      }
    }
  }

  /**
   On every run a subscription got, in order, exactly the events that a pump of its
   account handed on while it was open and had fewer than 32 waiting; its channel holds
   those of them that the consumer has not taken.
   */
  lemma EveryEventIsHanded(sts: seq<State>, ops: seq<Op>, n: nat, s: nat)
    requires Run(sts, ops) && n <= |ops| && s in sts[n].info
    ensures var sub := sts[n].info[s];
            && sub.got == Handed(sts, ops, n, s)
            && Consumed(ops, n, s) <= |sub.got| && sub.ch.buffer == sub.got[Consumed(ops, n, s)..]
  {
    GotIsHanded(sts, ops, n, s);
    RunIsSound(sts, ops, n);
    assert SubInv(sts[n], s);
  }

  // ---------------------------------------------------------------- what a provider hands to its pump

  /** The provider publishes an event: an Emit, or the final event of its Disconnect. */
  predicate Publishes(st: State, op: Op, g: nat) {
    (op == Emit(g) || op == CloseWithFinalEvent(g)) && g in st.insts && !st.insts[g].provider.flag
  }

  /** And its channel has room for it. */
  predicate Enters(st: State, op: Op, g: nat) {
    Publishes(st, op, g) && |st.insts[g].provider.ch.buffer| < PROVIDER_CAPACITY
  }

  predicate Closes(op: Op, g: nat) {
    op == CloseQuietly(g) || op == CloseWithFinalEvent(g)
  }

  /** What a step tells a generation's provider and pump. */
  ghost predicate Told(st: State, op: Op, g: nat, i: Instance, i': Instance) {
    var (p, p') := (i.provider, i'.provider);
    && p'.emitted == p.emitted + (if Publishes(st, op, g) then 1 else 0)
    && (p'.flag <==> p.flag || Closes(op, g))
    && (op == PumpReceives(g) ==> p.ch.buffer != [] && !i.pump.Holding? && i'.pump == Holding(p.ch.buffer[0]))
    && (op == PumpDelivers(g) ==> i.pump.Holding? && !i'.pump.Holding?)
    && (op != PumpReceives(g) && op != PumpDelivers(g) ==>
          i.pump.Holding? == i'.pump.Holding? && (i.pump.Holding? ==> i'.pump == i.pump))
    && p'.ch.buffer == (if op == PumpReceives(g) && p.ch.buffer != [] then p.ch.buffer[1..] else p.ch.buffer)
         + if Enters(st, op, g) then [Event(g, p.emitted)] else []
  }

  /** The steps that move events of generation `g`. */
  predicate MovesEvents(op: Op, g: nat) {
    op == Emit(g) || op == PumpReceives(g) || op == PumpDelivers(g) || Closes(op, g)
  }

  ghost predicate SameEvents(i: Instance, i': Instance) {
    && i'.provider == i.provider
    && i.pump.Holding? == i'.pump.Holding? && (i.pump.Holding? ==> i'.pump == i.pump)
  }

  lemma SameIsTold(st: State, op: Op, g: nat, i: Instance, i': Instance)
    requires !MovesEvents(op, g) && SameEvents(i, i')
    ensures Told(st, op, g, i, i')
  {
  }

  lemma EmitTells(st: State, g: nat)
    requires g in st.insts && Consistent(g, st.insts[g])
    ensures Told(st, Emit(g), g, st.insts[g], st.insts[g].(provider := Emitted(st.insts[g].provider, g)))
  {
  }

  lemma CloseTells(st: State, g: nat)
    requires g in st.insts && Consistent(g, st.insts[g])
    ensures Told(st, CloseQuietly(g), g, st.insts[g], st.insts[g].(provider := Closed(st.insts[g].provider)))
    ensures Told(st, CloseWithFinalEvent(g), g, st.insts[g],
                 st.insts[g].(provider := Closed(Emitted(st.insts[g].provider, g))))
  {
  }

  lemma OwnShape(st: State, op: Op)
    requires Enabled(st, op) && Own(st, op).Some?
    ensures var (g, i) := Own(st, op).value; g in st.insts && Step(st, op) == Set(st, g, i)
  {
  }

  lemma ProviderOwn(st: State, op: Op, g: nat)
    requires Enabled(st, op) && (op == Emit(g) || Closes(op, g)) && Consistent(g, st.insts[g])
    ensures Own(st, op).Some? && Own(st, op).value.0 == g && Told(st, op, g, st.insts[g], Own(st, op).value.1)
  {
    if op == Emit(g) {
      EmitTells(st, g);
    } else {
      CloseTells(st, g);
    }
  }

  lemma ProviderTells(st: State, op: Op, g: nat)
    requires LifeInv(st) && Enabled(st, op) && (op == Emit(g) || Closes(op, g))
    ensures g in st.insts && g in Step(st, op).insts && Told(st, op, g, st.insts[g], Step(st, op).insts[g])
  {
    assert Consistent(g, st.insts[g]);
    ProviderOwn(st, op, g);
    OwnShape(st, op);
  }

  lemma ReceiveTells(st: State, g: nat)
    requires Enabled(st, PumpReceives(g))
    ensures var st' := Step(st, PumpReceives(g));
            g in st'.insts && Told(st, PumpReceives(g), g, st.insts[g], st'.insts[g])
  {
  }

  lemma DeliverTells(st: State, g: nat)
    requires Enabled(st, PumpDelivers(g))
    ensures var st' := Step(st, PumpDelivers(g));
            g in st'.insts && Told(st, PumpDelivers(g), g, st.insts[g], st'.insts[g])
  {
  }

  lemma OwnValueSame(st: State, op: Op)
    requires LifeInv(st) && Enabled(st, op) && Own(st, op).Some? && !MovesEvents(op, Own(st, op).value.0)
    ensures var (g, i) := Own(st, op).value; g in st.insts && SameEvents(st.insts[g], i)
  {
    if op.StartPump? {
      assert Consistent(op.g, st.insts[op.g]);
    }
  }

  lemma OwnSame(st: State, op: Op, g: nat)
    requires Inv(st) && Enabled(st, op) && Own(st, op).Some? && g in st.insts && !MovesEvents(op, g)
    ensures g in Step(st, op).insts && SameEvents(st.insts[g], Step(st, op).insts[g])
  {
    OwnShape(st, op);
    if Own(st, op).value.0 == g {
      OwnValueSame(st, op);
    }
  }

  lemma SlotSame(st: State, op: Op, g: nat)
    requires Inv(st) && Enabled(st, op) && g in st.insts
    requires op.ConnectFails? || op.Install? || op.Release? || op.PumpExits?
    ensures g in Step(st, op).insts && SameEvents(st.insts[g], Step(st, op).insts[g])
  {
    var i, instances := SlotShape(st, op);
  }

  lemma ReserveSame(st: State, a: string, g: nat)
    requires LifeInv(st) && g in st.insts
    ensures g in ReserveStep(st, a).insts && ReserveStep(st, a).insts[g] == st.insts[g]
  {
  }

  lemma PumpSame(st: State, op: Op, g: nat)
    requires Inv(st) && Enabled(st, op) && g in st.insts && !MovesEvents(op, g) && (op.PumpDelivers? || op.PumpSweeps?)
    ensures g in Step(st, op).insts && SameEvents(st.insts[g], Step(st, op).insts[g])
  {
  }

  lemma ListOpSame(st: State, op: Op)
    requires Enabled(st, op) && (op.Subscribe? || op.Unsubscribe? || op.Consume?)
    ensures Step(st, op).insts == st.insts
  {
  }

  lemma OthersSame(st: State, op: Op, g: nat)
    requires Inv(st) && Enabled(st, op) && g in st.insts && !MovesEvents(op, g)
    ensures g in Step(st, op).insts && SameEvents(st.insts[g], Step(st, op).insts[g])
  {
    if Own(st, op).Some? {
      OwnSame(st, op, g);
    } else if op.ConnectFails? || op.Install? || op.Release? || op.PumpExits? {
      SlotSame(st, op, g);
    } else if op.Reserve? {
      ReserveSame(st, op.accountId, g);
    } else if op.PumpDelivers? || op.PumpSweeps? {
      PumpSame(st, op, g);
    } else {
      ListOpSame(st, op);
    }
  }

  lemma StepTells(st: State, op: Op, g: nat)
    requires Inv(st) && Enabled(st, op) && g in st.insts
    ensures g in Step(st, op).insts && Told(st, op, g, st.insts[g], Step(st, op).insts[g])
  {
    if op == PumpReceives(g) {
      ReceiveTells(st, g);
    } else if op == PumpDelivers(g) {
      DeliverTells(st, g);
    } else if MovesEvents(op, g) {
      ProviderTells(st, op, g);
    } else {
      OthersSame(st, op, g);
      SameIsTold(st, op, g, st.insts[g], Step(st, op).insts[g]);
    }
  }

  /** The events of generation `g` that found room in its provider's channel. */
  function Entered(sts: seq<State>, ops: seq<Op>, n: nat, g: nat): seq<Event>
    requires |sts| == |ops| + 1 && n <= |ops|
  {
    if n == 0 then []
    else
      var (st, op) := (sts[n - 1], ops[n - 1]);
      Entered(sts, ops, n - 1, g) + if Enters(st, op, g) then [Event(g, st.insts[g].provider.emitted)] else []
  }

  /** The events that its pump handed on. */
  function Pumped(sts: seq<State>, ops: seq<Op>, n: nat, g: nat): seq<Event>
    requires |sts| == |ops| + 1 && n <= |ops|
  {
    if n == 0 then []
    else
      var (st, op) := (sts[n - 1], ops[n - 1]);
      Pumped(sts, ops, n - 1, g)
        + if op == PumpDelivers(g) && g in st.insts && st.insts[g].pump.Holding? then [st.insts[g].pump.e] else []
  }

  function InHand(i: Instance): seq<Event> {
    if i.pump.Holding? then [i.pump.e] else []
  }

  lemma PipeStep(i: Instance, i': Instance, st: State, op: Op, g: nat, entered: seq<Event>, pumped: seq<Event>)
    requires Told(st, op, g, i, i') && g in st.insts && st.insts[g] == i
    requires entered == pumped + InHand(i) + i.provider.ch.buffer
    ensures entered + (if Enters(st, op, g) then [Event(g, i.provider.emitted)] else [])
         == pumped + (if op == PumpDelivers(g) && i.pump.Holding? then [i.pump.e] else [])
              + InHand(i') + i'.provider.ch.buffer
  {
    if op == PumpReceives(g) {
      assert i.provider.ch.buffer == [i.provider.ch.buffer[0]] + i.provider.ch.buffer[1..];
    }
  }

  lemma GenerationStep(st: State, op: Op, g: nat)
    requires Inv(st) && Enabled(st, op) && g in Step(st, op).insts && g !in st.insts
    ensures var i := Step(st, op).insts[g];
            && op.Reserve? && !i.provider.flag && i.provider.emitted == 0
            && i.provider.ch.buffer == [] && !i.pump.Holding?
  {
    if Own(st, op).Some? {
      OwnShape(st, op);
    } else if op.ConnectFails? || op.Install? || op.Release? || op.PumpExits? {
      var i, instances := SlotShape(st, op);
    } else if op.Subscribe? || op.Unsubscribe? || op.Consume? {
      ListOpSame(st, op);
    }
  }

  lemma GenerationsStay(sts: seq<State>, ops: seq<Op>, n: nat, g: nat)
    requires Run(sts, ops) && n < |ops| && g in sts[n].insts
    ensures g in sts[n + 1].insts && Told(sts[n], ops[n], g, sts[n].insts[g], sts[n + 1].insts[g])
  {
    RunIsSound(sts, ops, n);
    assert StepAt(sts, ops, n);
    StepTells(sts[n], ops[n], g);
  }

  lemma {:induction false} NothingEntered(sts: seq<State>, ops: seq<Op>, n: nat, g: nat)
    requires Run(sts, ops) && n <= |ops| && g !in sts[n].insts
    ensures Entered(sts, ops, n, g) == [] && Pumped(sts, ops, n, g) == []
  {
    if n > 0 {
      if g in sts[n - 1].insts {
        GenerationsStay(sts, ops, n - 1, g);
      }
      NothingEntered(sts, ops, n - 1, g);
    }
  }

  /**
   On every run the events that found room in a provider's channel are, in order, those
   its pump has handed on, the one it holds, and those still in the channel.
   */
  lemma {:induction false} EveryEventIsPumped(sts: seq<State>, ops: seq<Op>, n: nat, g: nat)
    requires Run(sts, ops) && n <= |ops| && g in sts[n].insts
    ensures Entered(sts, ops, n, g)
            == Pumped(sts, ops, n, g) + InHand(sts[n].insts[g]) + sts[n].insts[g].provider.ch.buffer
  {
    if n > 0 {
      if g in sts[n - 1].insts {
        EveryEventIsPumped(sts, ops, n - 1, g);
        GenerationsStay(sts, ops, n - 1, g);
        PipeStep(sts[n - 1].insts[g], sts[n].insts[g], sts[n - 1], ops[n - 1], g,
                 Entered(sts, ops, n - 1, g), Pumped(sts, ops, n - 1, g));
      } else {
        NothingEntered(sts, ops, n - 1, g);
        RunIsSound(sts, ops, n - 1);
        assert StepAt(sts, ops, n - 1);
        GenerationStep(sts[n - 1], ops[n - 1], g);
      }
    }
  }

  function Published(sts: seq<State>, ops: seq<Op>, n: nat, g: nat): nat
    requires |sts| == |ops| + 1 && n <= |ops|
  {
    if n == 0 then 0 else Published(sts, ops, n - 1, g) + if Publishes(sts[n - 1], ops[n - 1], g) then 1 else 0
  }

  ghost predicate ClosedBefore(ops: seq<Op>, n: nat, g: nat)
    requires n <= |ops|
  {
    exists k :: 0 <= k < n && Closes(ops[k], g)
  }

  /** What a step does to the flag and the numbering of a generation's provider. */
  lemma ProviderNow(sts: seq<State>, ops: seq<Op>, n: nat, g: nat)
    requires Run(sts, ops) && n < |ops|
    ensures g in sts[n].insts ==>
              && g in sts[n + 1].insts
              && (sts[n + 1].insts[g].provider.flag <==> sts[n].insts[g].provider.flag || Closes(ops[n], g))
              && sts[n + 1].insts[g].provider.emitted
                 == sts[n].insts[g].provider.emitted + if Publishes(sts[n], ops[n], g) then 1 else 0
    ensures g !in sts[n].insts ==> !Closes(ops[n], g) && !Publishes(sts[n], ops[n], g)
    ensures g !in sts[n].insts && g in sts[n + 1].insts ==>
              !sts[n + 1].insts[g].provider.flag && sts[n + 1].insts[g].provider.emitted == 0
  {
    RunIsSound(sts, ops, n);
    assert StepAt(sts, ops, n);
    if g in sts[n].insts {
      GenerationsStay(sts, ops, n, g);
    } else if g in sts[n + 1].insts {
      GenerationStep(sts[n], ops[n], g);
    }
  }

  lemma ClosedBeforeGrows(ops: seq<Op>, n: nat, g: nat)
    requires n < |ops|
    ensures ClosedBefore(ops, n + 1, g) <==> ClosedBefore(ops, n, g) || Closes(ops[n], g)
  {
  }

  /** A provider is closed exactly if one of its Disconnects has closed it, and events are numbered by its publishes. */
  lemma {:induction false} ProviderClosedIff(sts: seq<State>, ops: seq<Op>, n: nat, g: nat)
    requires Run(sts, ops) && n <= |ops|
    ensures g in sts[n].insts ==> (sts[n].insts[g].provider.flag <==> ClosedBefore(ops, n, g))
    ensures g in sts[n].insts ==> sts[n].insts[g].provider.emitted == Published(sts, ops, n, g)
    ensures g !in sts[n].insts ==> !ClosedBefore(ops, n, g) && Published(sts, ops, n, g) == 0
  {
    if n > 0 {
      ProviderClosedIff(sts, ops, n - 1, g);
      ProviderNow(sts, ops, n - 1, g);
      ClosedBeforeGrows(ops, n - 1, g);
    }
  }

  // ---------------------------------------------------------------- when a subscription is closed

  /** The step ends `s`: it is unsubscribed, or a pump of its account makes its final sweep. */
  predicate Ends(st: State, op: Op, s: nat) {
    && s in st.info
    && (op == Unsubscribe(s)
        || (op.PumpSweeps? && op.g in st.insts && st.insts[op.g].accountId == st.info[s].accountId))
  }

  lemma SweepEnds(st: State, g: nat, s: nat)
    requires Inv(st) && O.AllOpenInv(st) && Enabled(st, PumpSweeps(g)) && s in st.info
    ensures s in Step(st, PumpSweeps(g)).info
    ensures Step(st, PumpSweeps(g)).info[s].flag <==> st.info[s].flag || st.insts[g].accountId == st.info[s].accountId
  {
    assert O.OpenInv(st, s);
    var a := st.insts[g].accountId;
    if a in st.subs {
      assert ListInv(st, a);
    }
  }

  lemma EndStep(st: State, op: Op, s: nat)
    requires Inv(st) && O.AllOpenInv(st) && Enabled(st, op) && s in st.info
    ensures s in Step(st, op).info && (Step(st, op).info[s].flag <==> st.info[s].flag || Ends(st, op, s))
  {
    if SlotOp(op) {
      SlotOpSpares(st, op);
    } else if op.PumpSweeps? {
      SweepEnds(st, op.g, s);
    } else if op.PumpDelivers? {
      DeliverHands(st, op.g, s);
    } else {
      NextSubIsNew(st);
      ListOpEnds(st, op, s);
    }
  }

  lemma ListOpEnds(st: State, op: Op, s: nat)
    requires Enabled(st, op) && (op.Unsubscribe? || op.Subscribe? || op.Consume?) && s in st.info && s != st.nextSub
    ensures s in Step(st, op).info
    ensures Step(st, op).info[s].flag <==> st.info[s].flag || op == Unsubscribe(s)
  {
  }

  ghost predicate EndedBefore(sts: seq<State>, ops: seq<Op>, n: nat, s: nat)
    requires |sts| == |ops| + 1 && n <= |ops|
  {
    exists k :: 0 <= k < n && Ends(sts[k], ops[k], s)
  }

  /**
   On every run a subscription is closed exactly if, since it was registered, it was
   unsubscribed or a pump of its account made its final sweep.
   */
  lemma {:induction false} ClosedIff(sts: seq<State>, ops: seq<Op>, n: nat, s: nat)
    requires Run(sts, ops) && n <= |ops| && s in sts[n].info
    ensures sts[n].info[s].flag <==> EndedBefore(sts, ops, n, s)
  {
    if n > 0 {
      RunIsSound(sts, ops, n - 1);
      assert StepAt(sts, ops, n - 1);
      if s in sts[n - 1].info {
        ClosedIff(sts, ops, n - 1, s);
        EndStep(sts[n - 1], ops[n - 1], s);
      } else {
        RegisteredStep(sts[n - 1], ops[n - 1], s, sts[n].info[s].accountId);
        forall k | 0 <= k < n ensures !Ends(sts[k], ops[k], s) {
          NotYet(sts, ops, k, n - 1, s);
        }
      }
    }
  }
}
