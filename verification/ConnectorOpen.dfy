/**
 Which subscriptions stay open (internal/connector/connector.go:266-351).  The comment on
 Subscription says that a channel is closed by Unsubscribe or when the provider
 disconnects; one that is registered after the last pump's final sweep is closed by neither.
 */
module ConnectorOpen {
  import opened Wrappers
  import opened Lists
  import opened ConnectorModel

  /** Every pump of the account that has made its final sweep had made it before the subscription was registered. */
  ghost predicate CameAfter(st: State, sub: Sub) {
    forall g | g in st.insts && st.insts[g].accountId == sub.accountId && HasSwept(st.insts[g]) :: g in sub.afterSweeps
  }

  ghost predicate OpenInv(st: State, s: nat)
    requires s in st.info
  {
    var sub := st.info[s];
    && (!sub.flag ==> s in SubsOf(st, sub.accountId))
    && (!sub.flag <==> !sub.unsubscribed && CameAfter(st, sub))
    && (forall g | g in sub.afterSweeps :: g in st.insts && HasSwept(st.insts[g]))
  }

  ghost predicate AllOpenInv(st: State) {
    forall s | s in st.info :: OpenInv(st, s)
  }

  /** Sweeps made are not unmade, and new ones do not come from here. */
  ghost predicate SameSweeps(st: State, st': State) {
    && (forall g | g in st.insts :: g in st'.insts && st'.insts[g].accountId == st.insts[g].accountId)
    && (forall g | g in st'.insts :: HasSwept(st'.insts[g]) <==> g in st.insts && HasSwept(st.insts[g]))
  }

  lemma OpenKept(st: State, st': State, s: nat)
    requires s in st.info && s in st'.info && OpenInv(st, s) && SameSweeps(st, st')
    requires var (b, b') := (st.info[s], st'.info[s]);
             && b'.flag == b.flag && b'.accountId == b.accountId && b'.afterSweeps == b.afterSweeps
                && b'.unsubscribed == b.unsubscribed
    requires s in SubsOf(st, st.info[s].accountId) ==> s in SubsOf(st', st.info[s].accountId)
    ensures OpenInv(st', s)
  {
  }

  // ---------------------------------------------------------------- steps on slots, providers and goroutines

  lemma WriteKeepsSweeps(st: State, g: nat, i: Instance, instances: map<string, nat>)
    requires g in st.insts && i.accountId == st.insts[g].accountId && (HasSwept(i) <==> HasSwept(st.insts[g]))
    ensures SameSweeps(st, Set(st, g, i).(instances := instances))
  {
  }

  lemma OwnSweepsNothing(st: State, op: Op)
    requires LifeInv(st) && Enabled(st, op) && Own(st, op).Some?
    ensures var (g, i) := Own(st, op).value;
            g in st.insts && i.accountId == st.insts[g].accountId && (HasSwept(i) <==> HasSwept(st.insts[g]))
  {
    if op.StartPump? {
      assert Consistent(op.g, st.insts[op.g]);
    }
  }

  lemma OwnKeepsSweeps(st: State, op: Op)
    requires LifeInv(st) && Enabled(st, op) && Own(st, op).Some?
    ensures SameSweeps(st, Step(st, op))
  {
    var (g, i) := Own(st, op).value;
    OwnSweepsNothing(st, op);
    WriteKeepsSweeps(st, g, i, st.instances);
  }

  lemma ReserveKeepsSweeps(st: State, a: string)
    requires LifeInv(st)
    ensures SameSweeps(st, ReserveStep(st, a))
  {
    assert st.nextInst !in st.insts;
  }

  lemma SlotKeepsSweeps(st: State, op: Op)
    requires LifeInv(st) && Enabled(st, op)
    requires op.ConnectFails? || op.Install? || op.Release? || op.PumpExits?
    ensures SameSweeps(st, Step(st, op))
  {
    var i, instances := st.insts[op.g], st.instances - {st.insts[op.g].accountId};
    match op
    case ConnectFails(g) =>
      ConnectFailsShape(st, g);
      WriteKeepsSweeps(st, g, i.(doneCloses := 1, released := true, connect := Failed), instances);
    case Install(g) =>
      InstallShape(st, g);
      WriteKeepsSweeps(st, g, i.(p := Some(g), slot := Online, connect := Installed(g)), st.instances);
    case Release(g) =>
      ReleaseShape(st, g);
      WriteKeepsSweeps(st, g, i.(released := true, disconnect := NoCall), instances);
    case PumpExits(g) =>
      PumpExitsShape(st, g);
      WriteKeepsSweeps(st, g, i.(doneCloses := 1, pump := Exited), st.instances);
  }

  lemma SlotOpSparesSubs(st: State, op: Op)
    requires Enabled(st, op) && SlotOp(op)
    ensures Step(st, op).info == st.info && Step(st, op).subs == st.subs
  {
  }

  lemma SlotOpKeepsOpen(st: State, op: Op)
    requires LifeInv(st) && Enabled(st, op) && SlotOp(op) && AllOpenInv(st)
    ensures AllOpenInv(Step(st, op))
  {
    var st' := Step(st, op);
    if Own(st, op).Some? {
      OwnKeepsSweeps(st, op);
    } else if op.Reserve? {
      ReserveKeepsSweeps(st, op.accountId);
    } else {
      SlotKeepsSweeps(st, op);
    }
    SlotOpSparesSubs(st, op);
    forall s | s in st'.info ensures OpenInv(st', s) {
      OpenKept(st, st', s);
    }
  }

  // ---------------------------------------------------------------- steps on subscriptions

  lemma DeliversKeepsOpen(st: State, g: nat)
    requires Enabled(st, PumpDelivers(g)) && AllOpenInv(st)
    ensures AllOpenInv(DeliversStep(st, g))
  {
    var st' := DeliversStep(st, g);
    forall s | s in st'.info ensures OpenInv(st', s) {
      OpenKept(st, st', s);
    }
  }

  lemma SweepsKeepsOpen(st: State, g: nat)
    requires FanInv(st) && Enabled(st, PumpSweeps(g)) && AllOpenInv(st)
    ensures AllOpenInv(SweepsStep(st, g))
  {
    var st' := SweepsStep(st, g);
    forall s | s in st'.info ensures OpenInv(st', s) {
      assert OpenInv(st, s);
      SweepKeepsOne(st, g, s);
    }
  }

  /** The sweep closes the open subscriptions of its account, which are all listed, and no others. */
  lemma SweepKeepsOne(st: State, g: nat, s: nat)
    requires FanInv(st) && Enabled(st, PumpSweeps(g)) && s in st.info && OpenInv(st, s)
    ensures OpenInv(SweepsStep(st, g), s)
  {
    var (st', a, sub) := (SweepsStep(st, g), st.insts[g].accountId, st.info[s]);
    assert g !in sub.afterSweeps;
    assert g in st'.insts && st'.insts[g].accountId == a && HasSwept(st'.insts[g]);
    if s in SubsOf(st, a) {
      assert ListInv(st, a);
    }
    if sub.accountId == a {
      assert st'.info[s].flag && !CameAfter(st', st'.info[s]);
    } else {
      assert CameAfter(st', st'.info[s]) <==> CameAfter(st, sub);
    }
  }

  lemma SubscribeKeepsOpen(st: State, a: string)
    requires AllOpenInv(st)
    ensures AllOpenInv(SubscribeStep(st, a))
  {
    var st' := SubscribeStep(st, a);
    forall s | s in st'.info ensures OpenInv(st', s) {
      if s != st.nextSub {
        OpenKept(st, st', s);
      }
    }
  }

  lemma UnsubscribeKeepsOpen(st: State, s: nat)
    requires s in st.info && AllOpenInv(st)
    ensures AllOpenInv(UnsubscribeStep(st, s))
  {
    var st' := UnsubscribeStep(st, s);
    forall x | x in st'.info ensures OpenInv(st', x) {
      assert OpenInv(st, x);
      if x != s {
        if x in SubsOf(st, st.info[x].accountId) {
          UnsubscribeSpares(st, s, x);
        }
        OpenKept(st, st', x);
      }
    }
  }

  lemma ConsumeKeepsOpen(st: State, s: nat)
    requires Enabled(st, Consume(s)) && AllOpenInv(st)
    ensures AllOpenInv(Step(st, Consume(s)))
  {
    forall x | x in st.info ensures OpenInv(Step(st, Consume(s)), x) {
      OpenKept(st, Step(st, Consume(s)), x);
    }
  }

  lemma UnsubscribeSpares(st: State, s: nat, x: nat)
    requires s in st.info && x in st.info && x != s && x in SubsOf(st, st.info[x].accountId)
    ensures x in SubsOf(UnsubscribeStep(st, s), st.info[x].accountId)
  {
    if st.info[x].accountId == st.info[s].accountId {
      RemoveFirstSpares(SubsOf(st, st.info[s].accountId), s, x);
    }
  }

  lemma {:induction false} RemoveFirstSpares(list: seq<nat>, s: nat, x: nat)
    requires x != s && x in list
    ensures x in RemoveFirst(list, s)
  {
    if list[0] != s && list[0] != x {
      RemoveFirstSpares(list[1..], s, x);
    }
  }

  lemma PumpOpKeepsOpen(st: State, op: Op)
    requires FanInv(st) && Enabled(st, op) && (op.PumpDelivers? || op.PumpSweeps?) && AllOpenInv(st)
    ensures AllOpenInv(Step(st, op))
  {
    if op.PumpDelivers? {
      DeliversKeepsOpen(st, op.g);
    } else {
      SweepsKeepsOpen(st, op.g);
    }
  }

  lemma ListOpKeepsOpen(st: State, op: Op)
    requires Enabled(st, op) && (op.Subscribe? || op.Unsubscribe? || op.Consume?) && AllOpenInv(st)
    ensures AllOpenInv(Step(st, op))
  {
    match op
    case Subscribe(a) => SubscribeKeepsOpen(st, a);
    case Unsubscribe(s) => UnsubscribeKeepsOpen(st, s);
    case Consume(s) => ConsumeKeepsOpen(st, s);
  }

  lemma StepKeepsOpen(st: State, op: Op)
    requires Inv(st) && Enabled(st, op) && AllOpenInv(st)
    ensures AllOpenInv(Step(st, op))
  {
    if SlotOp(op) {
      SlotOpKeepsOpen(st, op);
    } else if op.PumpDelivers? || op.PumpSweeps? {
      PumpOpKeepsOpen(st, op);
    } else {
      ListOpKeepsOpen(st, op);
    }
  }

  lemma {:induction false} RunKeepsOpen(st: State, ops: seq<Op>, end: State)
    requires Inv(st) && AllOpenInv(st) && Reaches(st, ops, end)
    ensures AllOpenInv(end)
    decreases |ops|
  {
    if ops != [] {
      StepKeepsInv(st, ops[0]);
      StepKeepsOpen(st, ops[0]);
      RunKeepsOpen(Step(st, ops[0]), ops[1..], end);
    }
  }

  /**
   On every run a subscription is open exactly if it was not unsubscribed and every
   final sweep made so far by a pump of its account came before it.
   */
  lemma OpenIff(ops: seq<Op>, end: State, s: nat)
    requires Reaches(Init(), ops, end) && s in end.info
    ensures !end.info[s].flag <==> !end.info[s].unsubscribed && CameAfter(end, end.info[s])
  {
    RunKeepsOpen(Init(), ops, end);
    assert OpenInv(end, s);
  }

  /**
   So one that is open when every generation of its account is released was registered
   after the final sweep of each pump that ever ran for it.
   */
  lemma OpenAfterTheLast(ops: seq<Op>, end: State, s: nat, g: nat)
    requires Reaches(Init(), ops, end) && s in end.info && !end.info[s].flag
    requires g in end.insts && end.insts[g].accountId == end.info[s].accountId && end.insts[g].released
    ensures !end.info[s].unsubscribed && (g in end.info[s].afterSweeps || end.insts[g].connect == Failed)
  {
    OpenIff(ops, end, s);
    RunKeepsInv(Init(), ops, end);
    assert Consistent(g, end.insts[g]);
  }
}
