/**
 The entries that the lifecycle of accounts works with are the connector's: each step of
 the connector acts on its own entry as the lifecycle's steps do, or on none.
 */
module ConnectorSlots {
  import opened Wrappers
  import opened Lifecycle
  import CM = ConnectorModel

  function SlotOf(slot: CM.Slot): Slot {
    match slot
    case Connecting => Slot.Connecting
    case Online => Slot.Live
    case Disconnecting => Slot.Disconnecting
  }

  function SlotsOf(st: CM.State): map<string, Slot> {
    map a | a in st.instances && st.instances[a] in st.insts :: SlotOf(st.insts[st.instances[a]].slot)
  }

  /** What a step of the connector does to an entry. */
  function SectionOf(st: CM.State, op: CM.Op): Option<SlotAct>
    requires CM.Enabled(st, op)
  {
    match op
    case Reserve(a) => Some(SlotAct.Reserve(a))
    case ConnectFails(g) => Some(SlotAct.Connect(st.insts[g].accountId, false))
    case Install(g) => Some(SlotAct.Connect(st.insts[g].accountId, true))
    case Mark(a) => Some(SlotAct.Mark(a))
    case DisconnectFails(g) => Some(SlotAct.Disconnect(st.insts[g].accountId, false))
    case Release(g) => Some(SlotAct.Disconnect(st.insts[g].accountId, true))
    case _ => None
  }

  ghost predicate ActsAs(st: CM.State, op: CM.Op, act: SlotAct)
    requires CM.Enabled(st, op)
  {
    Admits(SlotsOf(st), act) && SlotsOf(CM.Step(st, op)) == Slotted(SlotsOf(st), act)
  }

  /** Writing the record that is in the map. */
  lemma WriteOwn(st: CM.State, g: nat, i: CM.Instance)
    requires CM.MapInv(st) && g in st.insts && !st.insts[g].released && i.accountId == st.insts[g].accountId
    ensures SlotsOf(CM.Set(st, g, i)) == SlotsOf(st)[i.accountId := SlotOf(i.slot)]
  {
    var a := i.accountId;
    forall b | b in st.instances && b != a ensures st.instances[b] != g {
      assert st.insts[st.instances[b]].accountId == b;
    }
  }

  /** Writing any record without touching its phase. */
  lemma WriteSame(st: CM.State, g: nat, i: CM.Instance)
    requires CM.MapInv(st) && g in st.insts && i.slot == st.insts[g].slot
    ensures SlotsOf(CM.Set(st, g, i)) == SlotsOf(st)
  {
  }

  lemma WriteGone(st: CM.State, g: nat, i: CM.Instance)
    requires CM.MapInv(st) && g in st.insts && !st.insts[g].released
    ensures var a := st.insts[g].accountId;
            SlotsOf(CM.Set(st, g, i).(instances := st.instances - {a})) == SlotsOf(st) - {a}
  {
    forall b | b in st.instances && b != st.insts[g].accountId ensures st.instances[b] != g {
      assert st.insts[st.instances[b]].accountId == b;
    }
  }

  /** The record in the map is the one its account's entry shows. */
  lemma EntryOf(st: CM.State, g: nat)
    requires CM.MapInv(st) && g in st.insts && !st.insts[g].released
    ensures var a := st.insts[g].accountId; a in SlotsOf(st) && SlotsOf(st)[a] == SlotOf(st.insts[g].slot)
  {
  }

  lemma ReserveActs(st: CM.State, a: string)
    requires CM.LifeInv(st) && CM.Enabled(st, CM.Reserve(a))
    ensures ActsAs(st, CM.Reserve(a), SlotAct.Reserve(a))
  {
    forall b | b in st.instances ensures st.instances[b] in st.insts && st.instances[b] != st.nextInst {
    }
    WriteNew(st, a, st.nextInst, CM.NewInstance(a));
  }

  /** Writing a new record and naming it in the map. */
  lemma WriteNew(st: CM.State, a: string, g: nat, i: CM.Instance)
    requires forall b | b in st.instances :: st.instances[b] in st.insts && st.instances[b] != g
    ensures SlotsOf(st.(insts := st.insts[g := i], instances := st.instances[a := g]))
            == SlotsOf(st)[a := SlotOf(i.slot)]
  {
  }

  lemma ConnectActs(st: CM.State, op: CM.Op)
    requires CM.LifeInv(st) && CM.Enabled(st, op) && (op.ConnectFails? || op.Install?)
    ensures ActsAs(st, op, SectionOf(st, op).value)
  {
    var i := st.insts[op.g];
    CM.SlotIsOwn(st, op.g);
    assert CM.Consistent(op.g, i);
    EntryOf(st, op.g);
    if op.Install? {
      CM.InstallShape(st, op.g);
      WriteOwn(st, op.g, i.(p := Some(op.g), slot := CM.Online, connect := CM.Installed(op.g)));
    } else {
      CM.ConnectFailsShape(st, op.g);
      WriteGone(st, op.g, i.(doneCloses := 1, released := true, connect := CM.Failed));
    }
  }

  lemma MarkActs(st: CM.State, a: string)
    requires CM.LifeInv(st) && CM.Enabled(st, CM.Mark(a))
    ensures ActsAs(st, CM.Mark(a), SlotAct.Mark(a))
  {
    var g := st.instances[a];
    EntryOf(st, g);
    WriteOwn(st, g, st.insts[g].(slot := CM.Disconnecting, disconnect := CM.InProviderDisconnect));
  }

  lemma DisconnectActs(st: CM.State, op: CM.Op)
    requires CM.LifeInv(st) && CM.Enabled(st, op) && (op.DisconnectFails? || op.Release?)
    ensures ActsAs(st, op, SectionOf(st, op).value)
  {
    var i := st.insts[op.g];
    CM.SlotIsOwn(st, op.g);
    assert CM.Consistent(op.g, i);
    EntryOf(st, op.g);
    if op.Release? {
      CM.ReleaseShape(st, op.g);
      WriteGone(st, op.g, i.(released := true, disconnect := CM.NoCall));
    } else {
      WriteOwn(st, op.g, i.(slot := CM.Online, disconnect := CM.NoCall));
    }
  }

  lemma OthersDoNot(st: CM.State, op: CM.Op)
    requires CM.LifeInv(st) && CM.Enabled(st, op) && SectionOf(st, op).None?
    ensures SlotsOf(CM.Step(st, op)) == SlotsOf(st)
  {
    if CM.Own(st, op).Some? {
      var (g, i) := CM.Own(st, op).value;
      WriteSame(st, g, i);
    } else {
      match op {
        case PumpExits(g) =>
          CM.PumpExitsShape(st, g);
          WriteSame(st, g, st.insts[g].(doneCloses := 1, pump := CM.Exited));
        case PumpDelivers(g) => WriteSame(st, g, st.insts[g].(pump := CM.Ranging));
        case PumpSweeps(g) => WriteSame(st, g, st.insts[g].(pump := CM.Swept));
        case _ =>
      }
    }
  }

  lemma StepActsOnSlots(st: CM.State, op: CM.Op)
    requires CM.Inv(st) && CM.Enabled(st, op)
    ensures SectionOf(st, op).Some? ==> ActsAs(st, op, SectionOf(st, op).value)
    ensures SectionOf(st, op).None? ==> SlotsOf(CM.Step(st, op)) == SlotsOf(st)
  {
    if SectionOf(st, op).None? {
      OthersDoNot(st, op);
    } else if op.Reserve? {
      ReserveActs(st, op.accountId);
    } else if op.Mark? {
      MarkActs(st, op.accountId);
    } else if op.ConnectFails? || op.Install? {
      ConnectActs(st, op);
    } else {
      DisconnectActs(st, op);
    }
  }

  /** On every run of the connector, from its start. */
  lemma ConnectorActsOnSlots(ops: seq<CM.Op>, st: CM.State, op: CM.Op)
    requires CM.Reaches(CM.Init(), ops, st) && CM.Enabled(st, op)
    ensures SectionOf(st, op).Some? ==> ActsAs(st, op, SectionOf(st, op).value)
    ensures SectionOf(st, op).None? ==> SlotsOf(CM.Step(st, op)) == SlotsOf(st)
  {
    CM.RunKeepsInv(CM.Init(), ops, st);
    StepActsOnSlots(st, op);
  }

  // ---------------------------------------------------------------- whole runs

  /** Sections that each find their entry in the phase they expect, one after the other. */
  ghost predicate SlotRun(slots: map<string, Slot>, acts: seq<SlotAct>, end: map<string, Slot>)
    decreases |acts|
  {
    if acts == [] then end == slots
    else Admits(slots, acts[0]) && SlotRun(Slotted(slots, acts[0]), acts[1..], end)
  }

  lemma SlotRunCons(slots: map<string, Slot>, act: SlotAct, acts: seq<SlotAct>, end: map<string, Slot>)
    requires Admits(slots, act) && SlotRun(Slotted(slots, act), acts, end)
    ensures SlotRun(slots, [act] + acts, end)
  {
    assert ([act] + acts)[1..] == acts;
  }

  /** The sections of a run of the connector. */
  ghost function SectionsOf(st: CM.State, ops: seq<CM.Op>): seq<SlotAct>
    decreases |ops|
  {
    if ops == [] || !CM.Enabled(st, ops[0]) then []
    else
      var rest := SectionsOf(CM.Step(st, ops[0]), ops[1..]);
      match SectionOf(st, ops[0])
      case Some(act) => [act] + rest
      case None => rest
  }

  lemma {:induction false} RunProjects(st: CM.State, ops: seq<CM.Op>, end: CM.State)
    requires CM.Inv(st) && CM.Reaches(st, ops, end)
    ensures SlotRun(SlotsOf(st), SectionsOf(st, ops), SlotsOf(end))
    decreases |ops|
  {
    if ops != [] {
      var st' := CM.Step(st, ops[0]);
      StepActsOnSlots(st, ops[0]);
      CM.StepKeepsInv(st, ops[0]);
      RunProjects(st', ops[1..], end);
      if SectionOf(st, ops[0]).Some? {
        SlotRunCons(SlotsOf(st), SectionOf(st, ops[0]).value, SectionsOf(st', ops[1..]), SlotsOf(end));
      }
    }
  }

  /** Every run of the connector, seen on its entries, is a run of sections that find what they expect. */
  lemma ConnectorRunsOnSlots(ops: seq<CM.Op>, end: CM.State)
    requires CM.Reaches(CM.Init(), ops, end)
    ensures SlotRun(map[], SectionsOf(CM.Init(), ops), SlotsOf(end))
  {
    RunProjects(CM.Init(), ops, end);
    assert SlotsOf(CM.Init()) == map[];
  }

  /** The sections of the lifecycle's steps from `i` to `j`. */
  ghost function StepSections(ws: seq<World>, steps: seq<Step>, i: nat, j: nat): seq<SlotAct>
    requires |ws| > |steps| >= j && i <= j
    decreases j - i
  {
    if i == j || !Enabled(ws[i], steps[i]) then []
    else
      var rest := StepSections(ws, steps, i + 1, j);
      match ActOf(ws[i], steps[i])
      case Some(act) => [act] + rest
      case None => rest
  }

  /** And so is every run of the lifecycle while one daemon is up. */
  lemma {:induction false} LifecycleRunsOnSlots(ws: seq<World>, steps: seq<Step>, i: nat, j: nat)
    requires Run(ws, steps) && i <= j <= |steps| && ws[0].calls == map[]
    requires forall k | i <= k < j :: !steps[k].Crash? && !steps[k].Boot?
    ensures SlotRun(ws[i].s.slots, StepSections(ws, steps, i, j), ws[j].s.slots)
    decreases j - i
  {
    if i < j {
      SlotsAreOwned(ws, steps, i);
      OwnersAdmit(ws[i], steps[i]);
      LifecycleRunsOnSlots(ws, steps, i + 1, j);
      assert StepAt(ws, steps, i);
      if ActOf(ws[i], steps[i]).Some? {
        SlotRunCons(ws[i].s.slots, ActOf(ws[i], steps[i]).value, StepSections(ws, steps, i + 1, j), ws[j].s.slots);
      }
    }
  }
}
