/**
 The connector (internal/connector/connector.go) composed with the event channel
 of its providers (internal/bot/discord/discord.go, internal/bot/mock/mock.go).

 Connect and Disconnect drop the lock around their slow provider calls, and each
 generation has a pump goroutine, so the unit of execution is the critical
 section.  The state holds the shared maps, one record per reserved slot with the
 program counters of the calls working on it, and the channels.  A send or a
 second close on a closed channel is recorded as a panic.
 */
module ConnectorModel {
  import opened Wrappers
  import opened Lists

  const PROVIDER_CAPACITY := 64
  const SUBSCRIBER_CAPACITY := 32

  /** The n-th event emitted by the provider of a generation. */
  datatype Event = Event(gen: nat, number: nat)

  datatype Chan = Chan(buffer: seq<Event>, closed: bool, panicked: bool)

  function TrySend(ch: Chan, capacity: nat, e: Event): Chan {
    if ch.closed then ch.(panicked := true)
    else if |ch.buffer| < capacity then ch.(buffer := ch.buffer + [e])
    else ch
  }

  function CloseChan(ch: Chan): Chan {
    if ch.closed then ch.(panicked := true) else ch.(closed := true)
  }

  datatype Slot = Connecting | Online | Disconnecting

  /** Where the Connect call of a generation is. `Installed` remembers the record
      whose pumpDone the pump is about to be given. */
  datatype ConnectPc = InProviderConnect | Installed(done: nat) | Returned | Failed | SlotGone

  /** Where the Disconnect call that marked this record is. */
  datatype DisconnectPc = NoCall | InProviderDisconnect | AwaitPump

  datatype Pump = NotStarted | Ranging | Holding(e: Event) | Ending | Swept | Exited

  /** `flag` is the provider's own `closed` field; `ch` is its events channel. */
  datatype Provider = Provider(flag: bool, ch: Chan, emitted: nat)

  /** A slot record and the goroutines of its generation. */
  datatype Instance = Instance(
    accountId: string,
    slot: Slot,
    p: Option<nat>,
    doneCloses: nat,
    released: bool,
    connect: ConnectPc,
    disconnect: DisconnectPc,
    pump: Pump,
    pumpDone: nat,
    provider: Provider)

  /** `got` is everything that entered the channel, `lateFor` the generations whose
      slot had been released when it subscribed, `afterSweeps` those whose pump had
      already made its final sweep, `sweptBy` the pump that closed it. */
  datatype Sub = Sub(
    accountId: string,
    flag: bool,
    ch: Chan,
    got: seq<Event>,
    lateFor: set<nat>,
    afterSweeps: set<nat>,
    sweptBy: Option<nat>,
    unsubscribed: bool)

  datatype State = State(
    instances: map<string, nat>,
    insts: map<nat, Instance>,
    nextInst: nat,
    subs: map<string, seq<nat>>,
    info: map<nat, Sub>,
    nextSub: nat)

  datatype Op =
    | Reserve(accountId: string)
    | ConnectFails(g: nat)
    | Install(g: nat)
    | StartPump(g: nat)
    | Mark(accountId: string)
    | DisconnectFails(g: nat)
    | DisconnectReturns(g: nat)
    | Release(g: nat)
    | Emit(g: nat)
    | CloseQuietly(g: nat)
    | CloseWithFinalEvent(g: nat)
    | PumpReceives(g: nat)
    | PumpDelivers(g: nat)
    | PumpSeesClose(g: nat)
    | PumpSweeps(g: nat)
    | PumpExits(g: nat)
    | Subscribe(accountId: string)
    | Unsubscribe(s: nat)
    | Consume(s: nat)

  // ---------------------------------------------------------------- lifecycle steps

  function Set(st: State, g: nat, i: Instance): State {
    st.(insts := st.insts[g := i])
  }

  function NewInstance(a: string): Instance {
    Instance(a, Connecting, None, 0, false, InProviderConnect, NoCall, NotStarted, 0,
             Provider(false, Chan([], false, false), 0))
  }

  function ReserveStep(st: State, a: string): State {
    Set(st, st.nextInst, NewInstance(a)).(
      instances := st.instances[a := st.nextInst],
      nextInst := st.nextInst + 1)
  }

  /** Deletes the map entry of `a`, whichever record it holds. */
  function Drop(st: State, a: string): State
    requires a in st.instances && st.instances[a] in st.insts
  {
    var t := st.instances[a];
    Set(st, t, st.insts[t].(released := true)).(instances := st.instances - {a})
  }

  function ConnectFailsStep(st: State, g: nat): State
    requires g in st.insts && LinkedTo(st, st.insts[g].accountId)
  {
    var a := st.insts[g].accountId;
    var st' := if a in st.instances
               then var t := st.instances[a];
                    Drop(Set(st, t, st.insts[t].(doneCloses := st.insts[t].doneCloses + 1)), a)
               else st;
    Set(st', g, st'.insts[g].(connect := Failed))
  }

  predicate LinkedTo(st: State, a: string) {
    a in st.instances ==> st.instances[a] in st.insts
  }

  function InstallStep(st: State, g: nat): State
    requires g in st.insts && LinkedTo(st, st.insts[g].accountId)
  {
    var a := st.insts[g].accountId;
    if a !in st.instances then Set(st, g, st.insts[g].(connect := SlotGone))
    else
      var t := st.instances[a];
      var st' := Set(st, t, st.insts[t].(p := Some(g), slot := Online));
      Set(st', g, st'.insts[g].(connect := Installed(t)))
  }

  function ReleaseStep(st: State, g: nat): State
    requires g in st.insts && LinkedTo(st, st.insts[g].accountId)
  {
    var a := st.insts[g].accountId;
    var st' := if a in st.instances then Drop(st, a) else st;
    Set(st', g, st'.insts[g].(disconnect := NoCall))
  }

  function PumpExitsStep(st: State, g: nat): State
    requires g in st.insts && st.insts[g].pumpDone in st.insts
  {
    var t := st.insts[g].pumpDone;
    var st' := Set(st, t, st.insts[t].(doneCloses := st.insts[t].doneCloses + 1));
    Set(st', g, st'.insts[g].(pump := Exited))
  }

  // ---------------------------------------------------------------- provider steps

  function Emitted(p: Provider, g: nat): Provider {
    if p.flag then p
    else p.(ch := TrySend(p.ch, PROVIDER_CAPACITY, Event(g, p.emitted)), emitted := p.emitted + 1)
  }

  function Closed(p: Provider): Provider {
    if p.flag then p else p.(flag := true, ch := CloseChan(p.ch))
  }

  // ---------------------------------------------------------------- fan-out steps

  function SubsOf(st: State, a: string): seq<nat> {
    if a in st.subs then st.subs[a] else []
  }

  function Sent(sub: Sub, listed: bool, e: Event): Sub {
    if !listed || sub.flag then sub
    else
      sub.(ch := TrySend(sub.ch, SUBSCRIBER_CAPACITY, e),
           got := if !sub.ch.closed && |sub.ch.buffer| < SUBSCRIBER_CAPACITY then sub.got + [e] else sub.got)
  }

  function DeliversStep(st: State, g: nat): State
    requires g in st.insts && st.insts[g].pump.Holding?
  {
    var i := st.insts[g];
    var list := SubsOf(st, i.accountId);
    Set(st, g, i.(pump := Ranging)).(
      info := map s | s in st.info :: Sent(st.info[s], s in list, i.pump.e))
  }

  function SweptSub(sub: Sub, listed: bool, g: nat): Sub {
    if !listed || sub.flag then sub
    else sub.(flag := true, ch := CloseChan(sub.ch), sweptBy := Some(g))
  }

  function SweepsStep(st: State, g: nat): State
    requires g in st.insts
  {
    var i := st.insts[g];
    var list := SubsOf(st, i.accountId);
    Set(st, g, i.(pump := Swept)).(
      info := map s | s in st.info :: SweptSub(st.info[s], s in list, g),
      subs := st.subs - {i.accountId})
  }

  function ReleasedOnes(st: State): set<nat> {
    set g | g in st.insts && st.insts[g].released
  }

  predicate HasSwept(i: Instance) {
    i.pump == Swept || i.pump == Exited
  }

  function SweptOnes(st: State): set<nat> {
    set g | g in st.insts && HasSwept(st.insts[g])
  }

  function SubscribeStep(st: State, a: string): State {
    st.(info := st.info[st.nextSub := Sub(a, false, Chan([], false, false), [], ReleasedOnes(st), SweptOnes(st),
                                          None, false)],
        subs := st.subs[a := SubsOf(st, a) + [st.nextSub]],
        nextSub := st.nextSub + 1)
  }

  function UnsubscribeStep(st: State, s: nat): State
    requires s in st.info
  {
    var sub := st.info[s];
    var list := SubsOf(st, sub.accountId);
    st.(subs := if s in list then st.subs[sub.accountId := RemoveFirst(list, s)] else st.subs,
        info := st.info[s := if sub.flag then sub.(unsubscribed := true)
                             else sub.(flag := true, ch := CloseChan(sub.ch), unsubscribed := true)])
  }

  // ---------------------------------------------------------------- the machine

  /** The provider a record names, whichever generation installed it, has closed. */
  predicate ProviderClosed(st: State, p: Option<nat>) {
    p.Some? && p.value in st.insts && st.insts[p.value].provider.flag
  }

  predicate Enabled(st: State, op: Op) {
    match op
    case Reserve(a) => a !in st.instances
    case ConnectFails(g) =>
      g in st.insts && st.insts[g].connect == InProviderConnect && LinkedTo(st, st.insts[g].accountId)
    case Install(g) => g in st.insts && st.insts[g].connect == InProviderConnect && LinkedTo(st, st.insts[g].accountId)
    case StartPump(g) => g in st.insts && st.insts[g].connect.Installed?
    case Mark(a) => a in st.instances && st.instances[a] in st.insts && st.insts[st.instances[a]].slot == Online
    case DisconnectFails(g) => g in st.insts && st.insts[g].disconnect == InProviderDisconnect
    case DisconnectReturns(g) =>
      g in st.insts && st.insts[g].disconnect == InProviderDisconnect && ProviderClosed(st, st.insts[g].p)
    case Release(g) =>
      g in st.insts && st.insts[g].disconnect == AwaitPump && st.insts[g].doneCloses > 0
        && LinkedTo(st, st.insts[g].accountId)
    case Emit(g) => g in st.insts
    case CloseQuietly(g) => g in st.insts
    case CloseWithFinalEvent(g) => g in st.insts
    case PumpReceives(g) => g in st.insts && st.insts[g].pump == Ranging && st.insts[g].provider.ch.buffer != []
    case PumpDelivers(g) => g in st.insts && st.insts[g].pump.Holding?
    case PumpSeesClose(g) =>
      g in st.insts && st.insts[g].pump == Ranging && st.insts[g].provider.ch.buffer == []
        && st.insts[g].provider.ch.closed
    case PumpSweeps(g) => g in st.insts && st.insts[g].pump == Ending
    case PumpExits(g) => g in st.insts && st.insts[g].pump == Swept && st.insts[g].pumpDone in st.insts
    case Subscribe(_) => true
    case Unsubscribe(s) => s in st.info
    case Consume(s) => s in st.info && st.info[s].ch.buffer != []
  }

  /** Steps that only change the record of their own generation. */
  function Own(st: State, op: Op): Option<(nat, Instance)>
    requires Enabled(st, op)
  {
    match op
    case StartPump(g) =>
      var i := st.insts[g]; Some((g, i.(connect := Returned, pump := Ranging, pumpDone := i.connect.done)))
    case Mark(a) =>
      var g := st.instances[a]; Some((g, st.insts[g].(slot := Disconnecting, disconnect := InProviderDisconnect)))
    case DisconnectFails(g) => Some((g, st.insts[g].(slot := Online, disconnect := NoCall)))
    case DisconnectReturns(g) => Some((g, st.insts[g].(disconnect := AwaitPump)))
    case Emit(g) => Some((g, st.insts[g].(provider := Emitted(st.insts[g].provider, g))))
    case CloseQuietly(g) => Some((g, st.insts[g].(provider := Closed(st.insts[g].provider))))
    case CloseWithFinalEvent(g) => Some((g, st.insts[g].(provider := Closed(Emitted(st.insts[g].provider, g)))))
    case PumpReceives(g) =>
      var i := st.insts[g];
      var ch := i.provider.ch;
      Some((g, i.(pump := Holding(ch.buffer[0]), provider := i.provider.(ch := ch.(buffer := ch.buffer[1..])))))
    case PumpSeesClose(g) => Some((g, st.insts[g].(pump := Ending)))
    case _ => None
  }

  function Step(st: State, op: Op): State
    requires Enabled(st, op)
  {
    match op
    case Reserve(a) => ReserveStep(st, a)
    case ConnectFails(g) => ConnectFailsStep(st, g)
    case Install(g) => InstallStep(st, g)
    case Release(g) => ReleaseStep(st, g)
    case PumpDelivers(g) => DeliversStep(st, g)
    case PumpSweeps(g) => SweepsStep(st, g)
    case PumpExits(g) => PumpExitsStep(st, g)
    case Subscribe(a) => SubscribeStep(st, a)
    case Unsubscribe(s) => UnsubscribeStep(st, s)
    case Consume(s) =>
      st.(info := st.info[s := st.info[s].(ch := st.info[s].ch.(buffer := st.info[s].ch.buffer[1..]))])
    case _ =>
      match Own(st, op)
      case Some((g, i)) => Set(st, g, i)
      case None => st
  }

  function Init(): State {
    State(map[], map[], 0, map[], map[], 0)
  }

  // ---------------------------------------------------------------- invariants

  /** What every record satisfies on its own. */
  ghost predicate Consistent(g: nat, i: Instance) {
    && (match i.connect
        case InProviderConnect =>
          i.slot == Connecting && i.disconnect == NoCall && i.pump == NotStarted && i.doneCloses == 0 && !i.released
        case Installed(done) =>
          i.slot != Connecting && i.pump == NotStarted && i.doneCloses == 0 && !i.released && done == g
            && i.p == Some(g)
        case Returned =>
          && i.slot != Connecting && i.pump != NotStarted && i.pumpDone == g && i.p == Some(g)
          && i.doneCloses == (if i.pump == Exited then 1 else 0)
          && (i.released ==> i.pump == Exited)
        case Failed => i.released && i.pump == NotStarted && i.doneCloses == 1 && i.disconnect == NoCall
        case SlotGone => false)
    && (i.disconnect != NoCall ==> i.slot == Disconnecting && !i.released)
    && (i.slot == Disconnecting && !i.released ==> i.disconnect != NoCall)
    && (i.disconnect == AwaitPump ==> i.provider.flag)
    && i.provider.flag == i.provider.ch.closed && !i.provider.ch.panicked
  }

  /** The map holds exactly the records that were not released. */
  ghost predicate MapInv(st: State) {
    && (forall a | a in st.instances ::
       st.instances[a] in st.insts && st.insts[st.instances[a]].accountId == a && !st.insts[st.instances[a]].released)
    && (forall g | g in st.insts && !st.insts[g].released ::
       st.insts[g].accountId in st.instances && st.instances[st.insts[g].accountId] == g)
    && (forall g | g in st.insts :: g < st.nextInst)
  }

  ghost predicate LifeInv(st: State) {
    MapInv(st) && forall g | g in st.insts :: Consistent(g, st.insts[g])
  }

  ghost predicate SubInv(st: State, s: nat)
    requires s in st.info
  {
    var sub := st.info[s];
    && s < st.nextSub
    && sub.flag == sub.ch.closed && !sub.ch.panicked
    && |sub.ch.buffer| <= SUBSCRIBER_CAPACITY
    && |sub.ch.buffer| <= |sub.got| && sub.ch.buffer == sub.got[|sub.got| - |sub.ch.buffer|..]
    && (sub.sweptBy.Some? ==> sub.flag && sub.sweptBy.value !in sub.lateFor)
    && (forall g | g in sub.lateFor :: g in st.insts && st.insts[g].released)
  }

  /** A listed subscription is open and listed once, under its account. */
  ghost predicate ListInv(st: State, a: string)
    requires a in st.subs
  {
    && NoDuplicates(st.subs[a])
    && forall s | s in st.subs[a] :: s in st.info && st.info[s].accountId == a && !st.info[s].flag
  }

  ghost predicate FanInv(st: State) {
    && (forall a | a in st.subs :: ListInv(st, a))
    && (forall s | s in st.info :: SubInv(st, s))
  }

  // Order

  ghost predicate Before(e: Event, f: Event) {
    e.gen < f.gen || (e.gen == f.gen && e.number < f.number)
  }

  /** The provider's channel and its pump hold its own events, in order. */
  ghost predicate PipeInv(g: nat, i: Instance) {
    var b := i.provider.ch.buffer;
    && (forall k | 0 <= k < |b| :: b[k].gen == g && b[k].number < i.provider.emitted)
    && (forall k, l | 0 <= k < l < |b| :: b[k].number < b[l].number)
    && (i.pump.Holding? ==>
          i.pump.e.gen == g && i.pump.e.number < i.provider.emitted
          && forall k | 0 <= k < |b| :: i.pump.e.number < b[k].number)
  }

  /** Everything of this generation below the cursor is delivered or dropped. */
  ghost function Cursor(i: Instance): nat {
    if i.pump.Holding? then i.pump.e.number
    else if i.provider.ch.buffer != [] then i.provider.ch.buffer[0].number
    else i.provider.emitted
  }

  ghost predicate Sourced(st: State, sub: Sub, e: Event) {
    && e.gen in st.insts && st.insts[e.gen].accountId == sub.accountId
    && e.number < st.insts[e.gen].provider.emitted
  }

  ghost predicate Past(st: State, sub: Sub, e: Event) {
    forall g | g in st.insts && !st.insts[g].released && st.insts[g].accountId == sub.accountId ::
      e.gen < g || (e.gen == g && e.number < Cursor(st.insts[g]))
  }

  ghost predicate GotInv(st: State, sub: Sub) {
    && (forall k | 0 <= k < |sub.got| :: Sourced(st, sub, sub.got[k]) && Past(st, sub, sub.got[k]))
    && (forall k, l | 0 <= k < l < |sub.got| :: Before(sub.got[k], sub.got[l]))
  }

  ghost predicate OrderInv(st: State) {
    && (forall g | g in st.insts :: PipeInv(g, st.insts[g]))
    && (forall s | s in st.info :: GotInv(st, st.info[s]))
  }

  ghost predicate Inv(st: State) {
    LifeInv(st) && FanInv(st) && OrderInv(st)
  }

  // ---------------------------------------------------------------- lifecycle

  lemma SetKeepsLife(st: State, g: nat, i: Instance)
    requires LifeInv(st) && g in st.insts
    requires i.accountId == st.insts[g].accountId && i.released == st.insts[g].released && Consistent(g, i)
    ensures LifeInv(Set(st, g, i))
  {
  }

  lemma OwnIsConsistent(st: State, op: Op)
    requires LifeInv(st) && Enabled(st, op) && Own(st, op).Some?
    ensures var (g, i) := Own(st, op).value;
            && g in st.insts && Consistent(g, i)
            && i.accountId == st.insts[g].accountId && i.released == st.insts[g].released
  {
    var (g, i) := Own(st, op).value;
    assert Consistent(g, st.insts[g]);
  }

  /** A Connect call finds its own record in the map, and so does the Disconnect
      call that marked a record. */
  lemma SlotIsOwn(st: State, g: nat)
    requires LifeInv(st) && g in st.insts
    requires st.insts[g].connect == InProviderConnect || st.insts[g].disconnect != NoCall
    ensures st.insts[g].accountId in st.instances && st.instances[st.insts[g].accountId] == g
  {
    assert Consistent(g, st.insts[g]);
  }

  /** Deleting the slot of `g`, when it is the one in the map. */
  lemma RemovalKeepsLife(st: State, g: nat, i: Instance)
    requires LifeInv(st) && g in st.insts
    requires st.insts[g].accountId in st.instances && st.instances[st.insts[g].accountId] == g
    requires i.accountId == st.insts[g].accountId && i.released && Consistent(g, i)
    ensures LifeInv(Set(st, g, i).(instances := st.instances - {i.accountId}))
  {
    var st' := Set(st, g, i).(instances := st.instances - {i.accountId});
    forall h | h in st'.insts && !st'.insts[h].released
      ensures st'.insts[h].accountId in st'.instances && st'.instances[st'.insts[h].accountId] == h
    {
      assert h != g && st.instances[st.insts[h].accountId] == h;
    }
  }

  lemma ConnectFailsShape(st: State, g: nat)
    requires LifeInv(st) && Enabled(st, ConnectFails(g))
    ensures var i := st.insts[g];
            ConnectFailsStep(st, g)
              == Set(st, g, i.(doneCloses := 1, released := true, connect := Failed)).(
                   instances := st.instances - {i.accountId})
  {
    SlotIsOwn(st, g);
    assert Consistent(g, st.insts[g]);
    var i := st.insts[g];
    assert ConnectFailsStep(st, g).insts == st.insts[g := i.(doneCloses := 1, released := true, connect := Failed)];
  }

  lemma InstallShape(st: State, g: nat)
    requires LifeInv(st) && Enabled(st, Install(g))
    ensures InstallStep(st, g) == Set(st, g, st.insts[g].(p := Some(g), slot := Online, connect := Installed(g)))
  {
    SlotIsOwn(st, g);
    assert InstallStep(st, g).insts
           == st.insts[g := st.insts[g].(p := Some(g), slot := Online, connect := Installed(g))];
  }

  lemma ReleaseShape(st: State, g: nat)
    requires LifeInv(st) && Enabled(st, Release(g))
    ensures ReleaseStep(st, g) ==
            Set(st, g, st.insts[g].(released := true, disconnect := NoCall)).(
              instances := st.instances - {st.insts[g].accountId})
  {
    SlotIsOwn(st, g);
    assert ReleaseStep(st, g).insts == st.insts[g := st.insts[g].(released := true, disconnect := NoCall)];
  }

  lemma PumpExitsShape(st: State, g: nat)
    requires LifeInv(st) && Enabled(st, PumpExits(g))
    ensures PumpExitsStep(st, g) == Set(st, g, st.insts[g].(doneCloses := 1, pump := Exited))
  {
    assert Consistent(g, st.insts[g]);
    assert PumpExitsStep(st, g).insts == st.insts[g := st.insts[g].(doneCloses := 1, pump := Exited)];
  }

  lemma ReserveKeepsLife(st: State, a: string)
    requires LifeInv(st) && a !in st.instances
    ensures LifeInv(ReserveStep(st, a))
  {
  }

  lemma SlotStepKeepsLife(st: State, op: Op)
    requires LifeInv(st) && Enabled(st, op)
    requires op.ConnectFails? || op.Install? || op.Release?
    ensures LifeInv(Step(st, op))
  {
    var g := op.g;
    SlotIsOwn(st, g);
    assert Consistent(g, st.insts[g]);
    match op {
      case ConnectFails(_) =>
        ConnectFailsShape(st, g);
        RemovalKeepsLife(st, g, st.insts[g].(doneCloses := 1, released := true, connect := Failed));
      case Install(_) =>
        InstallShape(st, g);
        SetKeepsLife(st, g, st.insts[g].(p := Some(g), slot := Online, connect := Installed(g)));
      case Release(_) =>
        ReleaseShape(st, g);
        RemovalKeepsLife(st, g, st.insts[g].(released := true, disconnect := NoCall));
    }
  }

  lemma PumpMoves(st: State, g: nat, pump: Pump)
    requires LifeInv(st) && g in st.insts
    requires st.insts[g].pump != NotStarted && st.insts[g].pump != Exited && pump != NotStarted && pump != Exited
    ensures LifeInv(Set(st, g, st.insts[g].(pump := pump)))
  {
    assert Consistent(g, st.insts[g]);
    SetKeepsLife(st, g, st.insts[g].(pump := pump));
  }

  lemma PumpStepKeepsLife(st: State, op: Op)
    requires LifeInv(st) && Enabled(st, op)
    requires op.PumpExits? || op.PumpDelivers? || op.PumpSweeps?
    ensures LifeInv(Step(st, op))
  {
    var g := op.g;
    match op {
      case PumpExits(_) =>
        assert Consistent(g, st.insts[g]);
        PumpExitsShape(st, g);
        SetKeepsLife(st, g, st.insts[g].(doneCloses := 1, pump := Exited));
      case PumpDelivers(_) => PumpMoves(st, g, Ranging);
      case PumpSweeps(_) => PumpMoves(st, g, Swept);
    }
  }

  lemma StepKeepsLife(st: State, op: Op)
    requires LifeInv(st) && Enabled(st, op)
    ensures LifeInv(Step(st, op))
  {
    if Own(st, op).Some? {
      OwnIsConsistent(st, op);
      var (g, i) := Own(st, op).value;
      SetKeepsLife(st, g, i);
    } else if op.Reserve? {
      ReserveKeepsLife(st, op.accountId);
    } else if op.ConnectFails? || op.Install? || op.Release? {
      SlotStepKeepsLife(st, op);
    } else if op.PumpExits? || op.PumpDelivers? || op.PumpSweeps? {
      PumpStepKeepsLife(st, op);
    }
  }

  // ---------------------------------------------------------------- fan-out lists

  /** A step that leaves the lists and channels alone and un-releases nothing. */
  lemma SlotsKeepFan(st: State, st': State)
    requires FanInv(st) && st'.subs == st.subs && st'.info == st.info && st'.nextSub == st.nextSub
    requires forall g | g in st.insts :: g in st'.insts && (st.insts[g].released ==> st'.insts[g].released)
    ensures FanInv(st')
  {
    forall a | a in st'.subs ensures ListInv(st', a) {
      assert ListInv(st, a);
    }
    forall s | s in st'.info ensures SubInv(st', s) {
      assert SubInv(st, s);
    }
  }

  lemma SentKeeps(sub: Sub, listed: bool, e: Event)
    requires sub.flag == sub.ch.closed && !sub.ch.panicked && |sub.ch.buffer| <= SUBSCRIBER_CAPACITY
    requires |sub.ch.buffer| <= |sub.got| && sub.ch.buffer == sub.got[|sub.got| - |sub.ch.buffer|..]
    ensures var sub' := Sent(sub, listed, e);
            && sub'.flag == sub.flag && sub'.flag == sub'.ch.closed && !sub'.ch.panicked
               && |sub'.ch.buffer| <= SUBSCRIBER_CAPACITY
            && |sub'.ch.buffer| <= |sub'.got| && sub'.ch.buffer == sub'.got[|sub'.got| - |sub'.ch.buffer|..]
            && sub'.accountId == sub.accountId && sub'.lateFor == sub.lateFor && sub'.sweptBy == sub.sweptBy
            && (sub'.got == sub.got || (listed && !sub.flag && sub'.got == sub.got + [e]))
  {
    SuffixGrows(sub.got, sub.ch.buffer, e);
  }

  lemma SuffixGrows(got: seq<Event>, buffer: seq<Event>, e: Event)
    requires |buffer| <= |got| && buffer == got[|got| - |buffer|..]
    ensures buffer + [e] == (got + [e])[|got| - |buffer|..]
  {
  }

  lemma DeliversKeepsFan(st: State, g: nat)
    requires FanInv(st) && Enabled(st, PumpDelivers(g))
    ensures FanInv(DeliversStep(st, g))
  {
    var st', list := DeliversStep(st, g), SubsOf(st, st.insts[g].accountId);
    forall s | s in st.info
      ensures SubInv(st', s) && st'.info[s].flag == st.info[s].flag && st'.info[s].accountId == st.info[s].accountId
    {
      assert SubInv(st, s);
      DeliversKeepsSub(st, g, s);
    }
    forall a | a in st'.subs ensures ListInv(st', a) {
      assert ListInv(st, a);
    }
  }

  lemma DeliversKeepsSub(st: State, g: nat, s: nat)
    requires Enabled(st, PumpDelivers(g)) && s in st.info && SubInv(st, s)
    ensures var st' := DeliversStep(st, g);
            SubInv(st', s) && st'.info[s].flag == st.info[s].flag && st'.info[s].accountId == st.info[s].accountId
  {
    SentKeeps(st.info[s], s in SubsOf(st, st.insts[g].accountId), st.insts[g].pump.e);
  }

  lemma SweepsKeepsFan(st: State, g: nat)
    requires FanInv(st) && g in st.insts && !st.insts[g].released
    ensures FanInv(SweepsStep(st, g))
  {
    var st', a, list := SweepsStep(st, g), st.insts[g].accountId, SubsOf(st, st.insts[g].accountId);
    forall s | s in st'.info ensures SubInv(st', s) {
      assert SubInv(st, s);
    }
    forall b | b in st'.subs ensures ListInv(st', b) {
      assert ListInv(st, b);
      forall s | s in st.subs[b] ensures s !in list {
        if a in st.subs { assert ListInv(st, a); }
      }
    }
  }

  lemma SubscribeKeepsFan(st: State, a: string)
    requires FanInv(st)
    ensures FanInv(SubscribeStep(st, a))
  {
    var st' := SubscribeStep(st, a);
    NextSubIsNew(st);
    forall s | s in st'.info ensures SubInv(st', s) {
      if s == st.nextSub {
        NewSubInv(st, a);
      } else {
        SubKept(st, st', s);
      }
    }
    forall b | b in st'.subs ensures ListInv(st', b) {
      if b == a {
        NewListInv(st, a);
      } else {
        ListKept(st, st', b);
      }
    }
  }

  lemma NextSubIsNew(st: State)
    requires FanInv(st)
    ensures st.nextSub !in st.info
  {
    forall s | s in st.info ensures s < st.nextSub {
      assert SubInv(st, s);
    }
  }

  lemma NewSubInv(st: State, a: string)
    ensures SubInv(SubscribeStep(st, a), st.nextSub)
  {
  }

  lemma NewListInv(st: State, a: string)
    requires st.nextSub !in st.info && (a in st.subs ==> ListInv(st, a))
    ensures ListInv(SubscribeStep(st, a), a)
  {
  }

  lemma UnsubscribeKeepsFan(st: State, s: nat)
    requires FanInv(st) && s in st.info
    ensures FanInv(UnsubscribeStep(st, s))
  {
    var st', a := UnsubscribeStep(st, s), st.info[s].accountId;
    if s in SubsOf(st, a) {
      assert ListInv(st, a);
      RemoveFirstKeeps(st.subs[a], s);
    }
    forall x | x in st'.info ensures SubInv(st', x) {
      assert SubInv(st, x);
    }
    forall b | b in st'.subs ensures ListInv(st', b) {
      assert ListInv(st, b);
    }
  }

  lemma ConsumeKeepsFan(st: State, s: nat)
    requires FanInv(st) && Enabled(st, Consume(s))
    ensures FanInv(Step(st, Consume(s)))
  {
    assert SubInv(st, s);
    ConsumedKeeps(st, s);
    FanKept(st, Step(st, Consume(s)), s);
  }

  /** A step on one subscription that leaves its account and its flag. */
  lemma FanKept(st: State, st': State, s: nat)
    requires FanInv(st) && s in st.info && s in st'.info && SubInv(st', s)
    requires st'.subs == st.subs && st'.insts == st.insts && st'.nextSub == st.nextSub
    requires st'.info == st.info[s := st'.info[s]]
    requires st'.info[s].accountId == st.info[s].accountId && st'.info[s].flag == st.info[s].flag
    ensures FanInv(st')
  {
    forall x | x in st'.info ensures SubInv(st', x) {
      if x != s {
        SubKept(st, st', x);
      }
    }
    forall b | b in st'.subs ensures ListInv(st', b) {
      ListKept(st, st', b);
    }
  }

  lemma ConsumedKeeps(st: State, s: nat)
    requires Enabled(st, Consume(s)) && SubInv(st, s)
    ensures SubInv(Step(st, Consume(s)), s)
  {
  }

  /** A subscription that a step leaves alone. */
  lemma SubKept(st: State, st': State, x: nat)
    requires x in st.info && x in st'.info && SubInv(st, x)
    requires st'.info[x] == st.info[x] && st'.insts == st.insts && st'.nextSub >= st.nextSub
    ensures SubInv(st', x)
  {
  }

  lemma ListKept(st: State, st': State, b: string)
    requires b in st.subs && b in st'.subs && ListInv(st, b) && st'.subs[b] == st.subs[b]
    requires forall x | x in st.info ::
             x in st'.info && st'.info[x].accountId == st.info[x].accountId && st'.info[x].flag == st.info[x].flag
    ensures ListInv(st', b)
  {
  }

  predicate SlotOp(op: Op) {
    !(op.PumpDelivers? || op.PumpSweeps? || op.Subscribe? || op.Unsubscribe? || op.Consume?)
  }

  /** What the steps on slots, providers and goroutines do to every generation:
      nothing un-happens, and no cursor moves back. */
  ghost predicate Advances(st: State, st': State) {
    && st'.subs == st.subs && st'.info == st.info && st'.nextSub == st.nextSub
    && (forall g | g in st.insts :: g in st'.insts && Ahead(st.insts[g], st'.insts[g]))
    && (forall g | g in st'.insts && g !in st.insts :: g >= st.nextInst && PipeInv(g, st'.insts[g]))
  }

  ghost predicate Ahead(i: Instance, i': Instance) {
    && i'.accountId == i.accountId
    && (i.released ==> i'.released)
    && i.provider.emitted <= i'.provider.emitted
    && Cursor(i) <= Cursor(i')
  }

  lemma EmittedAdvances(g: nat, i: Instance)
    requires PipeInv(g, i)
    ensures var i' := i.(provider := Emitted(i.provider, g)); PipeInv(g, i') && Ahead(i, i')
  {
  }

  lemma ClosedAdvances(g: nat, i: Instance)
    requires PipeInv(g, i)
    ensures var i' := i.(provider := Closed(i.provider)); PipeInv(g, i') && Ahead(i, i')
  {
  }

  lemma ReceivesAdvances(g: nat, i: Instance)
    requires PipeInv(g, i) && i.provider.ch.buffer != [] && !i.pump.Holding?
    ensures var ch := i.provider.ch;
            var i' := i.(pump := Holding(ch.buffer[0]), provider := i.provider.(ch := ch.(buffer := ch.buffer[1..])));
            PipeInv(g, i') && Ahead(i, i')
  {
  }

  /** A change of record that leaves the provider and what the pump holds alone. */
  lemma StillAdvances(g: nat, i: Instance, i': Instance)
    requires PipeInv(g, i) && i'.provider == i.provider && i'.accountId == i.accountId && (i.released ==> i'.released)
    requires i'.pump == i.pump || (!i.pump.Holding? && !i'.pump.Holding?)
    ensures PipeInv(g, i') && Ahead(i, i')
  {
  }

  predicate ProviderOp(op: Op) {
    op.Emit? || op.CloseQuietly? || op.CloseWithFinalEvent? || op.PumpReceives?
  }

  lemma ProviderOpAdvances(st: State, op: Op)
    requires OrderInv(st) && Enabled(st, op) && ProviderOp(op)
    ensures var (g, i) := Own(st, op).value; g in st.insts && PipeInv(g, i) && Ahead(st.insts[g], i)
  {
    var before := st.insts[op.g];
    assert PipeInv(op.g, before);
    match op {
      case Emit(g) => EmittedAdvances(g, before);
      case CloseQuietly(g) => ClosedAdvances(g, before);
      case CloseWithFinalEvent(g) =>
        EmittedAdvances(g, before);
        ClosedAdvances(g, before.(provider := Emitted(before.provider, g)));
      case PumpReceives(g) => ReceivesAdvances(g, before);
    }
  }

  lemma OwnAdvances(st: State, op: Op)
    requires LifeInv(st) && OrderInv(st) && Enabled(st, op) && Own(st, op).Some?
    ensures var (g, i) := Own(st, op).value; g in st.insts && PipeInv(g, i) && Ahead(st.insts[g], i)
  {
    if ProviderOp(op) {
      ProviderOpAdvances(st, op);
    } else {
      var (g, i) := Own(st, op).value;
      assert PipeInv(g, st.insts[g]) && Consistent(g, st.insts[g]);
      StillAdvances(g, st.insts[g], i);
    }
  }

  lemma SetAdvances(st: State, g: nat, i: Instance, instances: map<string, nat>)
    requires OrderInv(st) && g in st.insts && PipeInv(g, i) && Ahead(st.insts[g], i)
    ensures Advances(st, Set(st, g, i).(instances := instances))
    ensures forall h | h in st.insts :: PipeInv(h, Set(st, g, i).(instances := instances).insts[h])
  {
  }

  lemma ShapeAdvances(st: State, op: Op)
    requires LifeInv(st) && OrderInv(st) && Enabled(st, op)
    requires op.ConnectFails? || op.Install? || op.Release? || op.PumpExits?
    ensures Advances(st, Step(st, op))
    ensures forall g | g in st.insts :: PipeInv(g, Step(st, op).insts[g])
  {
    var g := op.g;
    assert PipeInv(g, st.insts[g]) && Consistent(g, st.insts[g]);
    var i, instances := SlotShape(st, op);
    StillAdvances(g, st.insts[g], i);
    SetAdvances(st, g, i, instances);
  }

  lemma OwnStepAdvances(st: State, op: Op)
    requires LifeInv(st) && OrderInv(st) && Enabled(st, op) && Own(st, op).Some?
    ensures Advances(st, Step(st, op))
    ensures forall g | g in st.insts :: PipeInv(g, Step(st, op).insts[g])
  {
    OwnAdvances(st, op);
    var (g, i) := Own(st, op).value;
    var st' := Set(st, g, i);
    assert Step(st, op) == st' && st' == st'.(instances := st.instances);
    SetAdvances(st, g, i, st.instances);
  }

  lemma ReserveAdvances(st: State, a: string)
    requires OrderInv(st) && MapInv(st)
    ensures Advances(st, ReserveStep(st, a))
    ensures forall g | g in st.insts :: PipeInv(g, ReserveStep(st, a).insts[g])
  {
    assert forall g | g in st.insts :: PipeInv(g, st.insts[g]);
  }

  lemma SlotOpAdvances(st: State, op: Op)
    requires LifeInv(st) && OrderInv(st) && Enabled(st, op) && SlotOp(op)
    ensures Advances(st, Step(st, op))
    ensures forall g | g in st.insts :: PipeInv(g, Step(st, op).insts[g])
  {
    if op.Reserve? {
      ReserveAdvances(st, op.accountId);
    } else if op.ConnectFails? || op.Install? || op.Release? || op.PumpExits? {
      ShapeAdvances(st, op);
    } else {
      OwnStepAdvances(st, op);
    }
  }

  lemma SlotShape(st: State, op: Op) returns (i: Instance, instances: map<string, nat>)
    requires LifeInv(st) && Enabled(st, op)
    requires op.ConnectFails? || op.Install? || op.Release? || op.PumpExits?
    ensures Step(st, op) == Set(st, op.g, i).(instances := instances)
    ensures var before := st.insts[op.g];
            && i.provider == before.provider && i.accountId == before.accountId && (before.released ==> i.released)
            && (i.pump == before.pump || (!before.pump.Holding? && !i.pump.Holding?))
  {
    i, instances := st.insts[op.g], st.instances - {st.insts[op.g].accountId};
    match op {
      case ConnectFails(g) =>
        ConnectFailsShape(st, g);
        i := i.(doneCloses := 1, released := true, connect := Failed);
      case Install(g) =>
        InstallShape(st, g);
        i, instances := i.(p := Some(g), slot := Online, connect := Installed(g)), st.instances;
      case Release(g) =>
        ReleaseShape(st, g);
        i := i.(released := true, disconnect := NoCall);
      case PumpExits(g) =>
        PumpExitsShape(st, g);
        i, instances := i.(doneCloses := 1, pump := Exited), st.instances;
    }
  }

  // ---------------------------------------------------------------- order

  lemma AdvancesKeepsGot(st: State, st': State, sub: Sub)
    requires LifeInv(st) && GotInv(st, sub) && Advances(st, st')
    ensures GotInv(st', sub)
  {
    forall k | 0 <= k < |sub.got| ensures Sourced(st', sub, sub.got[k]) && Past(st', sub, sub.got[k]) {
      var e := sub.got[k];
      assert Sourced(st, sub, e) && Past(st, sub, e);
      forall g | g in st'.insts && !st'.insts[g].released && st'.insts[g].accountId == sub.accountId
        ensures e.gen < g || (e.gen == g && e.number < Cursor(st'.insts[g]))
      {
        if g in st.insts { assert Ahead(st.insts[g], st'.insts[g]); }
      }
    }
  }

  lemma SlotOpKeepsOrder(st: State, op: Op)
    requires LifeInv(st) && OrderInv(st) && Enabled(st, op) && SlotOp(op)
    ensures OrderInv(Step(st, op))
  {
    SlotOpAdvances(st, op);
    var st' := Step(st, op);
    forall s | s in st'.info ensures GotInv(st', st'.info[s]) {
      AdvancesKeepsGot(st, st', st.info[s]);
    }
  }

  lemma SlotOpKeepsFan(st: State, op: Op)
    requires LifeInv(st) && OrderInv(st) && FanInv(st) && Enabled(st, op) && SlotOp(op)
    ensures FanInv(Step(st, op))
  {
    SlotOpAdvances(st, op);
    forall g | g in st.insts ensures st.insts[g].released ==> Step(st, op).insts[g].released {
      assert Ahead(st.insts[g], Step(st, op).insts[g]);
    }
    SlotsKeepFan(st, Step(st, op));
  }

  /** Delivering the event the pump holds moves the cursor past it. */
  lemma DeliveryAdvances(g: nat, i: Instance)
    requires PipeInv(g, i) && i.pump.Holding?
    ensures var i' := i.(pump := Ranging); PipeInv(g, i') && Ahead(i, i') && Cursor(i') > i.pump.e.number
  {
  }

  lemma GotOneMore(st: State, st': State, sub: Sub, g: nat, e: Event)
    requires LifeInv(st) && GotInv(st, sub) && GotInv(st', sub)
    requires g in st.insts && !st.insts[g].released && st.insts[g].accountId == sub.accountId
    requires st.insts[g].pump == Holding(e) && PipeInv(g, st.insts[g])
    requires st' == Set(st, g, st.insts[g].(pump := Ranging))
    ensures GotInv(st', sub.(got := sub.got + [e]))
  {
    var sub' := sub.(got := sub.got + [e]);
    DeliveryAdvances(g, st.insts[g]);
    forall k | 0 <= k < |sub'.got| ensures Sourced(st', sub', sub'.got[k]) && Past(st', sub', sub'.got[k]) {
      if k < |sub.got| {
        assert Sourced(st', sub, sub.got[k]) && Past(st', sub, sub.got[k]);
      } else {
        assert Past(st', sub', e) by {
          assert forall h | h in st'.insts && !st'.insts[h].released && st'.insts[h].accountId == sub.accountId ::
                 h == g;
        }
      }
    }
    forall k, l | 0 <= k < l < |sub'.got| ensures Before(sub'.got[k], sub'.got[l]) {
      if l == |sub.got| {
        assert Past(st, sub, sub.got[k]);
      } else {
        assert Before(sub.got[k], sub.got[l]);
      }
    }
  }

  lemma GotIrrelevant(st: State, st': State, sub: Sub, sub': Sub)
    requires GotInv(st, sub) && st'.insts == st.insts && sub'.got == sub.got && sub'.accountId == sub.accountId
    ensures GotInv(st', sub')
  {
    forall k | 0 <= k < |sub'.got| ensures Sourced(st', sub', sub'.got[k]) && Past(st', sub', sub'.got[k]) {
      assert Sourced(st, sub, sub.got[k]) && Past(st, sub, sub.got[k]);
    }
  }

  lemma DeliveryKeepsGot(st: State, g: nat, mid: State, sub: Sub, listed: bool)
    requires LifeInv(st) && GotInv(st, sub) && g in st.insts && PipeInv(g, st.insts[g])
    requires st.insts[g].pump.Holding? && !st.insts[g].released
    requires listed ==> sub.accountId == st.insts[g].accountId
    requires mid == Set(st, g, st.insts[g].(pump := Ranging)) && GotInv(mid, sub)
    ensures GotInv(mid, Sent(sub, listed, st.insts[g].pump.e))
  {
    var e := st.insts[g].pump.e;
    var sub' := Sent(sub, listed, e);
    if sub'.got == sub.got {
      GotIrrelevant(mid, mid, sub, sub');
    } else {
      GotOneMore(st, mid, sub, g, e);
      GotIrrelevant(mid, mid, sub.(got := sub.got + [e]), sub');
    }
  }

  lemma ListedAccount(st: State, a: string, s: nat)
    requires FanInv(st)
    ensures s in SubsOf(st, a) ==> s in st.info && st.info[s].accountId == a
  {
    if a in st.subs { assert ListInv(st, a); }
  }

  lemma DeliversKeepsOrder(st: State, g: nat)
    requires Inv(st) && Enabled(st, PumpDelivers(g))
    ensures OrderInv(DeliversStep(st, g))
  {
    var i := st.insts[g];
    var mid := Set(st, g, i.(pump := Ranging));
    assert PipeInv(g, i) && Consistent(g, i);
    DeliveryAdvances(g, i);
    SetAdvances(st, g, i.(pump := Ranging), st.instances);
    assert Advances(st, mid);
    var st', list := DeliversStep(st, g), SubsOf(st, i.accountId);
    forall s | s in st'.info ensures GotInv(st', st'.info[s]) {
      AdvancesKeepsGot(st, mid, st.info[s]);
      ListedAccount(st, i.accountId, s);
      DeliveryKeepsGot(st, g, mid, st.info[s], s in list);
      GotIrrelevant(mid, st', st'.info[s], st'.info[s]);
    }
  }

  lemma SweepsKeepsOrder(st: State, g: nat)
    requires LifeInv(st) && OrderInv(st) && Enabled(st, PumpSweeps(g))
    ensures OrderInv(SweepsStep(st, g))
  {
    var i := st.insts[g];
    var mid := Set(st, g, i.(pump := Swept));
    assert PipeInv(g, i);
    StillAdvances(g, i, i.(pump := Swept));
    SetAdvances(st, g, i.(pump := Swept), st.instances);
    assert Advances(st, mid);
    var st' := SweepsStep(st, g);
    assert st'.insts == mid.insts;
    forall s | s in st'.info ensures GotInv(st', st'.info[s]) {
      AdvancesKeepsGot(st, mid, st.info[s]);
      assert st'.info[s] == SweptSub(st.info[s], s in SubsOf(st, i.accountId), g);
      GotIrrelevant(mid, st', st.info[s], st'.info[s]);
    }
  }

  lemma ListOpKeepsOrder(st: State, op: Op)
    requires OrderInv(st) && Enabled(st, op) && (op.Subscribe? || op.Unsubscribe? || op.Consume?)
    ensures OrderInv(Step(st, op))
  {
    var st' := Step(st, op);
    assert st'.insts == st.insts;
    forall s | s in st'.info ensures GotInv(st', st'.info[s]) {
      ListOpKeepsGot(st, op, s);
    }
  }

  lemma ListOpKeepsGot(st: State, op: Op, s: nat)
    requires Enabled(st, op) && (op.Subscribe? || op.Unsubscribe? || op.Consume?)
    requires s in st.info ==> GotInv(st, st.info[s])
    ensures s in Step(st, op).info ==> GotInv(Step(st, op), Step(st, op).info[s])
  {
    if s in st.info && (op.Subscribe? ==> s != st.nextSub) {
      GotIrrelevant(st, Step(st, op), st.info[s], Step(st, op).info[s]);
    }
  }

  lemma PumpOpKeepsInv(st: State, op: Op)
    requires Inv(st) && Enabled(st, op) && (op.PumpDelivers? || op.PumpSweeps?)
    ensures FanInv(Step(st, op)) && OrderInv(Step(st, op))
  {
    match op {
      case PumpDelivers(g) => DeliversKeepsFan(st, g); DeliversKeepsOrder(st, g);
      case PumpSweeps(g) =>
        assert Consistent(g, st.insts[g]);
        SweepsKeepsFan(st, g);
        SweepsKeepsOrder(st, g);
    }
  }

  lemma ListOpKeepsFan(st: State, op: Op)
    requires FanInv(st) && Enabled(st, op) && (op.Subscribe? || op.Unsubscribe? || op.Consume?)
    ensures FanInv(Step(st, op))
  {
    match op {
      case Subscribe(a) => SubscribeKeepsFan(st, a);
      case Unsubscribe(s) => UnsubscribeKeepsFan(st, s);
      case Consume(s) => ConsumeKeepsFan(st, s);
    }
  }

  lemma StepKeepsInv(st: State, op: Op)
    requires Inv(st) && Enabled(st, op)
    ensures Inv(Step(st, op))
  {
    StepKeepsLife(st, op);
    if SlotOp(op) {
      SlotOpKeepsFan(st, op);
      SlotOpKeepsOrder(st, op);
    } else if op.PumpDelivers? || op.PumpSweeps? {
      PumpOpKeepsInv(st, op);
    } else {
      ListOpKeepsFan(st, op);
      ListOpKeepsOrder(st, op);
    }
  }

  // ---------------------------------------------------------------- every run

  ghost predicate Reaches(st: State, ops: seq<Op>, end: State)
    decreases |ops|
  {
    if ops == [] then end == st
    else Enabled(st, ops[0]) && Reaches(Step(st, ops[0]), ops[1..], end)
  }

  lemma {:induction false} RunKeepsInv(st: State, ops: seq<Op>, end: State)
    requires Inv(st) && Reaches(st, ops, end)
    ensures Inv(end)
    decreases |ops|
  {
    if ops != [] {
      StepKeepsInv(st, ops[0]);
      RunKeepsInv(Step(st, ops[0]), ops[1..], end);
    }
  }

  ghost predicate Live(i: Instance) {
    i.pump != NotStarted && i.pump != Exited
  }

  /** An account has at most one live pump, and it belongs to the generation in
      the map. */
  lemma OnePumpPerAccount(ops: seq<Op>, end: State, g: nat, h: nat)
    requires Reaches(Init(), ops, end) && g in end.insts && h in end.insts
    requires Live(end.insts[g]) && Live(end.insts[h]) && end.insts[g].accountId == end.insts[h].accountId
    ensures g == h && end.insts[g].accountId in end.instances && end.instances[end.insts[g].accountId] == g
  {
    RunKeepsInv(Init(), ops, end);
    assert Consistent(g, end.insts[g]) && Consistent(h, end.insts[h]);
  }

  /** Connect never finds its slot gone; whatever a Connect or Disconnect call
      deletes, installs into or releases is the record it reserved or marked; its
      Disconnect goes to its own provider. */
  lemma CallsHitTheirOwnRecord(ops: seq<Op>, end: State, g: nat)
    requires Reaches(Init(), ops, end) && g in end.insts
    ensures end.insts[g].connect != SlotGone
    ensures end.insts[g].connect == InProviderConnect || end.insts[g].disconnect != NoCall ==>
              end.insts[g].accountId in end.instances && end.instances[end.insts[g].accountId] == g
    ensures end.insts[g].disconnect != NoCall ==> end.insts[g].p == Some(g)
    ensures Live(end.insts[g]) ==> end.insts[g].pumpDone == g
  {
    RunKeepsInv(Init(), ops, end);
    assert Consistent(g, end.insts[g]);
    if end.insts[g].connect == InProviderConnect || end.insts[g].disconnect != NoCall {
      SlotIsOwn(end, g);
    }
  }

  /** pumpDone is closed at most once, and has been closed exactly once when the
      slot is released. */
  lemma PumpDoneClosedOnce(ops: seq<Op>, end: State, g: nat)
    requires Reaches(Init(), ops, end) && g in end.insts
    ensures end.insts[g].doneCloses <= 1
    ensures end.insts[g].released ==> end.insts[g].doneCloses == 1 && !Live(end.insts[g])
  {
    RunKeepsInv(Init(), ops, end);
    assert Consistent(g, end.insts[g]);
  }

  /** A pump's final sweep never closes a subscription that was registered after
      its slot had been released. */
  lemma SweepSparesNewcomers(ops: seq<Op>, end: State, s: nat)
    requires Reaches(Init(), ops, end) && s in end.info && end.info[s].sweptBy.Some?
    ensures end.info[s].sweptBy.value !in end.info[s].lateFor
  {
    RunKeepsInv(Init(), ops, end);
    assert SubInv(end, s);
  }

  /** What a subscriber gets is emitted by providers of its account, each event at
      most once, in order of emission, and generation after generation. */
  lemma FanOutInOrder(ops: seq<Op>, end: State, s: nat)
    requires Reaches(Init(), ops, end) && s in end.info
    ensures var sub := end.info[s];
            && (forall k, l | 0 <= k < l < |sub.got| :: Before(sub.got[k], sub.got[l]))
            && (forall k | 0 <= k < |sub.got| :: Sourced(end, sub, sub.got[k]))
            && |sub.ch.buffer| <= |sub.got| && sub.ch.buffer == sub.got[|sub.got| - |sub.ch.buffer|..]
  {
    RunKeepsInv(Init(), ops, end);
    assert SubInv(end, s) && GotInv(end, end.info[s]);
  }

  /** No channel is ever sent to after it was closed, or closed twice. */
  lemma NoChannelPanics(ops: seq<Op>, end: State)
    requires Reaches(Init(), ops, end)
    ensures forall g | g in end.insts :: !end.insts[g].provider.ch.panicked
    ensures forall s | s in end.info :: !end.info[s].ch.panicked
  {
    RunKeepsInv(Init(), ops, end);
    forall g | g in end.insts ensures !end.insts[g].provider.ch.panicked {
      assert Consistent(g, end.insts[g]);
    }
    forall s | s in end.info ensures !end.info[s].ch.panicked {
      assert SubInv(end, s);
    }
  }
}
