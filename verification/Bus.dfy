/**
 The state bus (internal/state/bus.go) as a state machine.

 Every method of the bus runs under one mutex, so an execution is a sequence of
 atomic steps: the bus methods, commits to the database, timers going off, and
 consumers receiving.  This module defines the steps on values and proves what
 holds after every sequence of them; module BusClass runs them on objects.
 `S` is the identity of a subscription.
 */
module BusModel {
  import opened Lists

  const MAX_SUBSCRIBERS := 8
  const CHANNEL_CAPACITY := 8

  /** A frame: its version, its account, and how many commits the build had
      certainly seen (commits that land while it runs may or may not show). */
  datatype Snapshot = Snapshot(version: nat, accountId: string, builtAt: nat)

  /** One attempt to send a frame, and the free buffer slots it found. */
  datatype Offer = Offer(frame: Snapshot, free: nat)

  datatype Sub = Sub(
    accountId: string,
    closed: bool,
    buffer: seq<Snapshot>,
    received: seq<Snapshot>,
    offers: seq<Offer>,
    closes: nat)

  /** A runtime timer that has neither run nor been stopped. Once `fired`, its
      goroutine exists and waits for the mutex, and Stop comes too late. */
  datatype Timer = Timer(accountId: string, fired: bool)

  datatype State<S> = State(
    version: nat,
    pending: map<string, nat>,
    subs: map<string, seq<S>>,
    info: map<S, Sub>,
    timers: map<nat, Timer>,
    nextTimer: nat,
    commits: nat,
    announced: map<string, nat>,
    failed: set<S>,
    accepted: nat,
    ran: nat)

  datatype Op<S> =
    | Commit
    | TimerGoesOff(timer: nat)
    | Receive(s: S)
    | BuildNow
    | Subscribe(accountId: string, s: S, during: nat)
    | SubscribeFailed(accountId: string, during: nat)
    | Unsubscribe(s: S)
    | Publish(accountId: string, commit: nat)
    | Fire(timer: nat, ok: bool, during: nat)
    | Shutdown

  // ---------------------------------------------------------------- steps

  function SubsOf<S>(st: State<S>, a: string): seq<S> {
    if a in st.subs then st.subs[a] else []
  }

  function Announced<S>(st: State<S>, a: string): nat {
    if a in st.announced then st.announced[a] else 0
  }

  function Send(sub: Sub, f: Snapshot): Sub {
    var free := if |sub.buffer| < CHANNEL_CAPACITY then CHANNEL_CAPACITY - |sub.buffer| else 0;
    sub.(buffer := if free > 0 then sub.buffer + [f] else sub.buffer,
         offers := sub.offers + [Offer(f, free)])
  }

  function Close(sub: Sub): Sub {
    if sub.closed then sub else sub.(closed := true, closes := sub.closes + 1)
  }

  function Take(sub: Sub): Sub {
    if sub.buffer == [] then sub
    else sub.(buffer := sub.buffer[1..], received := sub.received + [sub.buffer[0]])
  }

  predicate Armed<S>(st: State<S>, t: nat) {
    t in st.timers && !st.timers[t].fired
  }

  function Begin<S>(st: State<S>, during: nat): State<S> {
    st.(version := st.version + 1, commits := st.commits + during)
  }

  function SubscribeStep<S>(st: State<S>, a: string, s: S, during: nat): State<S> {
    var f := Snapshot(st.version + 1, a, st.commits);
    Begin(st, during).(
      failed := st.failed - {s},
      info := st.info[s := Sub(a, false, [f], [], [Offer(f, CHANNEL_CAPACITY)], 0)],
      subs := st.subs[a := SubsOf(st, a) + [s]])
  }

  function UnsubscribeStep<S(==)>(st: State<S>, s: S): State<S>
    requires s in st.info
  {
    var a := st.info[s].accountId;
    st.(subs := if s in SubsOf(st, a) then st.subs[a := RemoveFirst(SubsOf(st, a), s)] else st.subs,
        info := st.info[s := Close(st.info[s])])
  }

  function Announce<S>(st: State<S>, a: string, commit: nat): State<S> {
    st.(announced := st.announced[a := if commit > Announced(st, a) then commit else Announced(st, a)])
  }

  function PublishStep<S>(st: State<S>, a: string, commit: nat): State<S> {
    var st' := Announce(st, a, commit);
    if a == "" || SubsOf(st, a) == [] then st'
    else if a in st.pending && Armed(st, st.pending[a]) then
      st'.(accepted := st.accepted + 1)
    else Arm(st', a)
  }

  function Arm<S>(st: State<S>, a: string): State<S> {
    st.(accepted := st.accepted + 1,
        timers := st.timers[st.nextTimer := Timer(a, false)],
        pending := st.pending[a := st.nextTimer],
        nextTimer := st.nextTimer + 1)
  }

  /** The fan-out loop of fire, seen by one subscription. */
  function Delivered(sub: Sub, listed: bool, f: Snapshot): Sub {
    if listed && !sub.closed then Send(sub, f) else sub
  }

  function Deliver<S(==)>(info: map<S, Sub>, list: seq<S>, f: Snapshot): map<S, Sub> {
    map s | s in info :: Delivered(info[s], s in list, f)
  }

  function Elems<S>(xs: seq<S>): set<S> {
    set x | x in xs
  }

  /** The goroutine of a timer that went off gets the mutex.  `failed` remembers the
      subscriptions whose last build failed. */
  function FireStep<S(==)>(st: State<S>, t: nat, ok: bool, during: nat): State<S>
    requires t in st.timers
  {
    var a := st.timers[t].accountId;
    var st' := st.(timers := st.timers - {t}, ran := st.ran + 1, pending := st.pending - {a});
    if SubsOf(st, a) == [] then st'
    else if !ok then Begin(st', during).(failed := st.failed + Elems(SubsOf(st, a)))
    else Begin(st', during).(
           failed := st.failed - Elems(SubsOf(st, a)),
           info := Deliver(st.info, SubsOf(st, a), Snapshot(st.version + 1, a, st.commits)))
  }

  predicate Listed<S>(st: State<S>, s: S) {
    exists a :: a in st.subs && s in st.subs[a]
  }

  function ShutdownStep<S>(st: State<S>): State<S> {
    st.(timers := map t | t in st.timers && !(t in st.pending.Values && Armed(st, t)) :: st.timers[t],
        pending := map[],
        subs := map[],
        info := map s | s in st.info :: if Listed(st, s) then Close(st.info[s]) else st.info[s])
  }

  /** When a step can happen. */
  predicate Enabled<S>(st: State<S>, op: Op<S>) {
    match op
    case Commit => true
    case TimerGoesOff(t) => Armed(st, t)
    case Receive(s) => s in st.info && st.info[s].buffer != []
    case BuildNow => true
    case Subscribe(a, s, _) => a != "" && |SubsOf(st, a)| < MAX_SUBSCRIBERS && s !in st.info
    case SubscribeFailed(a, _) => |SubsOf(st, a)| < MAX_SUBSCRIBERS
    case Unsubscribe(s) => s in st.info
    case Publish(_, commit) => commit <= st.commits
    case Fire(t, _, _) => t in st.timers && st.timers[t].fired
    case Shutdown => true
  }

  function Step<S(==)>(st: State<S>, op: Op<S>): State<S>
    requires Enabled(st, op)
  {
    match op
    case Commit => st.(commits := st.commits + 1)
    case TimerGoesOff(t) => st.(timers := st.timers[t := st.timers[t].(fired := true)])
    case Receive(s) => st.(info := st.info[s := Take(st.info[s])])
    case BuildNow => st.(version := st.version + 1)
    case Subscribe(a, s, during) => SubscribeStep(st, a, s, during)
    case SubscribeFailed(_, during) => Begin(st, during)
    case Unsubscribe(s) => UnsubscribeStep(st, s)
    case Publish(a, commit) => PublishStep(st, a, commit)
    case Fire(t, ok, during) => FireStep(st, t, ok, during)
    case Shutdown => ShutdownStep(st)
  }

  function Init<S>(): State<S> {
    State(0, map[], map[], map[], map[], 0, 0, map[], {}, 0, 0)
  }

  // ---------------------------------------------------------------- invariants

  /** The frames that entered the channel, in order. */
  function Kept(offers: seq<Offer>): seq<Snapshot> {
    if offers == [] then []
    else
      var o := offers[|offers| - 1];
      Kept(offers[..|offers| - 1]) + (if o.free > 0 then [o.frame] else [])
  }

  /** What holds of one subscription: nothing is lost or reordered between the
      sends that found room and the consumer, versions strictly increase, and the
      channel was closed once if at all. */
  ghost predicate SubInv(sub: Sub, version: nat) {
    && |sub.buffer| <= CHANNEL_CAPACITY
    && sub.received + sub.buffer == Kept(sub.offers)
    && (forall i | 0 <= i < |sub.offers| :: sub.offers[i].frame.accountId == sub.accountId)
    && (forall i | 0 <= i < |sub.offers| :: sub.offers[i].frame.version <= version)
    && (forall i, j | 0 <= i < j < |sub.offers| :: sub.offers[i].frame.version < sub.offers[j].frame.version)
    && sub.offers != []
    && sub.closes == (if sub.closed then 1 else 0)
  }

  /** A listed subscription is known, open, and listed once, under its account. */
  ghost predicate ListInv<S>(st: State<S>, a: string)
    requires a in st.subs
  {
    && |st.subs[a]| <= MAX_SUBSCRIBERS
    && NoDuplicates(st.subs[a])
    && (forall s | s in st.subs[a] :: s in st.info && st.info[s].accountId == a && !st.info[s].closed)
  }

  ghost predicate ChannelInv<S>(st: State<S>) {
    ListsInv(st) && (forall s | s in st.info :: SubInv(st.info[s], st.version))
  }

  ghost predicate ListsInv<S>(st: State<S>) {
    "" !in st.subs && forall a | a in st.subs :: ListInv(st, a)
  }

  /** Some fire for `a` is still to come. */
  ghost predicate Outstanding<S>(st: State<S>, a: string) {
    exists t :: t in st.timers && st.timers[t].accountId == a
  }

  ghost predicate UpToDate<S>(st: State<S>, s: S)
    requires s in st.info
  {
    var sub := st.info[s];
    sub.offers != [] && sub.offers[|sub.offers| - 1].frame.builtAt >= Announced(st, sub.accountId)
  }

  /** One subscription's part of NoLostUpdate. */
  ghost predicate Served<S>(st: State<S>, a: string, s: S)
    requires s in st.info
  {
    Outstanding(st, a) || s in st.failed || UpToDate(st, s)
  }

  /** No announced commit is lost on a listed subscription: it was shown, or a
      fire that will show it is outstanding, or the last build for it failed. */
  ghost predicate NoLostUpdate<S>(st: State<S>) {
    forall a, s | a in st.subs && s in st.subs[a] && s in st.info :: Served(st, a, s)
  }

  ghost predicate TimerInv<S>(st: State<S>) {
    && (forall t | t in st.timers :: t < st.nextTimer)
    && (forall a | a in st.pending :: st.pending[a] in st.timers && st.timers[st.pending[a]].accountId == a)
    && st.ran + |st.timers| <= st.accepted
    && (forall a | a in st.announced :: st.announced[a] <= st.commits)
  }

  ghost predicate Inv<S>(st: State<S>) {
    ChannelInv(st) && TimerInv(st) && NoLostUpdate(st)
  }

  // ---------------------------------------------------------------- preservation

  lemma SendKeeps(sub: Sub, f: Snapshot, version: nat)
    requires SubInv(sub, version) && f.version > version && f.accountId == sub.accountId
    ensures SubInv(Send(sub, f), f.version)
  {
    var sub' := Send(sub, f);
    assert sub'.offers[..|sub.offers|] == sub.offers;
    assert sub.received + (sub.buffer + [f]) == (sub.received + sub.buffer) + [f];
  }

  lemma TakeKeeps(sub: Sub, version: nat)
    requires SubInv(sub, version)
    ensures SubInv(Take(sub), version)
  {
    if sub.buffer != [] {
      assert sub.buffer == [sub.buffer[0]] + sub.buffer[1..];
    }
  }

  lemma SubscribeKeepsChannels<S>(st: State<S>, a: string, s: S, during: nat)
    requires ChannelInv(st) && Enabled(st, Subscribe(a, s, during))
    ensures ChannelInv(SubscribeStep(st, a, s, during))
  {
    var st' := SubscribeStep(st, a, s, during);
    var o := Offer(Snapshot(st.version + 1, a, st.commits), CHANNEL_CAPACITY);
    assert Kept([o]) == Kept([]) + [o.frame] by { assert [o][..0] == []; }
    assert s !in SubsOf(st, a);
    assert ListInv(st', a);
    forall b | b in st'.subs ensures ListInv(st', b) {
      assert b != a ==> ListInv(st, b);
    }
  }

  lemma UnsubscribeLists<S>(st: State<S>, s: S, b: string)
    requires ChannelInv(st) && s in st.info && b in UnsubscribeStep(st, s).subs
    ensures b in st.subs
    ensures |UnsubscribeStep(st, s).subs[b]| <= |st.subs[b]| && NoDuplicates(UnsubscribeStep(st, s).subs[b])
    ensures forall x | x in UnsubscribeStep(st, s).subs[b] :: x in st.subs[b] && x != s
  {
    var a := st.info[s].accountId;
    assert b in st.subs by { if s !in SubsOf(st, a) { assert UnsubscribeStep(st, s).subs == st.subs; } }
    assert ListInv(st, b);
    if s in SubsOf(st, a) && a == b {
      RemoveFirstKeeps(st.subs[a], s);
    } else {
      assert UnsubscribeStep(st, s).subs[b] == st.subs[b];
    }
  }

  lemma UnsubscribeKeepsChannels<S>(st: State<S>, s: S)
    requires ChannelInv(st) && s in st.info
    ensures ChannelInv(UnsubscribeStep(st, s))
  {
    var st' := UnsubscribeStep(st, s);
    forall b | b in st'.subs ensures ListInv(st', b) {
      UnsubscribeLists(st, s, b);
      assert ListInv(st, b);
    }
  }

  lemma DeliverKeeps<S>(st: State<S>, a: string, s: S)
    requires ChannelInv(st) && s in st.info
    ensures SubInv(Delivered(st.info[s], s in SubsOf(st, a), Snapshot(st.version + 1, a, st.commits)), st.version + 1)
  {
    assert SubInv(st.info[s], st.version);
    if s in SubsOf(st, a) {
      assert ListInv(st, a);
      SendKeeps(st.info[s], Snapshot(st.version + 1, a, st.commits), st.version);
    }
  }

  /** Steps that change no list, close nothing and forget no subscription. */
  lemma SameLists<S>(st: State<S>, st': State<S>)
    requires ListsInv(st) && st'.subs == st.subs
    requires forall s | s in st.info ::
             s in st'.info && st'.info[s].accountId == st.info[s].accountId && st'.info[s].closed == st.info[s].closed
    ensures ListsInv(st')
  {
    forall b | b in st'.subs ensures ListInv(st', b) {
      assert ListInv(st, b);
    }
  }

  /** What a fire does to the channels. */
  lemma FireInfo<S>(st: State<S>, t: nat, ok: bool, during: nat)
    requires t in st.timers
    ensures var a := st.timers[t].accountId;
            var st' := FireStep(st, t, ok, during);
            && st'.subs == st.subs
            && (if SubsOf(st, a) == [] then st'.version == st.version else st'.version == st.version + 1)
            && st'.info == if ok && SubsOf(st, a) != []
                           then Deliver(st.info, SubsOf(st, a), Snapshot(st.version + 1, a, st.commits)) else st.info
  {
  }

  lemma FireKeepsChannels<S>(st: State<S>, t: nat, ok: bool, during: nat)
    requires ChannelInv(st) && t in st.timers
    ensures ChannelInv(FireStep(st, t, ok, during))
  {
    var st', a := FireStep(st, t, ok, during), st.timers[t].accountId;
    FireInfo(st, t, ok, during);
    SameLists(st, st');
    forall s | s in st'.info ensures SubInv(st'.info[s], st'.version) {
      assert SubInv(st.info[s], st.version);
      DeliverKeeps(st, a, s);
    }
  }

  lemma ReceiveKeepsChannels<S>(st: State<S>, s: S)
    requires ChannelInv(st) && s in st.info
    ensures ChannelInv(st.(info := st.info[s := Take(st.info[s])]))
  {
    TakeKeeps(st.info[s], st.version);
    SameLists(st, st.(info := st.info[s := Take(st.info[s])]));
  }

  /** A step that touches neither the lists nor the channels. */
  lemma QuietKeepsChannels<S>(st: State<S>, st': State<S>)
    requires ChannelInv(st) && st'.subs == st.subs && st'.info == st.info && st'.version >= st.version
    ensures ChannelInv(st')
  {
    SameLists(st, st');
  }

  lemma StepKeepsChannels<S>(st: State<S>, op: Op<S>)
    requires ChannelInv(st) && Enabled(st, op)
    ensures ChannelInv(Step(st, op))
  {
    match op {
      case Subscribe(a, s, during) => SubscribeKeepsChannels(st, a, s, during);
      case Unsubscribe(s) => UnsubscribeKeepsChannels(st, s);
      case Fire(t, ok, during) => FireKeepsChannels(st, t, ok, during);
      case Receive(s) => ReceiveKeepsChannels(st, s);
      case Shutdown => ShutdownKeepsChannels(st);
      case Commit => QuietKeepsChannels(st, Step(st, op));
      case TimerGoesOff(_) => QuietKeepsChannels(st, Step(st, op));
      case BuildNow => QuietKeepsChannels(st, Step(st, op));
      case SubscribeFailed(_, _) => QuietKeepsChannels(st, Step(st, op));
      case Publish(a, c) => QuietKeepsChannels(st, PublishStep(st, a, c));
    }
  }

  lemma ShutdownKeepsChannels<S>(st: State<S>)
    requires ChannelInv(st)
    ensures ChannelInv(ShutdownStep(st))
  {
  }

  lemma {:induction false} SubmapSize<K, V>(m: map<K, V>, m': map<K, V>)
    requires m'.Keys <= m.Keys
    ensures |m'| <= |m|
    decreases |m'|
  {
    if k :| k in m' {
      SubmapSize(m - {k}, m' - {k});
      assert |m' - {k}| == |m'| - 1 by { assert (m' - {k}).Keys == m'.Keys - {k}; }
      assert |m - {k}| == |m| - 1 by { assert (m - {k}).Keys == m.Keys - {k}; }
    }
  }

  lemma FireKeepsTimers<S>(st: State<S>, t: nat, ok: bool, during: nat)
    requires TimerInv(st) && t in st.timers
    ensures TimerInv(FireStep(st, t, ok, during))
  {
    var st' := FireStep(st, t, ok, during);
    assert st'.timers == st.timers - {t} && st'.timers.Keys == st.timers.Keys - {t};
  }

  lemma ArmKeepsTimers<S>(st: State<S>, a: string)
    requires TimerInv(st)
    ensures TimerInv(Arm(st, a))
  {
    NewTimerCounts(st.timers, st.nextTimer, Timer(a, false));
  }

  lemma NewTimerCounts(timers: map<nat, Timer>, t: nat, timer: Timer)
    requires t !in timers
    ensures |timers[t := timer]| == |timers| + 1
  {
    assert timers[t := timer].Keys == timers.Keys + {t};
  }

  lemma PublishKeepsTimers<S>(st: State<S>, a: string, commit: nat)
    requires TimerInv(st) && commit <= st.commits
    ensures TimerInv(PublishStep(st, a, commit))
  {
    assert TimerInv(Announce(st, a, commit));
    ArmKeepsTimers(Announce(st, a, commit), a);
  }

  lemma StepKeepsTimers<S>(st: State<S>, op: Op<S>)
    requires TimerInv(st) && Enabled(st, op)
    ensures TimerInv(Step(st, op))
  {
    match op {
      case Fire(t, ok, during) => FireKeepsTimers(st, t, ok, during);
      case Publish(a, commit) => PublishKeepsTimers(st, a, commit);
      case Shutdown => SubmapSize(st.timers, ShutdownStep(st).timers);
      case TimerGoesOff(t) => assert Step(st, op).timers.Keys == st.timers.Keys;
      case Subscribe(_, _, _) =>
      case Unsubscribe(_) =>
      case Receive(_) =>
      case Commit =>
      case BuildNow =>
      case SubscribeFailed(_, _) =>
    }
  }

  lemma OutstandingStays<S>(st: State<S>, st': State<S>, a: string)
    requires forall t | t in st.timers && st.timers[t].accountId == a :: t in st'.timers && st'.timers[t].accountId == a
    ensures Outstanding(st, a) ==> Outstanding(st', a)
  {
    if u :| u in st.timers && st.timers[u].accountId == a {
      assert u in st'.timers;
    }
  }

  /** A successful fire shows the newest announced commit to its own account. */
  lemma FireServesOwn<S>(st: State<S>, t: nat, during: nat, s: S)
    requires t in st.timers && TimerInv(st)
    requires var a := st.timers[t].accountId;
             s in SubsOf(st, a) && s in st.info && !st.info[s].closed && st.info[s].accountId == a
    ensures UpToDate(FireStep(st, t, true, during), s)
  {
    var a := st.timers[t].accountId;
    FireInfo(st, t, true, during);
    assert Announced(st, a) <= st.commits;
    assert FireStep(st, t, true, during).announced == st.announced;
    assert FireStep(st, t, true, during).info[s] == Send(st.info[s], Snapshot(st.version + 1, a, st.commits));
  }

  /** No fire touches another account. */
  lemma FireServesOther<S>(st: State<S>, t: nat, ok: bool, during: nat, a: string, s: S)
    requires t in st.timers && ChannelInv(st) && a in st.subs && s in st.subs[a] && s in st.info
    requires a != st.timers[t].accountId && Served(st, a, s)
    ensures Served(FireStep(st, t, ok, during), a, s)
  {
    var st', b := FireStep(st, t, ok, during), st.timers[t].accountId;
    assert ListInv(st, a);
    assert s !in SubsOf(st, b) by { if b in st.subs { assert ListInv(st, b); } }
    assert st'.info[s] == st.info[s];
    OutstandingStays(st, st', a);
  }

  lemma FireServes<S>(st: State<S>, t: nat, ok: bool, during: nat)
    requires Inv(st) && t in st.timers
    ensures NoLostUpdate(FireStep(st, t, ok, during))
  {
    var st', b := FireStep(st, t, ok, during), st.timers[t].accountId;
    FireInfo(st, t, ok, during);
    forall a, s | a in st.subs && s in st.subs[a] && s in st.info
      ensures Served(st', a, s)
    {
      assert Served(st, a, s);
      if a != b {
        FireServesOther(st, t, ok, during, a, s);
      } else if ok {
        assert ListInv(st, a);
        FireServesOwn(st, t, during, s);
      }
    }
  }

  lemma PublishServesOne<S>(st: State<S>, a: string, commit: nat, b: string, s: S)
    requires TimerInv(st) && a != "" && s in SubsOf(st, b) && s in st.info && st.info[s].accountId == b
    requires Served(st, b, s)
    ensures Served(PublishStep(st, a, commit), b, s)
  {
    if b == a {
      PublishArms(st, a, commit);
    } else {
      OutstandingStays(st, PublishStep(st, a, commit), b);
    }
  }

  lemma PublishServes<S>(st: State<S>, a: string, commit: nat)
    requires Inv(st) && commit <= st.commits
    ensures NoLostUpdate(PublishStep(st, a, commit))
  {
    var st' := PublishStep(st, a, commit);
    assert st'.subs == st.subs && st'.info == st.info;
    forall b, s | b in st.subs && s in st.subs[b] && s in st.info
      ensures Served(st', b, s)
    {
      assert ListInv(st, b) && Served(st, b, s);
      if a != "" {
        PublishServesOne(st, a, commit, b, s);
      }
    }
  }

  lemma PublishArms<S>(st: State<S>, a: string, commit: nat)
    requires TimerInv(st) && a != "" && SubsOf(st, a) != []
    ensures Outstanding(PublishStep(st, a, commit), a)
  {
    var st' := PublishStep(st, a, commit);
    assert st'.pending[a] in st'.timers && st'.timers[st'.pending[a]].accountId == a;
  }

  lemma SubscribeServes<S>(st: State<S>, a: string, s: S, during: nat)
    requires Inv(st) && Enabled(st, Subscribe(a, s, during))
    ensures NoLostUpdate(SubscribeStep(st, a, s, during))
  {
    var st' := SubscribeStep(st, a, s, during);
    forall b, x | b in st'.subs && x in st'.subs[b] && x in st'.info
      ensures Served(st', b, x)
    {
      if x != s {
        assert ListInv(st, b) && Served(st, b, x);
      } else if b in st.subs {
        assert ListInv(st, b);
      }
    }
  }

  /** A step that removes no timer, forgets no failure, adds no subscription, and
      changes at most what consumers have received. */
  ghost predicate Quiet<S>(st: State<S>, st': State<S>) {
    && st'.announced == st.announced && st.failed == st'.failed
    && (forall t | t in st.timers :: t in st'.timers && st'.timers[t].accountId == st.timers[t].accountId)
    && (forall a | a in st'.subs :: a in st.subs)
    && (forall a, s | a in st'.subs && s in st'.subs[a] :: s in st.subs[a])
    && (forall s | s in st'.info ::
       s in st.info && st'.info[s].offers == st.info[s].offers && st'.info[s].accountId == st.info[s].accountId)
  }

  lemma QuietServes<S>(st: State<S>, st': State<S>)
    requires NoLostUpdate(st) && Quiet(st, st')
    ensures NoLostUpdate(st')
  {
    forall a, s | a in st'.subs && s in st'.subs[a] && s in st'.info
      ensures Served(st', a, s)
    {
      assert Served(st, a, s);
      OutstandingStays(st, st', a);
    }
  }

  lemma UnsubscribeIsQuiet<S>(st: State<S>, s: S)
    requires ChannelInv(st) && s in st.info
    ensures Quiet(st, UnsubscribeStep(st, s))
  {
    forall b | b in UnsubscribeStep(st, s).subs
      ensures b in st.subs && forall x | x in UnsubscribeStep(st, s).subs[b] :: x in st.subs[b]
    {
      UnsubscribeLists(st, s, b);
    }
  }

  lemma OtherStepsAreQuiet<S>(st: State<S>, op: Op<S>)
    requires Enabled(st, op)
    requires op.Commit? || op.BuildNow? || op.SubscribeFailed? || op.TimerGoesOff? || op.Receive?
    ensures Quiet(st, Step(st, op))
  {
  }

  lemma StepKeepsUpdates<S>(st: State<S>, op: Op<S>)
    requires Inv(st) && Enabled(st, op)
    ensures NoLostUpdate(Step(st, op))
  {
    match op {
      case Fire(t, ok, during) => FireServes(st, t, ok, during);
      case Publish(a, commit) => PublishServes(st, a, commit);
      case Subscribe(a, s, during) => SubscribeServes(st, a, s, during);
      case Unsubscribe(s) =>
        UnsubscribeIsQuiet(st, s);
        QuietServes(st, UnsubscribeStep(st, s));
      case Shutdown =>
        assert ShutdownStep(st).subs == map[];
      case TimerGoesOff(_) => OtherStepsAreQuiet(st, op); QuietServes(st, Step(st, op));
      case Receive(_) => OtherStepsAreQuiet(st, op); QuietServes(st, Step(st, op));
      case Commit => OtherStepsAreQuiet(st, op); QuietServes(st, Step(st, op));
      case BuildNow => OtherStepsAreQuiet(st, op); QuietServes(st, Step(st, op));
      case SubscribeFailed(_, _) => OtherStepsAreQuiet(st, op); QuietServes(st, Step(st, op));
    }
  }

  lemma StepKeepsInv<S>(st: State<S>, op: Op<S>)
    requires Inv(st) && Enabled(st, op)
    ensures Inv(Step(st, op))
  {
    StepKeepsChannels(st, op);
    StepKeepsTimers(st, op);
    StepKeepsUpdates(st, op);
  }

  // ---------------------------------------------------------------- every run

  ghost predicate Reaches<S>(st: State<S>, ops: seq<Op<S>>, end: State<S>)
    decreases |ops|
  {
    if ops == [] then end == st
    else Enabled(st, ops[0]) && Reaches(Step(st, ops[0]), ops[1..], end)
  }

  lemma {:induction false} RunKeepsInv<S>(st: State<S>, ops: seq<Op<S>>, end: State<S>)
    requires Inv(st) && Reaches(st, ops, end)
    ensures Inv(end)
    decreases |ops|
  {
    if ops != [] {
      StepKeepsInv(st, ops[0]);
      RunKeepsInv(Step(st, ops[0]), ops[1..], end);
    }
  }

  /** After any interleaving, every listed subscription was shown the last commit
      announced for its account, or a fire for the account is still to come, or
      the last build that was to be sent to it failed. */
  lemma NoUpdateIsLost<S>(ops: seq<Op<S>>, end: State<S>, a: string, s: S)
    requires Reaches(Init(), ops, end)
    requires a in end.subs && s in end.subs[a]
    ensures s in end.info && end.info[s].accountId == a
    ensures Outstanding(end, a) || s in end.failed || UpToDate(end, s)
  {
    RunKeepsInv(Init(), ops, end);
    assert ListInv(end, a);
    assert Served(end, a, s);
  }

  lemma {:induction false} KeptIsOrdered(offers: seq<Offer>, account: string)
    requires forall i | 0 <= i < |offers| :: offers[i].frame.accountId == account
    requires forall i, j | 0 <= i < j < |offers| :: offers[i].frame.version < offers[j].frame.version
    ensures forall f | f in Kept(offers) :: exists i :: 0 <= i < |offers| && offers[i].frame == f
    ensures forall f | f in Kept(offers) :: f.accountId == account
    ensures forall i, j | 0 <= i < j < |Kept(offers)| :: Kept(offers)[i].version < Kept(offers)[j].version
  {
    if offers != [] {
      var last := |offers| - 1;
      var before := Kept(offers[..last]);
      KeptIsOrdered(offers[..last], account);
      forall f | f in before ensures f.version < offers[last].frame.version {
        var i :| 0 <= i < last && offers[..last][i].frame == f;
        assert offers[i].frame == f;
      }
      if offers[last].free > 0 {
        assert Kept(offers) == before + [offers[last].frame];
        forall f | f in Kept(offers) ensures exists i :: 0 <= i < |offers| && offers[i].frame == f {
          if f in before {
            var i :| 0 <= i < last && offers[..last][i].frame == f;
            assert offers[i].frame == f;
          } else {
            assert offers[last].frame == f;
          }
        }
      } else {
        assert Kept(offers) == before;
        forall f | f in Kept(offers) ensures exists i :: 0 <= i < |offers| && offers[i].frame == f {
          var i :| 0 <= i < last && offers[..last][i].frame == f;
          assert offers[i].frame == f;
        }
      }
    }
  }

  lemma {:induction false} KeptWithRoom(offers: seq<Offer>)
    requires forall o | o in offers :: o.free > 0
    ensures Kept(offers) == seq(|offers|, i requires 0 <= i < |offers| => offers[i].frame)
  {
    if offers != [] {
      var last := |offers| - 1;
      assert offers == offers[..last] + [offers[last]];
      KeptWithRoom(offers[..last]);
    }
  }

  /** What a consumer gets, in every run: only frames of its own account, with
      strictly increasing versions; exactly the offered frames that found room in
      the buffer; and the channel was closed at most once. */
  lemma ChannelsInOrder<S>(ops: seq<Op<S>>, end: State<S>, s: S)
    requires Reaches(Init(), ops, end) && s in end.info
    ensures var sub := end.info[s]; var got := sub.received + sub.buffer;
            && (forall i | 0 <= i < |got| :: got[i].accountId == sub.accountId)
            && (forall i, j | 0 <= i < j < |got| :: got[i].version < got[j].version)
            && got == Kept(sub.offers)
            && ((forall o | o in sub.offers :: o.free > 0) ==>
                  got == seq(|sub.offers|, i requires 0 <= i < |sub.offers| => sub.offers[i].frame))
            && |sub.buffer| <= CHANNEL_CAPACITY
            && sub.closes == (if sub.closed then 1 else 0)
  {
    RunKeepsInv(Init(), ops, end);
    var sub := end.info[s];
    assert SubInv(sub, end.version);
    KeptIsOrdered(sub.offers, sub.accountId);
    if forall o | o in sub.offers :: o.free > 0 {
      KeptWithRoom(sub.offers);
    }
  }

  /** A consumer whose last frame found room ends up with a frame that shows the
      last announced commit, once no fire is outstanding, unless the last build for it
      failed. */
  lemma ConsumerCatchesUp<S>(ops: seq<Op<S>>, end: State<S>, a: string, s: S)
    requires Reaches(Init(), ops, end)
    requires a in end.subs && s in end.subs[a] && s in end.info
    requires !Outstanding(end, a) && s !in end.failed
    requires end.info[s].offers != [] && end.info[s].offers[|end.info[s].offers| - 1].free > 0
    ensures var got := end.info[s].received + end.info[s].buffer;
            got != [] && got[|got| - 1].builtAt >= Announced(end, a)
  {
    NoUpdateIsLost(ops, end, a, s);
    RunKeepsInv(Init(), ops, end);
    assert SubInv(end.info[s], end.version);
  }

  /** Subscriptions per account are capped, and a listed one is open and listed
      once; the fires that ran and the fires still to come never exceed the
      publishes that were accepted. */
  lemma ListsAndFiresBounded<S>(ops: seq<Op<S>>, end: State<S>, a: string)
    requires Reaches(Init(), ops, end)
    ensures a in end.subs ==>
              && |end.subs[a]| <= MAX_SUBSCRIBERS && NoDuplicates(end.subs[a])
              && forall s | s in end.subs[a] :: s in end.info && !end.info[s].closed && end.info[s].closes == 0
    ensures end.ran + |end.timers| <= end.accepted
  {
    RunKeepsInv(Init(), ops, end);
    if a in end.subs {
      assert ListInv(end, a);
      assert forall s | s in end.subs[a] :: SubInv(end.info[s], end.version);
    }
  }

  // ---------------------------------------------------------------- one timer per account

  /** Every armed timer is the one its account's pending entry names. */
  ghost predicate OneTimer<S>(st: State<S>) {
    forall t | t in st.timers && !st.timers[t].fired ::
      st.timers[t].accountId in st.pending && st.pending[st.timers[t].accountId] == t
  }

  /** A fire that runs after Publish has replaced its timer: the pending entry it
      deletes is that of a newer timer, which is still armed. */
  predicate StaleFire<S>(st: State<S>, op: Op<S>) {
    op.Fire? && op.timer in st.timers
    && var a := st.timers[op.timer].accountId;
    a in st.pending && Armed(st, st.pending[a])
  }

  lemma FireAndOneTimer<S>(st: State<S>, t: nat, ok: bool, during: nat)
    requires TimerInv(st) && OneTimer(st) && t in st.timers && st.timers[t].fired
    ensures OneTimer(FireStep(st, t, ok, during)) <==> !StaleFire(st, Fire(t, ok, during))
  {
    var st', a := FireStep(st, t, ok, during), st.timers[t].accountId;
    assert st'.timers == st.timers - {t} && st'.pending == st.pending - {a};
    if StaleFire(st, Fire(t, ok, during)) {
      assert st.pending[a] in st'.timers && !st'.timers[st.pending[a]].fired;
    }
  }

  lemma ShutdownLeavesNoneArmed<S>(st: State<S>)
    requires OneTimer(st)
    ensures OneTimer(ShutdownStep(st))
  {
    forall t | t in st.timers && !st.timers[t].fired ensures t in st.pending.Values {
      assert st.pending[st.timers[t].accountId] == t;
    }
  }

  lemma PublishKeepsOneTimer<S>(st: State<S>, a: string, commit: nat)
    requires TimerInv(st) && OneTimer(st)
    ensures OneTimer(PublishStep(st, a, commit))
  {
  }

  /** Exactly the stale fires lose track of a timer. */
  lemma OneTimerKeptIff<S>(st: State<S>, op: Op<S>)
    requires Inv(st) && Enabled(st, op) && OneTimer(st)
    ensures OneTimer(Step(st, op)) <==> !StaleFire(st, op)
  {
    match op {
      case Fire(t, ok, during) => FireAndOneTimer(st, t, ok, during);
      case Shutdown => ShutdownLeavesNoneArmed(st);
      case Publish(a, commit) => PublishKeepsOneTimer(st, a, commit);
      case TimerGoesOff(_) =>
      case Subscribe(_, _, _) =>
      case Unsubscribe(_) =>
      case Receive(_) =>
      case Commit =>
      case BuildNow =>
      case SubscribeFailed(_, _) =>
    }
  }

  ghost predicate AlwaysOneTimer<S>(st: State<S>, ops: seq<Op<S>>)
    decreases |ops|
  {
    OneTimer(st) && (ops != [] && Enabled(st, ops[0]) ==> AlwaysOneTimer(Step(st, ops[0]), ops[1..]))
  }

  ghost predicate NoStaleFire<S>(st: State<S>, ops: seq<Op<S>>)
    decreases |ops|
  {
    ops != [] && Enabled(st, ops[0]) ==> !StaleFire(st, ops[0]) && NoStaleFire(Step(st, ops[0]), ops[1..])
  }

  lemma {:induction false} OneTimerFrom<S>(st: State<S>, ops: seq<Op<S>>, end: State<S>)
    requires Inv(st) && OneTimer(st) && Reaches(st, ops, end)
    ensures AlwaysOneTimer(st, ops) <==> NoStaleFire(st, ops)
    decreases |ops|
  {
    if ops != [] {
      StepKeepsInv(st, ops[0]);
      OneTimerKeptIff(st, ops[0]);
      if OneTimer(Step(st, ops[0])) {
        OneTimerFrom(Step(st, ops[0]), ops[1..], end);
      }
    }
  }

  /** A run keeps the pending map equal to the armed timers throughout exactly if no
      fire in it is stale. */
  lemma OneTimerThroughoutIff<S>(ops: seq<Op<S>>, end: State<S>)
    requires Reaches(Init(), ops, end)
    ensures AlwaysOneTimer(Init(), ops) <==> NoStaleFire(Init(), ops)
  {
    OneTimerFrom(Init(), ops, end);
  }

  /** No account has two armed timers. */
  ghost predicate OneArmedEach<S>(st: State<S>) {
    forall t, u | t in st.timers && u in st.timers && !st.timers[t].fired && !st.timers[u].fired
      && st.timers[t].accountId == st.timers[u].accountId :: t == u
  }

  /** A publish that arms a timer while one is armed that the pending map has lost. */
  ghost predicate ArmsSecond<S>(st: State<S>, op: Op<S>) {
    && op.Publish? && op.accountId != "" && SubsOf(st, op.accountId) != []
    && !(op.accountId in st.pending && Armed(st, st.pending[op.accountId]))
    && exists t :: t in st.timers && !st.timers[t].fired && st.timers[t].accountId == op.accountId
  }

  lemma ArmAndOneArmed<S>(st: State<S>, a: string)
    requires TimerInv(st) && OneArmedEach(st)
    ensures OneArmedEach(Arm(st, a))
            <==> !exists t :: t in st.timers && !st.timers[t].fired && st.timers[t].accountId == a
  {
    var st' := Arm(st, a);
    assert st.nextTimer !in st.timers;
    assert st.nextTimer in st'.timers && !st'.timers[st.nextTimer].fired && st'.timers[st.nextTimer].accountId == a;
    if t :| t in st.timers && !st.timers[t].fired && st.timers[t].accountId == a {
      assert t in st'.timers && st'.timers[t] == st.timers[t] && t != st.nextTimer;
    }
  }

  lemma PublishAndOneArmed<S>(st: State<S>, a: string, commit: nat)
    requires TimerInv(st) && OneArmedEach(st) && commit <= st.commits
    ensures OneArmedEach(PublishStep(st, a, commit)) <==> !ArmsSecond(st, Publish(a, commit))
  {
    var st' := Announce(st, a, commit);
    assert TimerInv(st') && OneArmedEach(st') && st'.timers == st.timers;
    ArmAndOneArmed(st', a);
  }

  /** A second timer for one account arises exactly when such a publish arms it. */
  lemma SecondTimerIff<S>(st: State<S>, op: Op<S>)
    requires Inv(st) && Enabled(st, op) && OneArmedEach(st)
    ensures OneArmedEach(Step(st, op)) <==> !ArmsSecond(st, op)
  {
    match op {
      case Publish(a, commit) => PublishAndOneArmed(st, a, commit);
      case Fire(t, ok, during) => assert Step(st, op).timers == st.timers - {t};
      case Shutdown =>
      case TimerGoesOff(_) =>
      case Subscribe(_, _, _) =>
      case Unsubscribe(_) =>
      case Receive(_) =>
      case Commit =>
      case BuildNow =>
      case SubscribeFailed(_, _) =>
    }
  }

  ghost predicate AlwaysOneArmed<S>(st: State<S>, ops: seq<Op<S>>)
    decreases |ops|
  {
    OneArmedEach(st) && (ops != [] && Enabled(st, ops[0]) ==> AlwaysOneArmed(Step(st, ops[0]), ops[1..]))
  }

  ghost predicate NeverArmsSecond<S>(st: State<S>, ops: seq<Op<S>>)
    decreases |ops|
  {
    ops != [] && Enabled(st, ops[0]) ==> !ArmsSecond(st, ops[0]) && NeverArmsSecond(Step(st, ops[0]), ops[1..])
  }

  lemma {:induction false} OneArmedFrom<S>(st: State<S>, ops: seq<Op<S>>, end: State<S>)
    requires Inv(st) && OneArmedEach(st) && Reaches(st, ops, end)
    ensures AlwaysOneArmed(st, ops) <==> NeverArmsSecond(st, ops)
    decreases |ops|
  {
    if ops != [] {
      StepKeepsInv(st, ops[0]);
      SecondTimerIff(st, ops[0]);
      if OneArmedEach(Step(st, ops[0])) {
        OneArmedFrom(Step(st, ops[0]), ops[1..], end);
      }
    }
  }

  /** A run keeps one armed timer per account throughout exactly if no publish in it
      arms a timer beside one that the pending map has lost. */
  lemma OneArmedThroughoutIff<S>(ops: seq<Op<S>>, end: State<S>)
    requires Reaches(Init(), ops, end)
    ensures AlwaysOneArmed(Init(), ops) <==> NeverArmsSecond(Init(), ops)
  {
    OneArmedFrom(Init(), ops, end);
  }

  lemma {:induction false} OneTimerArmsOne<S>(st: State<S>, ops: seq<Op<S>>)
    requires AlwaysOneTimer(st, ops)
    ensures AlwaysOneArmed(st, ops)
    decreases |ops|
  {
    if ops != [] && Enabled(st, ops[0]) {
      OneTimerArmsOne(Step(st, ops[0]), ops[1..]);
    }
  }

  /** So stale fires are the only way to a second timer: without one, each account has
      at most one armed timer throughout. */
  lemma NoStaleFireArmsOne<S>(ops: seq<Op<S>>, end: State<S>)
    requires Reaches(Init(), ops, end) && NoStaleFire(Init(), ops)
    ensures AlwaysOneArmed(Init(), ops)
  {
    OneTimerThroughoutIff(ops, end);
    OneTimerArmsOne(Init(), ops);
  }

  lemma Prepend<S>(st: State<S>, op: Op<S>, rest: seq<Op<S>>, end: State<S>) returns (ops: seq<Op<S>>)
    requires Enabled(st, op) && Reaches(Step(st, op), rest, end)
    ensures ops == [op] + rest && Reaches(st, ops, end)
  {
    ops := [op] + rest;
    assert ops[1..] == rest;
  }

  /** The debounce does not keep one timer per account: when a fire runs after
      Publish has replaced its timer, it deletes the entry of the newer timer, and
      the next Publish arms another one. */
  lemma TwoTimersForOneAccount(s: int) returns (ops: seq<Op<int>>, end: State<int>)
    ensures Reaches(Init(), ops, end)
    ensures Armed(end, 1) && Armed(end, 2) && end.timers[1].accountId == end.timers[2].accountId == "a"
  {
    var st3: State<int>;
    st3 := FireIsLate(s);
    var st4 := PublishStep(st3, "a", 0);
    var st5 := FireStep(st4, 0, true, 0);
    end := PublishStep(st5, "a", 0);
    ops := [];
    ops := Prepend(st5, Publish("a", 0), ops, end);
    ops := Prepend(st4, Fire(0, true, 0), ops, end);
    ops := Prepend(st3, Publish("a", 0), ops, end);
    ops := LateThen(s, st3, ops, end);
  }

  lemma FireIsLate(s: int) returns (st3: State<int>)
    ensures st3 == Step(Step(Step(Init(), Subscribe("a", s, 0)), Publish("a", 0)), TimerGoesOff(0))
    ensures st3.pending == map["a" := 0] && st3.timers == map[0 := Timer("a", true)] && st3.nextTimer == 1
    ensures SubsOf(st3, "a") == [s] && st3.commits == 0
  {
    var st1 := SubscribeStep(Init(), "a", s, 0);
    assert SubsOf(st1, "a") == [s];
    var st2 := PublishStep(st1, "a", 0);
    st3 := Step(st2, TimerGoesOff(0));
  }

  lemma LateThen(s: int, st3: State<int>, rest: seq<Op<int>>, end: State<int>) returns (ops: seq<Op<int>>)
    requires st3 == Step(Step(Step(Init(), Subscribe("a", s, 0)), Publish("a", 0)), TimerGoesOff(0))
    requires Reaches(st3, rest, end)
    ensures Reaches(Init(), ops, end)
  {
    var st1 := Step(Init(), Subscribe("a", s, 0));
    var st2 := Step(st1, Publish("a", 0));
    ops := Prepend(st2, TimerGoesOff(0), rest, end);
    ops := Prepend(st1, Publish("a", 0), ops, end);
    ops := Prepend(Init(), Subscribe("a", s, 0), ops, end);
  }
}
