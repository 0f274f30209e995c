/**
 The state bus over whole runs (internal/state/bus.go), told by the steps themselves:
 which subscriptions are listed and which are closed, what each was offered and got,
 and what a publish leads to.
 */
module BusRuns {
  import opened Lists
  import opened BusModel

  ghost predicate StepAt<S>(sts: seq<State<S>>, ops: seq<Op<S>>, i: int)
    requires |sts| == |ops| + 1 && 0 <= i < |ops|
  {
    Enabled(sts[i], ops[i]) && sts[i + 1] == Step(sts[i], ops[i])
  }

  /** The states of a run from the start, one more than it has steps. */
  ghost predicate Run<S>(sts: seq<State<S>>, ops: seq<Op<S>>) {
    |sts| == |ops| + 1 && sts[0] == Init() && forall i | 0 <= i < |ops| :: StepAt(sts, ops, i)
  }

  /** Every run in the sense of BusModel has its states. */
  lemma {:induction false} StatesOf<S>(st: State<S>, ops: seq<Op<S>>, end: State<S>) returns (sts: seq<State<S>>)
    requires Reaches(st, ops, end)
    ensures |sts| == |ops| + 1 && sts[0] == st && sts[|ops|] == end
    ensures forall i | 0 <= i < |ops| :: StepAt(sts, ops, i)
    decreases |ops|
  {
    if ops == [] {
      sts := [st];
    } else {
      var rest := StatesOf(Step(st, ops[0]), ops[1..], end);
      sts := [st] + rest;
      forall i | 0 <= i < |ops| ensures StepAt(sts, ops, i) {
        if i > 0 {
          assert StepAt(rest, ops[1..], i - 1);
        }
      }
    }
  }

  // ---------------------------------------------------------------- invariants of every state

  /** An open subscription is on its account's list. */
  ghost predicate OpenListed<S>(st: State<S>) {
    forall s | s in st.info && !st.info[s].closed :: s in SubsOf(st, st.info[s].accountId)
  }

  lemma OpenStays<S>(st: State<S>, st': State<S>)
    requires OpenListed(st) && st'.subs == st.subs
    requires forall s | s in st'.info ::
               s in st.info && st'.info[s].closed == st.info[s].closed && st'.info[s].accountId == st.info[s].accountId
    ensures OpenListed(st')
  {
  }

  lemma UnsubscribeKeepsOpen<S>(st: State<S>, s: S)
    requires ChannelInv(st) && OpenListed(st) && s in st.info
    ensures OpenListed(UnsubscribeStep(st, s)) && UnsubscribeStep(st, s).info[s].closed
  {
    var st' := UnsubscribeStep(st, s);
    forall x | x in st'.info && !st'.info[x].closed ensures x in SubsOf(st', st'.info[x].accountId) {
      assert x != s && x in SubsOf(st, st.info[x].accountId);
      var a := st.info[s].accountId;
      if s in SubsOf(st, a) {
        assert ListInv(st, a);
        RemoveFirstKeeps(st.subs[a], s);
      }
    }
  }

  lemma SubscribeKeepsOpen<S>(st: State<S>, a: string, s: S, during: nat)
    requires OpenListed(st)
    ensures OpenListed(SubscribeStep(st, a, s, during))
  {
  }

  lemma ShutdownCloses<S>(st: State<S>, s: S)
    requires OpenListed(st) && s in st.info
    ensures ShutdownStep(st).info[s].closed
  {
    if !st.info[s].closed {
      var a := st.info[s].accountId;
      assert a in st.subs && s in st.subs[a];
    }
  }

  lemma ShutdownKeepsOpen<S>(st: State<S>)
    requires OpenListed(st)
    ensures OpenListed(ShutdownStep(st))
  {
    forall s | s in st.info ensures ShutdownStep(st).info[s].closed {
      ShutdownCloses(st, s);
    }
  }

  /** Steps that touch neither the lists nor the subscriptions. */
  predicate Aside(op: Op) {
    op.Commit? || op.TimerGoesOff? || op.BuildNow? || op.SubscribeFailed? || op.Publish?
  }

  lemma AsideStep<S>(st: State<S>, op: Op<S>)
    requires Enabled(st, op) && Aside(op)
    ensures Step(st, op).subs == st.subs && Step(st, op).info == st.info
  {
  }

  lemma FireKeepsOpen<S>(st: State<S>, t: nat, ok: bool, during: nat)
    requires OpenListed(st) && t in st.timers
    ensures OpenListed(FireStep(st, t, ok, during))
  {
    FireInfo(st, t, ok, during);
    OpenStays(st, FireStep(st, t, ok, during));
  }

  lemma StepKeepsOpen<S>(st: State<S>, op: Op<S>)
    requires ChannelInv(st) && OpenListed(st) && Enabled(st, op)
    ensures OpenListed(Step(st, op))
  {
    if Aside(op) {
      AsideStep(st, op);
      OpenStays(st, Step(st, op));
    } else {
      match op {
        case Unsubscribe(s) => UnsubscribeKeepsOpen(st, s);
        case Subscribe(a, s, during) => SubscribeKeepsOpen(st, a, s, during);
        case Fire(t, ok, during) => FireKeepsOpen(st, t, ok, during);
        case Shutdown => ShutdownKeepsOpen(st);
        case Receive(s) => OpenStays(st, Step(st, op));
      }
    }
  }

  lemma {:induction false} RunIsSound<S>(sts: seq<State<S>>, ops: seq<Op<S>>, n: nat)
    requires Run(sts, ops) && n <= |ops|
    ensures Inv(sts[n]) && OpenListed(sts[n])
  {
    if n > 0 {
      RunIsSound(sts, ops, n - 1);
      assert StepAt(sts, ops, n - 1);
      StepKeepsInv(sts[n - 1], ops[n - 1]);
      StepKeepsOpen(sts[n - 1], ops[n - 1]);
    }
  }

  // ---------------------------------------------------------------- one step, field by field

  lemma UnsubscribeFields<S>(st: State<S>, s: S)
    requires ChannelInv(st) && s in st.info
    ensures var st' := UnsubscribeStep(st, s);
            && st'.info[s].closed && st'.info[s].buffer == st.info[s].buffer
            && (forall a | a in st'.subs :: a in st.subs && s !in st'.subs[a])
            && (forall a, x | a in st.subs && x in st.subs[a] && x != s :: a in st'.subs && x in st'.subs[a])
  {
    var (st', b) := (UnsubscribeStep(st, s), st.info[s].accountId);
    forall a | a in st'.subs ensures a in st.subs && s !in st'.subs[a] {
      UnsubscribeLists(st, s, a);
    }
    forall a, x | a in st.subs && x in st.subs[a] && x != s ensures a in st'.subs && x in st'.subs[a] {
      assert ListInv(st, a);
      if s in SubsOf(st, b) && a == b {
        RemoveFirstKeeps(st.subs[b], s);
      }
    }
  }

  lemma ShutdownFields<S>(st: State<S>, a: string, s: S)
    requires ListsInv(st) && a in st.subs && s in st.subs[a]
    ensures var st' := ShutdownStep(st); s in st'.info && st'.info[s].closed && st'.info[s].buffer == st.info[s].buffer
  {
    assert ListInv(st, a);
  }

  // ---------------------------------------------------------------- who is registered, listed, closed

  predicate Registers<S(==)>(op: Op<S>, s: S, a: string) {
    op.Subscribe? && op.s == s && op.accountId == a
  }

  predicate Ends<S(==)>(op: Op<S>, s: S) {
    op == Unsubscribe(s) || op == Shutdown
  }

  lemma RegisteredStep<S>(st: State<S>, op: Op<S>, s: S, a: string)
    requires Enabled(st, op)
    ensures s in Step(st, op).info && Step(st, op).info[s].accountId == a
            <==> (s in st.info && st.info[s].accountId == a) || Registers(op, s, a)
  {
  }

  /** A subscription exists for an account exactly if a Subscribe for it has succeeded. */
  lemma {:induction false} RegisteredIff<S>(sts: seq<State<S>>, ops: seq<Op<S>>, n: nat, s: S, a: string)
    requires Run(sts, ops) && n <= |ops|
    ensures s in sts[n].info && sts[n].info[s].accountId == a <==> exists k :: 0 <= k < n && Registers(ops[k], s, a)
  {
    if n > 0 {
      RegisteredIff(sts, ops, n - 1, s, a);
      assert StepAt(sts, ops, n - 1);
      RegisteredStep(sts[n - 1], ops[n - 1], s, a);
    }
  }

  lemma UnsubscribeCloses<S>(st: State<S>, x: S, s: S)
    requires x in st.info && s in st.info
    ensures UnsubscribeStep(st, x).info[s].closed <==> st.info[s].closed || s == x
  {
  }

  lemma FireClosesNone<S>(st: State<S>, t: nat, ok: bool, during: nat, s: S)
    requires t in st.timers && s in st.info
    ensures s in FireStep(st, t, ok, during).info && FireStep(st, t, ok, during).info[s].closed == st.info[s].closed
  {
    FireInfo(st, t, ok, during);
  }

  lemma ClosedOnward<S>(st: State<S>, op: Op<S>, s: S)
    requires OpenListed(st) && Enabled(st, op) && s in st.info && !op.Subscribe?
    ensures s in Step(st, op).info && (Step(st, op).info[s].closed <==> st.info[s].closed || Ends(op, s))
  {
    if Aside(op) {
      AsideStep(st, op);
    } else {
      match op {
        case Unsubscribe(x) => UnsubscribeCloses(st, x, s);
        case Fire(t, ok, during) => FireClosesNone(st, t, ok, during, s);
        case Shutdown => ShutdownCloses(st, s);
        case Receive(x) =>
      }
    }
  }

  lemma ClosedStep<S>(st: State<S>, op: Op<S>, s: S)
    requires OpenListed(st) && Enabled(st, op) && s in Step(st, op).info
    ensures Step(st, op).info[s].closed <==> s in st.info && (st.info[s].closed || Ends(op, s))
  {
    if s in st.info && !op.Subscribe? {
      ClosedOnward(st, op, s);
    } else if s !in st.info {
      RegisteredStep(st, op, s, Step(st, op).info[s].accountId);
    }
  }

  ghost predicate EndedAt<S>(sts: seq<State<S>>, ops: seq<Op<S>>, k: int, s: S)
    requires |sts| == |ops| + 1
  {
    0 <= k < |ops| && s in sts[k].info && Ends(ops[k], s)
  }

  lemma ClosedNow<S>(sts: seq<State<S>>, ops: seq<Op<S>>, n: nat, s: S)
    requires Run(sts, ops) && n < |ops| && s in sts[n + 1].info
    ensures sts[n + 1].info[s].closed <==> (s in sts[n].info && sts[n].info[s].closed) || EndedAt(sts, ops, n, s)
  {
    RunIsSound(sts, ops, n);
    assert StepAt(sts, ops, n);
    ClosedStep(sts[n], ops[n], s);
  }

  /**
   On every run a subscription is closed exactly if an Unsubscribe of it or, after its
   registration, a Shutdown is among the steps.
   */
  lemma {:induction false} ClosedIff<S>(sts: seq<State<S>>, ops: seq<Op<S>>, n: nat, s: S)
    requires Run(sts, ops) && n <= |ops| && s in sts[n].info
    ensures sts[n].info[s].closed <==> exists k :: k < n && EndedAt(sts, ops, k, s)
  {
    if n > 0 {
      ClosedNow(sts, ops, n - 1, s);
      if s in sts[n - 1].info {
        ClosedIff(sts, ops, n - 1, s);
      } else {
        forall k | 0 <= k < n ensures !EndedAt(sts, ops, k, s) {
          NotYet(sts, ops, k, n - 1, s);
        }
      }
    }
  }

  /** Nothing that was registered is forgotten. */
  lemma {:induction false} NotYet<S>(sts: seq<State<S>>, ops: seq<Op<S>>, k: nat, n: nat, s: S)
    requires Run(sts, ops) && k <= n <= |ops| && s !in sts[n].info
    ensures s !in sts[k].info
  {
    if k < n {
      assert StepAt(sts, ops, n - 1);
      RegisteredStep(sts[n - 1], ops[n - 1], s, if s in sts[n - 1].info then sts[n - 1].info[s].accountId else "");
      NotYet(sts, ops, k, n - 1, s);
    }
  }

  /** And it is on a list, its own account's, exactly as long as it is open. */
  lemma ListedIff<S>(sts: seq<State<S>>, ops: seq<Op<S>>, n: nat, s: S, a: string)
    requires Run(sts, ops) && n <= |ops|
    ensures (a in sts[n].subs && s in sts[n].subs[a])
            <==> s in sts[n].info && sts[n].info[s].accountId == a && !sts[n].info[s].closed
  {
    RunIsSound(sts, ops, n);
    if a in sts[n].subs {
      assert ListInv(sts[n], a);
    }
  }

  // ---------------------------------------------------------------- what each subscription was offered and got

  /** The fire of timer `t` concerns `s`: it is open, and the timer is its account's. */
  predicate Hears<S>(st: State<S>, t: nat, s: S) {
    && t in st.timers && s in st.info
    && st.timers[t].accountId == st.info[s].accountId && !st.info[s].closed
  }

  predicate Shows<S>(st: State<S>, op: Op<S>, s: S) {
    op.Fire? && op.ok && Hears(st, op.timer, s)
  }

  predicate FailsFor<S>(st: State<S>, op: Op<S>, s: S) {
    op.Fire? && !op.ok && Hears(st, op.timer, s)
  }

  /** The frame a step builds for `a`: a new version, and every commit so far. */
  function FrameFor<S>(st: State<S>, a: string): Snapshot {
    Snapshot(st.version + 1, a, st.commits)
  }

  function Room(sub: Sub): nat {
    if |sub.buffer| < CHANNEL_CAPACITY then CHANNEL_CAPACITY - |sub.buffer| else 0
  }

  /** What the steps offered to a subscription, with the room there was at each moment. */
  function Offered<S(==)>(sts: seq<State<S>>, ops: seq<Op<S>>, n: nat, s: S): seq<Offer>
    requires |sts| == |ops| + 1 && n <= |ops|
  {
    if n == 0 then []
    else
      var (st, op, before) := (sts[n - 1], ops[n - 1], Offered(sts, ops, n - 1, s));
      if op.Subscribe? && op.s == s then [Offer(FrameFor(st, op.accountId), CHANNEL_CAPACITY)]
      else if Shows(st, op, s) then before + [Offer(FrameFor(st, st.info[s].accountId), Room(st.info[s]))]
      else before
  }

  /** Of these the frames that found room. */
  function Handed<S(==)>(sts: seq<State<S>>, ops: seq<Op<S>>, n: nat, s: S): seq<Snapshot>
    requires |sts| == |ops| + 1 && n <= |ops|
  {
    if n == 0 then []
    else
      var (st, op, before) := (sts[n - 1], ops[n - 1], Handed(sts, ops, n - 1, s));
      if op.Subscribe? && op.s == s then [FrameFor(st, op.accountId)]
      else if Shows(st, op, s) && |st.info[s].buffer| < CHANNEL_CAPACITY
      then before + [FrameFor(st, st.info[s].accountId)]
      else before
  }

  function Taken<S(==)>(ops: seq<Op<S>>, n: nat, s: S): nat
    requires n <= |ops|
  {
    if n == 0 then 0 else Taken(ops, n - 1, s) + if ops[n - 1] == Receive(s) then 1 else 0
  }

  lemma FireOffers<S>(st: State<S>, t: nat, ok: bool, during: nat, s: S)
    requires ListsInv(st) && OpenListed(st) && t in st.timers && s in st.info
    ensures var (sub, sub', hit) := (st.info[s], FireStep(st, t, ok, during).info[s], ok && Hears(st, t, s));
            && sub'.offers == sub.offers + (if hit then [Offer(FrameFor(st, sub.accountId), Room(sub))] else [])
            && sub'.buffer == sub.buffer
                 + (if hit && |sub.buffer| < CHANNEL_CAPACITY then [FrameFor(st, sub.accountId)] else [])
            && sub'.received == sub.received
  {
    var a := st.timers[t].accountId;
    FireInfo(st, t, ok, during);
    if s in SubsOf(st, a) {
      assert ListInv(st, a);
    }
  }

  lemma ReceiveTakes<S>(st: State<S>, x: S, s: S)
    requires Enabled(st, Receive(x)) && s in st.info
    ensures var (sub, sub') := (st.info[s], Step(st, Receive(x)).info[s]);
            && sub'.offers == sub.offers && sub'.received + sub'.buffer == sub.received + sub.buffer
            && |sub'.received| == |sub.received| + if s == x then 1 else 0
  {
    if s == x {
      assert st.info[s].buffer == [st.info[s].buffer[0]] + st.info[s].buffer[1..];
    }
  }

  lemma ListOpOffers<S>(st: State<S>, op: Op<S>, s: S)
    requires Enabled(st, op) && s in st.info && (op.Subscribe? || op.Unsubscribe? || op.Shutdown?)
    ensures s in Step(st, op).info
    ensures var (sub, sub') := (st.info[s], Step(st, op).info[s]);
            sub'.offers == sub.offers && sub'.received == sub.received && sub'.buffer == sub.buffer
  {
  }

  /** The step's effect on what a subscription that was there was offered, holds and has taken. */
  lemma OfferStep<S>(st: State<S>, op: Op<S>, s: S)
    requires ListsInv(st) && OpenListed(st) && Enabled(st, op) && s in st.info
    ensures s in Step(st, op).info
    ensures var (sub, sub', hit) := (st.info[s], Step(st, op).info[s], Shows(st, op, s));
            && sub'.offers == sub.offers + (if hit then [Offer(FrameFor(st, sub.accountId), Room(sub))] else [])
            && sub'.received + sub'.buffer == sub.received + sub.buffer
                 + (if hit && |sub.buffer| < CHANNEL_CAPACITY then [FrameFor(st, sub.accountId)] else [])
            && |sub'.received| == |sub.received| + if op == Receive(s) then 1 else 0
  {
    if Aside(op) {
      AsideStep(st, op);
    } else {
      match op {
        case Fire(t, ok, during) => FireOffers(st, t, ok, during, s);
        case Receive(x) => ReceiveTakes(st, x, s);
        case _ => ListOpOffers(st, op, s);
      }
    }
  }

  /**
   On every run a consumer was offered one frame at its Subscribe and one at each
   successful fire for its account while it was open, with the commits there were; it has
   received and still holds, in order, exactly those that found fewer than eight frames
   waiting, and has received as many as it took.
   */
  lemma {:induction false} EveryFrameIsHanded<S>(sts: seq<State<S>>, ops: seq<Op<S>>, n: nat, s: S)
    requires Run(sts, ops) && n <= |ops| && s in sts[n].info
    ensures var sub := sts[n].info[s];
            && sub.offers == Offered(sts, ops, n, s)
            && sub.received + sub.buffer == Handed(sts, ops, n, s)
            && |sub.received| == Taken(ops, n, s)
  {
    var (st, op) := (sts[n - 1], ops[n - 1]);
    assert StepAt(sts, ops, n - 1);
    if s in st.info {
      RunIsSound(sts, ops, n - 1);
      EveryFrameIsHanded(sts, ops, n - 1, s);
      OfferStep(st, op, s);
    } else {
      RegisteredStep(st, op, s, sts[n].info[s].accountId);
      NothingTaken(sts, ops, n - 1, s);
    }
  }

  lemma {:induction false} NothingTaken<S>(sts: seq<State<S>>, ops: seq<Op<S>>, n: nat, s: S)
    requires Run(sts, ops) && n <= |ops| && s !in sts[n].info
    ensures Taken(ops, n, s) == 0
  {
    if n > 0 {
      NotYet(sts, ops, n - 1, n, s);
      assert StepAt(sts, ops, n - 1);
      NothingTaken(sts, ops, n - 1, s);
    }
  }

  // ---------------------------------------------------------------- what a publish leads to

  lemma AnnouncedStep<S>(st: State<S>, op: Op<S>, a: string)
    requires Enabled(st, op)
    ensures Announced(Step(st, op), a) >= Announced(st, a)
    ensures op.Publish? && op.accountId == a ==> Announced(Step(st, op), a) >= op.commit
  {
  }

  lemma {:induction false} PublishStays<S>(sts: seq<State<S>>, ops: seq<Op<S>>, k: nat, n: nat)
    requires Run(sts, ops) && k < n <= |ops| && ops[k].Publish?
    ensures Announced(sts[n], ops[k].accountId) >= ops[k].commit
  {
    assert StepAt(sts, ops, n - 1);
    AnnouncedStep(sts[n - 1], ops[n - 1], ops[k].accountId);
    if k < n - 1 {
      PublishStays(sts, ops, k, n - 1);
    }
  }

  lemma FailedStep<S>(st: State<S>, op: Op<S>, s: S)
    requires ListsInv(st) && OpenListed(st) && Enabled(st, op) && s in st.info
    ensures s in Step(st, op).failed <==> FailsFor(st, op, s) || (s in st.failed && !Shows(st, op, s))
  {
    if op.Fire? {
      var a := st.timers[op.timer].accountId;
      if a in st.subs {
        assert ListInv(st, a);
      }
    }
  }

  /** The last fire that concerned the subscription was one whose build failed. */
  ghost predicate LastFireFailed<S>(sts: seq<State<S>>, ops: seq<Op<S>>, n: nat, s: S)
    requires |sts| == |ops| + 1 && n <= |ops|
  {
    exists k :: FailedSince(sts, ops, k, n, s)
  }

  ghost predicate FailedSince<S>(sts: seq<State<S>>, ops: seq<Op<S>>, k: int, n: nat, s: S)
    requires |sts| == |ops| + 1 && n <= |ops|
  {
    && 0 <= k < n && FailsFor(sts[k], ops[k], s)
    && forall m | k < m < n :: !Shows(sts[m], ops[m], s)
  }

  lemma {:induction false} FailedIff<S>(sts: seq<State<S>>, ops: seq<Op<S>>, n: nat, s: S)
    requires Run(sts, ops) && n <= |ops| && s in sts[n].info
    ensures s in sts[n].failed <==> LastFireFailed(sts, ops, n, s)
  {
    var (st, op) := (sts[n - 1], ops[n - 1]);
    assert StepAt(sts, ops, n - 1);
    RunIsSound(sts, ops, n - 1);
    if s in st.info {
      FailedIff(sts, ops, n - 1, s);
      FailedStep(st, op, s);
      FailedGrows(sts, ops, n - 1, s);
    } else {
      RegisteredStep(st, op, s, sts[n].info[s].accountId);
      forall k | 0 <= k < n ensures !FailsFor(sts[k], ops[k], s) {
        NotYet(sts, ops, k, n - 1, s);
      }
    }
  }

  lemma FailedGrows<S>(sts: seq<State<S>>, ops: seq<Op<S>>, n: nat, s: S)
    requires |sts| == |ops| + 1 && n < |ops|
    ensures LastFireFailed(sts, ops, n + 1, s)
            <==> FailsFor(sts[n], ops[n], s) || (LastFireFailed(sts, ops, n, s) && !Shows(sts[n], ops[n], s))
  {
    if FailsFor(sts[n], ops[n], s) {
      assert FailedSince(sts, ops, n, n + 1, s);
    } else if LastFireFailed(sts, ops, n, s) && !Shows(sts[n], ops[n], s) {
      var k :| FailedSince(sts, ops, k, n, s);
      assert FailedSince(sts, ops, k, n + 1, s);
    }
    if LastFireFailed(sts, ops, n + 1, s) && !FailsFor(sts[n], ops[n], s) {
      var k :| FailedSince(sts, ops, k, n + 1, s);
      assert FailedSince(sts, ops, k, n, s);
    }
  }

  /**
   After a publish of a commit each open subscription of the account was last offered a
   frame that shows it, or a timer of the account is still to fire, or the last fire that
   concerned the subscription could not build.
   */
  lemma EveryPublishIsShown<S>(sts: seq<State<S>>, ops: seq<Op<S>>, k: nat, n: nat, s: S)
    requires Run(sts, ops) && k < n <= |ops| && ops[k].Publish?
    requires s in sts[n].info && sts[n].info[s].accountId == ops[k].accountId && !sts[n].info[s].closed
    ensures var (a, offers) := (ops[k].accountId, Offered(sts, ops, n, s));
            || (exists t :: t in sts[n].timers && sts[n].timers[t].accountId == a)
            || LastFireFailed(sts, ops, n, s)
            || (offers != [] && offers[|offers| - 1].frame.builtAt >= ops[k].commit)
  {
    RunIsSound(sts, ops, n);
    PublishStays(sts, ops, k, n);
    EveryFrameIsHanded(sts, ops, n, s);
    FailedIff(sts, ops, n, s);
    assert Served(sts[n], ops[k].accountId, s);
  }

  /** A timer still to fire can: it goes off if it has not, and then its fire runs, once. */
  lemma TimersFire<S>(st: State<S>, t: nat, ok: bool, during: nat)
    requires t in st.timers
    ensures st.timers[t].fired || Enabled(st, TimerGoesOff(t))
    ensures var st1 := if st.timers[t].fired then st else Step(st, TimerGoesOff(t));
            Enabled(st1, Fire(t, ok, during)) && t !in Step(st1, Fire(t, ok, during)).timers
  {
  }
}
