/**
 The state bus on objects: internal/state/bus.go with its maps, its subscription
 objects and their channels, each method proved to take the step of module
 BusModel that it stands for.
 */
module BusClass {
  import opened Wrappers
  import opened Lists
  import M = BusModel
  import R = BusRuns

  type Snapshot = M.Snapshot

  datatype BusError = ResourceExhausted | BuildError

  /** One consumer's channel. Sending to a closed channel and closing one twice
      panic in Go; the preconditions say that neither happens. */
  class Subscription {
    const accountId: string
    var closed: bool
    var buffer: seq<Snapshot>
    ghost var received: seq<Snapshot>
    ghost var offers: seq<M.Offer>
    ghost var closes: nat

    ghost function View(): M.Sub
      reads this
    {
      M.Sub(accountId, closed, buffer, received, offers, closes)
    }

    constructor (accountId: string, initial: Snapshot)
      ensures View() == M.Sub(accountId, false, [initial], [], [M.Offer(initial, M.CHANNEL_CAPACITY)], 0)
    {
      this.accountId := accountId;
      closed, buffer := false, [initial];
      received, offers, closes := [], [M.Offer(initial, M.CHANNEL_CAPACITY)], 0;
    }

    /** `select { case s.send <- snap: default: }` */
    method TrySend(f: Snapshot)
      requires !closed
      modifies this
      ensures View() == M.Send(old(View()), f)
      ensures buffer == if |old(buffer)| < M.CHANNEL_CAPACITY then old(buffer) + [f] else old(buffer)
    {
      offers := offers + [M.Offer(f, if |buffer| < M.CHANNEL_CAPACITY then M.CHANNEL_CAPACITY - |buffer| else 0)];
      if |buffer| < M.CHANNEL_CAPACITY {
        buffer := buffer + [f];
      }
    }

    method Close()
      requires !closed && closes == 0
      modifies this
      ensures View() == M.Close(old(View()))
      ensures closed && buffer == old(buffer)
    {
      closed := true;
      closes := closes + 1;
    }

    /** The consumer takes a frame. */
    method Receive() returns (f: Snapshot)
      requires buffer != []
      modifies this
      ensures f == old(buffer)[0] && View() == M.Take(old(View()))
      ensures buffer == old(buffer)[1..]
    {
      f := buffer[0];
      received := received + [buffer[0]];
      buffer := buffer[1..];
    }
  }

  class Bus {
    var version: nat
    var pending: map<string, nat>
    var subs: map<string, seq<Subscription>>

    // The Go runtime's timers and the database that snapshots are built from.
    var timers: map<nat, M.Timer>
    var nextTimer: nat
    var commits: nat

    ghost var known: set<Subscription>
    ghost var announced: map<string, nat>
    ghost var failed: set<Subscription>
    ghost var accepted: nat
    ghost var ran: nat

    ghost function View(): M.State<Subscription>
      reads this, known
    {
      M.State(version, pending, subs, map s | s in known :: s.View(), timers, nextTimer,
              commits, announced, failed, accepted, ran)
    }

    ghost predicate Valid()
      reads this, known
    {
      M.Inv(View())
    }

    /** The part of Valid that the methods lean on. */
    ghost predicate Wired()
      reads this, known
    {
      forall a | a in subs ::
        && NoDuplicates(subs[a])
        && forall s | s in subs[a] :: s in known && !s.closed && s.closes == 0
    }

    lemma ValidIsWired()
      requires Valid()
      ensures Wired()
    {
      var st := View();
      forall a | a in subs
        ensures NoDuplicates(subs[a]) && forall s | s in subs[a] :: s in known && !s.closed && s.closes == 0
      {
        assert M.ListInv(st, a);
        forall s | s in subs[a] ensures s in known && !s.closed && s.closes == 0 {
          assert s in st.info && M.SubInv(st.info[s], st.version);
        }
      }
    }

    /** A method that took a step of the model has kept the object valid. */
    twostate lemma StepKeepsValid(new op: M.Op<Subscription>)
      requires old(Valid()) && M.Enabled(old(View()), op) && View() == M.Step(old(View()), op)
      ensures Valid() && Wired()
    {
      M.StepKeepsInv(old(View()), op);
      ValidIsWired();
    }

    constructor ()
      ensures Valid() && View() == M.Init()
    {
      version, pending, subs, timers, nextTimer := 0, map[], map[], map[], 0;
      commits, known, announced, failed, accepted, ran := 0, {}, map[], {}, 0, 0;
    }

    /** `built` is whether the aggregator succeeds; `during` counts the commits
        that land while it runs. */
    method Subscribe(accountId: string, built: bool, during: nat) returns (r: Result<Subscription, BusError>)
      requires Valid()
      modifies this
      ensures Valid()
      ensures r.Err? && r.error == ResourceExhausted <==> |M.SubsOf(old(View()), accountId)| >= M.MAX_SUBSCRIBERS
      ensures r.Err? && r.error == ResourceExhausted ==> View() == old(View())
      ensures r.Err? && r.error == BuildError ==>
                (!built || accountId == "") && View() == M.Begin(old(View()), during)
      ensures r.Ok? ==> fresh(r.value) && View() == M.SubscribeStep(old(View()), accountId, r.value, during)
      ensures r.Ok? ==>
                && r.value.accountId == accountId && !r.value.closed
                && r.value.buffer == [M.Snapshot(old(version) + 1, accountId, old(commits))]
                && subs == old(subs)[accountId :=
                     (if accountId in old(subs) then old(subs)[accountId] else []) + [r.value]]
      ensures r.Err? ==> subs == old(subs)
    {
      r := SubscribeLocked(accountId, built, during);
      if r.Ok? {
        assert View().info[r.value] == r.value.View();
        StepKeepsValid(M.Subscribe(accountId, r.value, during));
      } else if r.error == BuildError {
        StepKeepsValid(M.SubscribeFailed(accountId, during));
      }
    }

    /** The body of Subscribe, with the mutex held; so the other ...Locked methods. */
    method SubscribeLocked(accountId: string, built: bool, during: nat) returns (r: Result<Subscription, BusError>)
      modifies this
      ensures r.Err? && r.error == ResourceExhausted <==> |M.SubsOf(old(View()), accountId)| >= M.MAX_SUBSCRIBERS
      ensures r.Err? && r.error == ResourceExhausted ==> View() == old(View())
      ensures r.Err? && r.error == BuildError ==>
                (!built || accountId == "") && View() == M.Begin(old(View()), during)
      ensures r.Ok? ==> fresh(r.value) && M.Enabled(old(View()), M.Subscribe(accountId, r.value, during))
      ensures r.Ok? ==> View() == M.SubscribeStep(old(View()), accountId, r.value, during)
    {
      var list := if accountId in subs then subs[accountId] else [];
      if |list| >= M.MAX_SUBSCRIBERS {
        return Err(ResourceExhausted);
      }
      version := version + 1;
      var builtAt := commits;
      commits := commits + during;
      assert View() == M.Begin(old(View()), during);
      if !built || accountId == "" {
        return Err(BuildError);
      }
      var s := Register(accountId, M.Snapshot(version, accountId, builtAt));
      return Ok(s);
    }

    method Register(accountId: string, initial: Snapshot) returns (s: Subscription)
      modifies this`subs, this`known
      ensures fresh(s)
      ensures View() == old(View()).(
                failed := old(failed) - {s},
                info := old(View()).info[s := M.Sub(accountId, false, [initial], [],
                                                    [M.Offer(initial, M.CHANNEL_CAPACITY)], 0)],
                subs := old(subs)[accountId := M.SubsOf(old(View()), accountId) + [s]])
    {
      s := new Subscription(accountId, initial);
      subs := subs[accountId := (if accountId in subs then subs[accountId] else []) + [s]];
      known := known + {s};
      assert s !in failed;
      assert View().info == old(View()).info[s := s.View()];
    }

    method Unsubscribe(s: Subscription)
      requires Valid() && s in known
      modifies this, s
      ensures Valid() && View() == M.UnsubscribeStep(old(View()), s)
      ensures s.closed && s.buffer == old(s.buffer)
      ensures forall a | a in subs :: a in old(subs) && s !in subs[a]
      ensures forall a, x | a in old(subs) && x in old(subs)[a] && x != s :: a in subs && x in subs[a]
    {
      assert M.SubInv(View().info[s], version);
      R.UnsubscribeFields(View(), s);
      UnsubscribeLocked(s);
      assert View().info[s] == s.View();
      StepKeepsValid(M.Unsubscribe(s));
    }

    /** Removes the first occurrence, as `append(arr[:i], arr[i+1:]...)` does. */
    method UnsubscribeLocked(s: Subscription)
      requires s in known && (!s.closed ==> s.closes == 0)
      modifies this, s
      ensures View() == M.UnsubscribeStep(old(View()), s)
    {
      ghost var before := View();
      var arr := if s.accountId in subs then subs[s.accountId] else [];
      var i := 0;
      while i < |arr| && arr[i] != s
        invariant i <= |arr| && s !in arr[..i]
      {
        i := i + 1;
      }
      RemoveFirstAt(arr, s, i);
      if i < |arr| {
        subs := subs[s.accountId := arr[..i] + arr[i + 1..]];
      }
      if !s.closed {
        s.Close();
      }
      assert View().info == before.info[s := s.View()];
    }

    method Publish(accountId: string, ghost commit: nat)
      requires Valid() && commit <= commits
      modifies this
      ensures Valid() && View() == M.PublishStep(old(View()), accountId, commit)
      ensures subs == old(subs)
      ensures accountId !in subs || subs[accountId] == [] || HasArmed(old(pending), old(timers), accountId)
              ==> pending == old(pending) && timers == old(timers)
      ensures accountId in subs && subs[accountId] != [] && !HasArmed(old(pending), old(timers), accountId)
              ==> && pending == old(pending)[accountId := old(nextTimer)]
                  && timers == old(timers)[old(nextTimer) := M.Timer(accountId, false)]
    {
      PublishLocked(accountId, commit);
      StepKeepsValid(M.Publish(accountId, commit));
    }

    method PublishLocked(accountId: string, ghost commit: nat)
      requires commit <= commits
      modifies this
      ensures View() == M.PublishStep(old(View()), accountId, commit)
    {
      announced := M.Announce(View(), accountId, commit).announced;
      assert View() == M.Announce(old(View()), accountId, commit);
      if accountId == "" || (if accountId in subs then subs[accountId] else []) == [] {
        return;
      }
      Schedule(accountId);
    }

    method Schedule(accountId: string)
      modifies this
      ensures View() ==
              if accountId in old(pending) && M.Armed(old(View()), old(pending)[accountId])
              then old(View()).(accepted := old(accepted) + 1)
              else M.Arm(old(View()), accountId)
    {
      if accountId in pending {
        var t := pending[accountId];
        var stopped := t in timers && !timers[t].fired;
        if stopped {
          // Reset: the same timer, armed again.
          accepted := accepted + 1;
          return;
        }
        pending := pending - {accountId};
      }
      AfterFunc(accountId);
    }

    /** time.AfterFunc, and the entry that names the new timer. */
    method AfterFunc(accountId: string)
      modifies `accepted, `timers, `pending, `nextTimer
      ensures accepted == old(accepted) + 1 && nextTimer == old(nextTimer) + 1
      ensures timers == old(timers)[old(nextTimer) := M.Timer(accountId, false)]
      ensures pending == old(pending)[accountId := old(nextTimer)]
    {
      accepted := accepted + 1;
      timers := timers[nextTimer := M.Timer(accountId, false)];
      pending := pending[accountId := nextTimer];
      nextTimer := nextTimer + 1;
    }

    /** Takes no lock: the version is drawn atomically, and the build may fail. */
    method BuildNow(accountId: string, built: bool) returns (r: Result<Snapshot, BusError>)
      requires Valid()
      modifies this
      ensures Valid() && View() == M.Step(old(View()), M.BuildNow)
      ensures r == if built && accountId != "" then Ok(M.Snapshot(old(version) + 1, accountId, commits))
              else Err(BuildError)
    {
      version := version + 1;
      r := if built && accountId != "" then Ok(M.Snapshot(version, accountId, commits)) else Err(BuildError);
      StepKeepsValid(M.BuildNow);
    }

    /** A watcher takes a frame from its subscription. */
    method Watch(s: Subscription) returns (f: Snapshot)
      requires Valid() && s in known && s.buffer != []
      modifies s
      ensures Valid() && f == old(s.buffer)[0] && View() == M.Step(old(View()), M.Receive(s))
    {
      f := s.Receive();
      assert View().info == old(View()).info[s := s.View()];
      StepKeepsValid(M.Receive(s));
    }

    method Broadcast(list: seq<Subscription>, f: Snapshot)
      requires NoDuplicates(list) && forall s | s in list :: s in known
      modifies set s | s in list
      ensures View() == old(View()).(info := M.Deliver(old(View()).info, list, f))
    {
      for i := 0 to |list|
        invariant forall s | s in known :: s.View() == M.Delivered(old(s.View()), s in list[..i], f)
      {
        var s := list[i];
        if !s.closed {
          s.TrySend(f);
        }
        assert list[..i + 1] == list[..i] + [s];
      }
      assert list[..|list|] == list;
      assert View().info == M.Deliver(old(View()).info, list, f);
    }

    /** The goroutine of timer `t`, which went off. */
    method Fire(t: nat, built: bool, during: nat)
      requires Valid() && t in timers && timers[t].fired
      modifies this, known
      ensures Valid() && View() == M.FireStep(old(View()), t, built, during)
    {
      ValidIsWired();
      FireLocked(t, built, during);
      StepKeepsValid(M.Fire(t, built, during));
    }

    method FireLocked(t: nat, built: bool, during: nat)
      requires Wired() && t in timers && timers[t].fired
      modifies this, known
      ensures View() == M.FireStep(old(View()), t, built, during)
    {
      var accountId := timers[t].accountId;
      timers := timers - {t};
      ran := ran + 1;
      pending := pending - {accountId};
      assert View() == old(View()).(timers := timers, ran := ran, pending := pending);
      var list := if accountId in subs then subs[accountId] else [];
      if list == [] {
        return;
      }
      Rebuild(accountId, list, built, during);
    }

    method Rebuild(accountId: string, list: seq<Subscription>, built: bool, during: nat)
      requires NoDuplicates(list) && forall s | s in list :: s in known
      modifies this`version, this`commits, this`failed, set s | s in list
      ensures View() ==
              if !built then M.Begin(old(View()), during).(failed := old(failed) + M.Elems(list))
              else M.Begin(old(View()), during).(
                     failed := old(failed) - M.Elems(list),
                     info := M.Deliver(old(View()).info, list, M.Snapshot(old(version) + 1, accountId, old(commits))))
    {
      version := version + 1;
      var f := M.Snapshot(version, accountId, commits);
      commits := commits + during;
      if !built {
        failed := failed + M.Elems(list);
        return;
      }
      failed := failed - M.Elems(list);
      assert View() == M.Begin(old(View()), during).(failed := old(failed) - M.Elems(list));
      Broadcast(list, f);
    }

    /** Stop catches a timer only if it has not gone off. */
    method StopPending()
      modifies `timers, `pending
      ensures pending == map[]
      ensures timers == map t | t in old(timers) && !(t in old(pending).Values && !old(timers)[t].fired) ::
              old(timers)[t]
    {
      ghost var seen: set<nat> := {};
      while pending != map[]
        invariant seen + pending.Values == old(pending).Values
        invariant timers == map t | t in old(timers) && !(t in seen && !old(timers)[t].fired) :: old(timers)[t]
        decreases |pending|
      {
        var accountId :| accountId in pending;
        var t := pending[accountId];
        if t in timers && !timers[t].fired {
          timers := timers - {t};
        }
        DropKey(pending, accountId);
        seen := seen + {t};
        pending := pending - {accountId};
      }
    }

    method CloseAll(list: seq<Subscription>)
      requires forall s | s in list :: s in known && (!s.closed ==> s.closes == 0)
      modifies set s | s in list
      ensures forall s | s in known :: s.View() == if s in list then M.Close(old(s.View())) else old(s.View())
    {
      for i := 0 to |list|
        invariant forall s | s in known :: s.View() == if s in list[..i] then M.Close(old(s.View())) else old(s.View())
      {
        var s := list[i];
        if !s.closed {
          s.Close();
        }
        assert list[..i + 1] == list[..i] + [s];
      }
      assert list[..|list|] == list;
    }

    method CloseListed()
      requires Wired()
      modifies known
      ensures forall s | s in known ::
              s.View() == if ListedIn(subs, subs.Keys, s) then M.Close(old(s.View())) else old(s.View())
    {
      var accounts := subs.Keys;
      ghost var done: set<string> := {};
      while accounts != {}
        invariant accounts + done == subs.Keys && accounts !! done
        invariant forall s | s in known ::
                  s.View() == if ListedIn(subs, done, s) then M.Close(old(s.View())) else old(s.View())
      {
        var accountId :| accountId in accounts;
        CloseAll(subs[accountId]);
        forall s | s in known
          ensures ListedIn(subs, done + {accountId}, s) <==> ListedIn(subs, done, s) || s in subs[accountId]
        {
          ListedInMore(subs, done, accountId, s);
        }
        accounts := accounts - {accountId};
        done := done + {accountId};
      }
      assert done == subs.Keys;
    }

    /** The channels after CloseListed, as the model states them. */
    lemma ForgetLists(before: M.State<Subscription>)
      requires subs == before.subs && before.info.Keys == known
      requires forall s | s in known ::
               s.View() == if ListedIn(subs, subs.Keys, s) then M.Close(before.info[s]) else before.info[s]
      ensures View().info == M.ShutdownStep(before).info
    {
      forall s | s in known ensures ListedIn(subs, subs.Keys, s) == M.Listed(before, s) {}
    }

    /** The loop over the subscriber lists, each dropped from the map. */
    method CloseAndForget(ghost before: M.State<Subscription>)
      requires Wired() && subs == before.subs && before.info == View().info
      modifies this`subs, known
      ensures subs == map[] && View().info == M.ShutdownStep(before).info
    {
      CloseListed();
      ForgetLists(before);
      subs := map[];
    }

    method Shutdown()
      requires Valid()
      modifies this, known
      ensures Valid() && View() == M.ShutdownStep(old(View()))
      ensures pending == map[] && subs == map[]
      ensures forall t | t in timers :: t in old(timers) && (t in old(pending).Values ==> old(timers)[t].fired)
      ensures forall a, s | a in old(subs) && s in old(subs)[a] :: s.closed && s.buffer == old(s.buffer)
    {
      ValidIsWired();
      ghost var before := View();
      ShutdownLocked();
      StepKeepsValid(M.Shutdown);
      forall a, s | a in old(subs) && s in old(subs)[a] ensures s.closed && s.buffer == old(s.buffer) {
        R.ShutdownFields(before, a, s);
        assert View().info[s] == s.View() && before.info[s] == old(s.View());
      }
    }

    method ShutdownLocked()
      requires Wired()
      modifies this, known
      ensures View() == M.ShutdownStep(old(View()))
    {
      StopPending();
      CloseAndForget(old(View()));
    }
  }

  /** The account's pending timer has not gone off. */
  ghost predicate HasArmed(pending: map<string, nat>, timers: map<nat, M.Timer>, a: string) {
    a in pending && pending[a] in timers && !timers[pending[a]].fired
  }

  ghost predicate ListedIn<S>(subs: map<string, seq<S>>, accounts: set<string>, s: S) {
    exists a :: a in accounts && a in subs && s in subs[a]
  }

  lemma ListedInMore<S>(subs: map<string, seq<S>>, accounts: set<string>, a: string, s: S)
    requires a in subs
    ensures ListedIn(subs, accounts + {a}, s) <==> ListedIn(subs, accounts, s) || s in subs[a]
  {
    if ListedIn(subs, accounts, s) {
      var b :| b in accounts && b in subs && s in subs[b];
      assert b in accounts + {a};
    }
  }

  lemma DropKey<K, V>(m: map<K, V>, k: K)
    requires k in m
    ensures m.Values == (m - {k}).Values + {m[k]}
    ensures |m - {k}| < |m|
  {
    var m' := m - {k};
    assert m'.Keys == m.Keys - {k};
    forall v | v in m.Values ensures v in m'.Values + {m[k]} {
      var j :| j in m && m[j] == v;
      if j != k { assert j in m' && m'[j] == v; }
    }
    forall v | v in m'.Values + {m[k]} ensures v in m.Values {
      if v != m[k] { var j :| j in m' && m'[j] == v; assert j in m && m[j] == v; }
    }
  }
}
