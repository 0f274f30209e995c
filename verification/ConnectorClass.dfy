/**
 The critical sections of internal/connector/connector.go as methods on the shared
 fields, each proved to take the step of ConnectorModel that it stands for.
 Records and channels are values in the maps `insts` and `info`; a method is one
 stretch of code between Lock and Unlock.
 */
module ConnectorClass {
  import opened Wrappers
  import opened Lists
  import M = ConnectorModel

  datatype ConnectorError = Conflict | InTransition(slot: M.Slot)

  class Connector {
    var instances: map<string, nat>
    var insts: map<nat, M.Instance>
    var nextInst: nat
    var subs: map<string, seq<nat>>
    var info: map<nat, M.Sub>
    var nextSub: nat

    function View(): M.State
      reads this
    {
      M.State(instances, insts, nextInst, subs, info, nextSub)
    }

    constructor ()
      ensures View() == M.Init()
    {
      instances, insts, nextInst, subs, info, nextSub := map[], map[], 0, map[], map[], 0;
    }

    /** Connect, up to the slow provider call. */
    method ReserveSlot(accountId: string) returns (r: Result<nat, ConnectorError>)
      modifies this
      ensures r.Err? <==> accountId in old(instances)
      ensures r.Err? ==> View() == old(View())
      ensures r.Ok? ==> View() == M.ReserveStep(old(View()), accountId) && r.value == old(nextInst)
    {
      if accountId in instances {
        return Err(Conflict);
      }
      r := Ok(nextInst);
      instances := instances[accountId := nextInst];
      insts := insts[nextInst := M.NewInstance(accountId)];
      nextInst := nextInst + 1;
    }

    /** Connect, after the provider refused: the record in the map is signalled and
        its entry deleted. */
    method AbandonSlot(g: nat)
      requires M.Enabled(View(), M.ConnectFails(g))
      modifies this
      ensures View() == M.ConnectFailsStep(old(View()), g)
    {
      var accountId := insts[g].accountId;
      if accountId in instances {
        var inst := instances[accountId];
        insts := insts[inst := insts[inst].(doneCloses := insts[inst].doneCloses + 1)];
        insts := insts[inst := insts[inst].(released := true)];
        instances := instances - {accountId};
      }
      insts := insts[g := insts[g].(connect := M.Failed)];
    }

    /** Connect, after the provider is up; false is the defensive branch. */
    method InstallProvider(g: nat) returns (installed: bool)
      requires M.Enabled(View(), M.Install(g))
      modifies this
      ensures View() == M.InstallStep(old(View()), g)
      ensures M.LifeInv(old(View())) ==> installed && instances == old(instances)
    {
      ghost var before := View();
      if M.LifeInv(before) {
        M.SlotIsOwn(before, g);
      }
      var accountId := insts[g].accountId;
      if accountId !in instances {
        insts := insts[g := insts[g].(connect := M.SlotGone)];
        return false;
      }
      var inst := instances[accountId];
      insts := insts[inst := insts[inst].(p := Some(g), slot := M.Online)];
      insts := insts[g := insts[g].(connect := M.Installed(inst))];
      return true;
    }

    /** Disconnect, up to the slow provider call. */
    method MarkDisconnecting(accountId: string) returns (r: Result<nat, ConnectorError>)
      requires M.LinkedTo(View(), accountId)
      modifies this
      ensures r.Ok? <==> accountId in old(instances) && old(insts)[old(instances)[accountId]].slot == M.Online
      ensures r.Ok? ==> r.value == old(instances)[accountId]
                        && M.Enabled(old(View()), M.Mark(accountId)) && View() == M.Step(old(View()), M.Mark(accountId))
      ensures r.Err? ==> View() == old(View())
    {
      if accountId !in instances {
        return Err(Conflict);
      }
      var inst := instances[accountId];
      if insts[inst].slot != M.Online {
        return Err(InTransition(insts[inst].slot));
      }
      insts := insts[inst := insts[inst].(slot := M.Disconnecting, disconnect := M.InProviderDisconnect)];
      return Ok(inst);
    }

    /** Disconnect, after the provider returned an error. */
    method KeepForRetry(g: nat)
      requires M.Enabled(View(), M.DisconnectFails(g))
      modifies this
      ensures View() == M.Step(old(View()), M.DisconnectFails(g))
    {
      insts := insts[g := insts[g].(slot := M.Online, disconnect := M.NoCall)];
    }

    /** Disconnect, after pumpDone was closed: the entry of the account is deleted,
        and it is the entry of the record that was marked. */
    method ReleaseSlot(g: nat)
      requires M.Enabled(View(), M.Release(g))
      modifies this
      ensures View() == M.ReleaseStep(old(View()), g)
      ensures M.LifeInv(old(View())) ==> old(instances) == instances[insts[g].accountId := g] && insts[g].released
    {
      ghost var before := View();
      if M.LifeInv(before) {
        M.SlotIsOwn(before, g);
      }
      var accountId := insts[g].accountId;
      if accountId in instances {
        var inst := instances[accountId];
        insts := insts[inst := insts[inst].(released := true)];
        instances := instances - {accountId};
      }
      insts := insts[g := insts[g].(disconnect := M.NoCall)];
    }

    /** The accounts that Shutdown disconnects one by one. */
    method OnlineAccounts() returns (ids: set<string>)
      requires forall a | a in instances :: instances[a] in insts
      ensures forall a :: a in ids <==> a in instances && insts[instances[a]].slot == M.Online
    {
      ids := {};
      var todo := instances.Keys;
      while todo != {}
        invariant todo <= instances.Keys
        invariant forall a :: a in ids <==> a in instances && a !in todo && insts[instances[a]].slot == M.Online
      {
        var a :| a in todo;
        if insts[instances[a]].slot == M.Online {
          ids := ids + {a};
        }
        todo := todo - {a};
      }
    }

    method Subscribe(accountId: string) returns (s: nat)
      modifies this
      ensures s == old(nextSub) && View() == M.SubscribeStep(old(View()), accountId)
    {
      s := nextSub;
      info := info[s := M.Sub(accountId, false, M.Chan([], false, false), [], M.ReleasedOnes(View()),
                              M.SweptOnes(View()), None, false)];
      subs := subs[accountId := (if accountId in subs then subs[accountId] else []) + [s]];
      nextSub := nextSub + 1;
    }

    method Unsubscribe(s: nat)
      requires s in info
      modifies this
      ensures View() == M.UnsubscribeStep(old(View()), s)
      ensures info.Keys == old(info).Keys && forall x | x in info && x != s :: info[x] == old(info)[x]
      ensures info[s].flag && (!old(info)[s].flag && !old(info)[s].ch.closed ==> info[s].ch.closed)
      ensures forall a | a in old(subs) && a != old(info)[s].accountId :: a in subs && subs[a] == old(subs)[a]
    {
      var sub := info[s];
      var arr := if sub.accountId in subs then subs[sub.accountId] else [];
      var i := 0;
      while i < |arr| && arr[i] != s
        invariant i <= |arr| && s !in arr[..i]
      {
        i := i + 1;
      }
      RemoveFirstAt(arr, s, i);
      if i < |arr| {
        subs := subs[sub.accountId := arr[..i] + arr[i + 1..]];
      }
      sub := sub.(unsubscribed := true);
      if !sub.flag {
        sub := sub.(flag := true, ch := M.CloseChan(sub.ch));
      }
      info := info[s := sub];
    }

    /** One turn of the pump's range loop. */
    method PumpDeliver(g: nat)
      requires g in insts && insts[g].pump.Holding?
      requires var list := M.SubsOf(View(), insts[g].accountId); NoDuplicates(list) && forall s | s in list :: s in info
      modifies this
      ensures View() == M.DeliversStep(old(View()), g)
      ensures forall s | s in info :: s in old(info) && info[s] ==
                var (before, listed) := (old(info)[s], s in M.SubsOf(old(View()), old(insts)[g].accountId));
                if listed && !before.flag && !before.ch.closed && |before.ch.buffer| < 32
                then before.(ch := before.ch.(buffer := before.ch.buffer + [old(insts)[g].pump.e]),
                             got := before.got + [old(insts)[g].pump.e])
                else if listed && !before.flag && before.ch.closed then before.(ch := before.ch.(panicked := true))
                else before
    {
      var inst := insts[g];
      var list := if inst.accountId in subs then subs[inst.accountId] else [];
      ghost var before := info;
      for i := 0 to |list|
        invariant info.Keys == before.Keys
        invariant forall s | s in info :: info[s] == M.Sent(before[s], s in list[..i], inst.pump.e)
        invariant subs == old(subs) && insts == old(insts) && instances == old(instances) && nextInst == old(nextInst)
                  && nextSub == old(nextSub)
      {
        var s := list[i];
        assert s !in list[..i];
        if !info[s].flag {
          info := info[s := M.Sent(info[s], true, inst.pump.e)];
        }
        assert list[..i + 1] == list[..i] + [s];
      }
      assert list[..|list|] == list;
      insts := insts[g := inst.(pump := M.Ranging)];
    }

    method CloseListed(list: seq<nat>, g: nat)
      requires forall s | s in list :: s in info
      modifies `info
      ensures info == map s | s in old(info) :: M.SweptSub(old(info)[s], s in list, g)
    {
      ghost var before := info;
      for i := 0 to |list|
        invariant info.Keys == before.Keys
        invariant forall s | s in info :: info[s] == M.SweptSub(before[s], s in list[..i], g)
      {
        var s := list[i];
        if !info[s].flag {
          info := info[s := info[s].(flag := true, ch := M.CloseChan(info[s].ch), sweptBy := Some(g))];
        }
        assert list[..i + 1] == list[..i] + [s];
      }
      assert list[..|list|] == list;
    }

    /** The pump's tail: every remaining subscriber is closed. */
    method PumpSweep(g: nat)
      requires g in insts
      requires forall s | s in M.SubsOf(View(), insts[g].accountId) :: s in info
      modifies this
      ensures View() == M.SweepsStep(old(View()), g)
      ensures subs == old(subs) - {old(insts)[g].accountId}
      ensures forall s | s in M.SubsOf(old(View()), old(insts)[g].accountId) :: s in info && info[s].flag
    {
      var inst := insts[g];
      CloseListed(if inst.accountId in subs then subs[inst.accountId] else [], g);
      subs := subs - {inst.accountId};
      insts := insts[g := inst.(pump := M.Swept)];
    }
  }
}
