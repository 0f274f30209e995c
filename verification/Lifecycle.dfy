/**
 The stored lifecycle of an account against the connector's table of providers:
 OnlineAccount and OfflineAccount (internal/api/v1/discord.go), DeleteAccount
 (internal/api/v1/accounts.go), and boot and shutdown (cmd/agentchatd/cmds/serve.go).
 Every transaction, connect and disconnect may fail, and the steps of any number of
 handlers interleave in any order.
 */
module Lifecycle {
  import opened Wrappers

  datatype Phase = Created | Online | Offline | Archived | Deleted

  datatype Row = Row(phase: Phase, hasToken: bool, botUserId: string)

  /** The connector's entry for an account. */
  datatype Slot = Connecting | Live | Disconnecting

  datatype Action = WentOnline | WentOffline | Deletion | Reconcile

  datatype Entry = Entry(actor: string, action: Action, target: string)

  /** The stored accounts, the connector's entries and the lifecycle rows of the audit log; `up` while a daemon runs. */
  datatype State = State(stored: map<string, Row>, slots: map<string, Slot>, audit: seq<Entry>, up: bool)

  datatype Failure = NotFound | Conflict | InvalidArgument | Internal | Unavailable

  // ---------------------------------------------------------------- transitions of one entry

  /** What the connector's critical sections do to its table. */
  datatype SlotAct =
    | Reserve(id: string)
    | Connect(id: string, ok: bool)
    | Mark(id: string)
    | Disconnect(id: string, ok: bool)

  /** A failed connect and a finished disconnect delete the entry; the other outcomes only touch one that is there. */
  function Slotted(slots: map<string, Slot>, act: SlotAct): map<string, Slot> {
    match act
    case Reserve(id) => slots[id := Connecting]
    case Connect(id, ok) => if !ok then slots - {id} else if id in slots then slots[id := Live] else slots
    case Mark(id) => slots[id := Disconnecting]
    case Disconnect(id, ok) => if ok then slots - {id} else if id in slots then slots[id := Live] else slots
  }

  /** The entry is in the phase the section expects. */
  predicate Admits(slots: map<string, Slot>, act: SlotAct) {
    match act
    case Reserve(id) => id !in slots
    case Connect(id, ok) => id in slots && slots[id] == Connecting
    case Mark(id) => id in slots && slots[id] == Live
    case Disconnect(id, ok) => id in slots && slots[id] == Disconnecting
  }

  // ---------------------------------------------------------------- transactions

  /** The transaction of OnlineAccount; a captured user id replaces the stored one. */
  function WithOnline(s: State, actor: string, id: string, uid: string): State
    requires id in s.stored
  {
    var row := s.stored[id];
    s.(stored := s.stored[id := row.(phase := Online, botUserId := if uid != "" then uid else row.botUserId)],
       audit := s.audit + [Entry(actor, WentOnline, id)])
  }

  function WithOffline(s: State, actor: string, id: string): State
    requires id in s.stored
  {
    s.(stored := s.stored[id := s.stored[id].(phase := Offline)], audit := s.audit + [Entry(actor, WentOffline, id)])
  }

  function Removed(s: State, actor: string, id: string): State {
    s.(stored := s.stored - {id}, audit := s.audit + [Entry(actor, Deletion, id)])
  }

  predicate IsOnline(s: State, id: string) {
    id in s.stored && s.stored[id].phase == Online
  }

  /** The answer of listing the accounts: each one once. */
  predicate IsListing(stored: map<string, Row>, listed: seq<string>) {
    && (forall id | id in stored :: id in listed)
    && (forall id | id in listed :: id in stored)
    && forall i, j | 0 <= i < j < |listed| :: listed[i] != listed[j]
  }

  /** One audit row per online account, in the order they were listed. */
  function SweepRows(stored: map<string, Row>, listed: seq<string>): seq<Entry> {
    if listed == [] then []
    else
      var (rest, id) := (listed[..|listed| - 1], listed[|listed| - 1]);
      SweepRows(stored, rest) + if id in stored && stored[id].phase == Online then [Entry("system", Reconcile, id)]
        else []
  }

  /** A committed reconciliation: every online row goes offline. */
  function Reconciled(s: State, listed: seq<string>): State {
    s.(stored := map id | id in s.stored :: SweptRow(s.stored[id]),
       audit := s.audit + SweepRows(s.stored, listed))
  }

  /** The process is gone, and with it the connector. */
  function Crashed(s: State): State {
    s.(slots := map[], up := false)
  }

  /** A boot: an empty connector, and a reconciliation whose failure is only logged. */
  function Booted(s: State, listed: seq<string>, commits: bool): State {
    var restarted := s.(slots := map[], up := true);
    if commits then Reconciled(restarted, listed) else restarted
  }

  // ---------------------------------------------------------------- the handlers as code

  /** How the environment answers a handler's slow calls and its transaction. */
  datatype Env = Env(decrypts: bool, connects: bool, commits: bool, disconnects: bool, uid: string)

  predicate IsLive(s: State, id: string) {
    id in s.slots && s.slots[id] == Live
  }

  function OnlineRefusal(s: State, id: string, env: Env): Option<Failure> {
    if id !in s.stored then Some(NotFound)
    else if !s.stored[id].hasToken then Some(InvalidArgument)
    else if !env.decrypts then Some(Internal)
    else if id in s.slots then Some(Conflict)
    else if !env.connects then Some(Unavailable)
    else None
  }

  /** A whole OnlineAccount, undisturbed: on a failed transaction the provider is disconnected again. */
  function OnlineRun(s: State, actor: string, id: string, env: Env): State {
    if OnlineRefusal(s, id, env).Some? then s
    else if env.commits then WithOnline(s.(slots := s.slots[id := Live]), actor, id, env.uid)
    else if env.disconnects then s
    else s.(slots := s.slots[id := Live])
  }

  function OfflineRefusal(s: State, id: string, env: Env): Option<Failure> {
    if !IsLive(s, id) then Some(Conflict)
    else if id !in s.stored then Some(NotFound)
    else if !env.commits then Some(Internal)
    else None
  }

  /** A whole OfflineAccount: the row first, then the provider. */
  function OfflineRun(s: State, actor: string, id: string, env: Env): State {
    if OfflineRefusal(s, id, env).Some? then s
    else if env.disconnects then WithOffline(s, actor, id).(slots := s.slots - {id})
    else WithOffline(s, actor, id)
  }

  function DeleteRefusal(s: State, id: string, env: Env): Option<Failure> {
    if id in s.slots then Some(Conflict)
    else if id !in s.stored then Some(NotFound)
    else if !env.commits then Some(Internal)
    else None
  }

  function DeleteRun(s: State, actor: string, id: string, env: Env): State {
    if DeleteRefusal(s, id, env).Some? then s else Removed(s, actor, id)
  }

  class Daemon {
    var stored: map<string, Row>
    var slots: map<string, Slot>
    var audit: seq<Entry>
    var up: bool

    function View(): State
      reads this
    {
      State(stored, slots, audit, up)
    }

    constructor (stored: map<string, Row>, audit: seq<Entry>)
      ensures View() == State(stored, map[], audit, false)
    {
      this.stored, slots, this.audit, up := stored, map[], audit, false;
    }

    method OnlineAccount(actor: string, id: string, env: Env) returns (r: Result<(), Failure>)
      modifies this
      ensures View() == OnlineRun(old(View()), actor, id, env)
      ensures var no := OnlineRefusal(old(View()), id, env);
              r == if no.Some? then Err(no.value) else if env.commits then Ok(()) else Err(Internal)
      ensures r.Ok? <==> id in old(stored) && old(stored)[id].hasToken && env.decrypts && id !in old(slots)
                         && env.connects && env.commits
      ensures id !in old(stored) ==> r == Err(NotFound)
      ensures id in old(stored) && !old(stored)[id].hasToken ==> r == Err(InvalidArgument)
      ensures id in old(stored) && old(stored)[id].hasToken && env.decrypts ==>
                if id in old(slots) then r == Err(Conflict) else !env.connects ==> r == Err(Unavailable)
      ensures r.Ok? ==>
                && stored == old(stored)[id :=
                     Row(Online, true, if env.uid == "" then old(stored)[id].botUserId else env.uid)]
                && slots == old(slots)[id := Live] && audit == old(audit) + [Entry(actor, WentOnline, id)]
      ensures r.Err? ==>
                && stored == old(stored) && audit == old(audit)
                && slots == if r == Err(Internal) && env.decrypts && !env.disconnects then old(slots)[id := Live]
                            else old(slots)
    {
      if id !in stored {
        return Err(NotFound);
      }
      if !stored[id].hasToken {
        return Err(InvalidArgument);
      }
      if !env.decrypts {
        return Err(Internal);
      }
      if id in slots {
        return Err(Conflict);
      }
      EntryAlone(slots, id, Connecting, Live);
      EntryAlone(slots, id, Live, Disconnecting);
      EntryAlone(slots, id, Disconnecting, Live);
      slots := slots[id := Connecting];
      if !env.connects {
        slots := slots - {id};
        return Err(Unavailable);
      }
      slots := slots[id := Live];
      if !env.commits {
        slots := slots[id := Disconnecting];
        if env.disconnects {
          slots := slots - {id};
        } else {
          slots := slots[id := Live];
        }
        return Err(Internal);
      }
      var row := stored[id];
      stored := stored[id := row.(phase := Online, botUserId := if env.uid != "" then env.uid else row.botUserId)];
      audit := audit + [Entry(actor, WentOnline, id)];
      return Ok(());
    }

    method OfflineAccount(actor: string, id: string, env: Env) returns (r: Result<(), Failure>)
      modifies this
      ensures View() == OfflineRun(old(View()), actor, id, env)
      ensures var no := OfflineRefusal(old(View()), id, env);
              r == if no.Some? then Err(no.value) else if env.disconnects then Ok(()) else Err(Unavailable)
      ensures r == Err(Conflict) <==> id !in old(slots) || old(slots)[id] != Live
      ensures r == Err(NotFound) <==> id in old(slots) && old(slots)[id] == Live && id !in old(stored)
      ensures r.Ok? || r == Err(Unavailable) <==>
              id in old(slots) && old(slots)[id] == Live && id in old(stored) && env.commits
      ensures if (r.Ok? || r == Err(Unavailable)) && id in old(stored)
              then stored == old(stored)[id := old(stored)[id].(phase := Offline)]
                   && audit == old(audit) + [Entry(actor, WentOffline, id)]
              else stored == old(stored) && audit == old(audit)
      ensures slots == if r.Ok? then old(slots) - {id} else old(slots)
    {
      if !(id in slots && slots[id] == Live) {
        return Err(Conflict);
      }
      if id !in stored {
        return Err(NotFound);
      }
      if !env.commits {
        return Err(Internal);
      }
      ghost var before := slots;
      stored := stored[id := stored[id].(phase := Offline)];
      audit := audit + [Entry(actor, WentOffline, id)];
      slots := slots[id := Disconnecting];
      if !env.disconnects {
        slots := slots[id := Live];
        assert slots == before;
        return Err(Unavailable);
      }
      slots := slots - {id};
      assert slots == before - {id};
      return Ok(());
    }

    method DeleteAccount(actor: string, id: string, env: Env) returns (r: Result<(), Failure>)
      modifies this
      ensures View() == DeleteRun(old(View()), actor, id, env)
      ensures var no := DeleteRefusal(old(View()), id, env);
              r == if no.Some? then Err(no.value) else Ok(())
      ensures r == Err(Conflict) <==> id in old(slots)
      ensures r == Err(NotFound) <==> id !in old(slots) && id !in old(stored)
      ensures r.Ok? <==> id !in old(slots) && id in old(stored) && env.commits
      ensures slots == old(slots)
      ensures if r.Ok? then stored == old(stored) - {id} && audit == old(audit) + [Entry(actor, Deletion, id)]
              else stored == old(stored) && audit == old(audit)
    {
      if id in slots {
        return Err(Conflict);
      }
      if id !in stored {
        return Err(NotFound);
      }
      if !env.commits {
        return Err(Internal);
      }
      stored := stored - {id};
      audit := audit + [Entry(actor, Deletion, id)];
      return Ok(());
    }

    /** The sweep: one listed row after the other, in one transaction. */
    method ReconcileStaleOnline(listed: seq<string>, commits: bool)
      requires IsListing(stored, listed)
      modifies this
      ensures View() == if commits then Reconciled(old(View()), listed) else old(View())
      ensures slots == old(slots)
      ensures commits ==> Swept(old(stored), stored) && Logged(old(stored), old(audit), audit)
      ensures !commits ==> stored == old(stored) && audit == old(audit)
    {
      var saved, log := stored, audit;
      var i := 0;
      assert stored == SweptIn(saved, listed[..0]);
      while i < |listed|
        invariant 0 <= i <= |listed|
        invariant slots == old(slots) && up == old(up)
        invariant stored == SweptIn(saved, listed[..i])
        invariant audit == log + SweepRows(saved, listed[..i])
      {
        var id := listed[i];
        SweepGrows(saved, log, listed, i);
        if saved[id].phase == Online {
          stored := stored[id := saved[id].(phase := Offline)];
          audit := audit + [Entry("system", Reconcile, id)];
        }
        i := i + 1;
      }
      assert listed[..i] == listed;
      AllListed(saved, listed);
      SweepLogs(saved, log, listed);
      if !commits {
        stored, audit := saved, log;
      }
    }

    method Boot(listed: seq<string>, commits: bool)
      requires IsListing(stored, listed)
      modifies this
      ensures View() == Booted(old(View()), listed, commits)
      ensures slots == map[] && up
      ensures commits ==> Swept(old(stored), stored) && Logged(old(stored), old(audit), audit)
      ensures !commits ==> stored == old(stored) && audit == old(audit)
    {
      slots := map[];
      up := true;
      ReconcileStaleOnline(listed, commits);
    }
  }

  /** Every online row is offline, and nothing else of any row has changed. */
  ghost predicate Swept(stored: map<string, Row>, stored1: map<string, Row>) {
    && stored1.Keys == stored.Keys
    && forall id | id in stored ::
         stored1[id] == stored[id].(phase := if stored[id].phase == Online then Offline else stored[id].phase)
  }

  ghost predicate LogsFor(e: Entry, id: string) {
    e == Entry("system", Reconcile, id)
  }

  /** The log has one new row for every online account and no other. */
  ghost predicate Logged(stored: map<string, Row>, log: seq<Entry>, log1: seq<Entry>) {
    && |log| <= |log1| && log1[..|log|] == log
    && (forall k | |log| <= k < |log1| ::
          LogsFor(log1[k], log1[k].target) && log1[k].target in stored && stored[log1[k].target].phase == Online)
    && (forall id | id in stored && stored[id].phase == Online ::
          exists k :: |log| <= k < |log1| && LogsFor(log1[k], id))
    && (forall j, k | |log| <= j < k < |log1| :: log1[j].target != log1[k].target)
  }

  lemma {:induction false} SweepLogs(stored: map<string, Row>, log: seq<Entry>, listed: seq<string>)
    requires IsListing(stored, listed)
    ensures Logged(stored, log, log + SweepRows(stored, listed))
  {
    var log1 := log + SweepRows(stored, listed);
    forall k | |log| <= k < |log1|
      ensures LogsFor(log1[k], log1[k].target) && log1[k].target in stored && stored[log1[k].target].phase == Online
    {
      RowAt(stored, listed, k - |log|);
    }
    forall id | id in stored && stored[id].phase == Online
      ensures exists k :: |log| <= k < |log1| && LogsFor(log1[k], id)
    {
      var k := RowFor(stored, listed, id);
      assert LogsFor(log1[|log| + k], id);
    }
    forall j, k | |log| <= j < k < |log1| ensures log1[j].target != log1[k].target {
      RowsDiffer(stored, listed, j - |log|, k - |log|);
    }
  }

  lemma {:induction false} RowAt(stored: map<string, Row>, listed: seq<string>, k: nat)
    requires k < |SweepRows(stored, listed)|
    ensures var e := SweepRows(stored, listed)[k];
            LogsFor(e, e.target) && e.target in listed && e.target in stored && stored[e.target].phase == Online
  {
    var rest := listed[..|listed| - 1];
    if k < |SweepRows(stored, rest)| {
      RowAt(stored, rest, k);
    }
  }

  lemma {:induction false} RowFor(stored: map<string, Row>, listed: seq<string>, id: string) returns (k: nat)
    requires id in listed && id in stored && stored[id].phase == Online
    ensures k < |SweepRows(stored, listed)| && LogsFor(SweepRows(stored, listed)[k], id)
  {
    var rest := listed[..|listed| - 1];
    if id in rest {
      k := RowFor(stored, rest, id);
    } else {
      k := |SweepRows(stored, rest)|;
    }
  }

  lemma {:induction false} RowsDiffer(stored: map<string, Row>, listed: seq<string>, j: nat, k: nat)
    requires forall m, n | 0 <= m < n < |listed| :: listed[m] != listed[n]
    requires j < k < |SweepRows(stored, listed)|
    ensures SweepRows(stored, listed)[j].target != SweepRows(stored, listed)[k].target
  {
    var rest := listed[..|listed| - 1];
    if k < |SweepRows(stored, rest)| {
      RowsDiffer(stored, rest, j, k);
    } else {
      RowAt(stored, rest, j);
    }
  }

  /** Whatever an entry that was not there goes through, the others stay. */
  lemma EntryAlone(slots: map<string, Slot>, id: string, x: Slot, y: Slot)
    requires id !in slots
    ensures slots[id := x] - {id} == slots && slots[id := x][id := y] == slots[id := y]
  {
  }

  /** The rows once the sweep has seen some of the accounts. */
  function SweptIn(stored: map<string, Row>, seen: seq<string>): map<string, Row> {
    map id | id in stored :: if id in seen then SweptRow(stored[id]) else stored[id]
  }

  lemma SweepGrows(stored: map<string, Row>, log: seq<Entry>, listed: seq<string>, i: nat)
    requires IsListing(stored, listed) && i < |listed|
    ensures listed[i] in stored
    ensures var (id, seen) := (listed[i], SweptIn(stored, listed[..i]));
            SweptIn(stored, listed[..i + 1]) == if stored[id].phase == Online
              then seen[id := stored[id].(phase := Offline)] else seen
    ensures var (id, rows) := (listed[i], log + SweepRows(stored, listed[..i]));
            log + SweepRows(stored, listed[..i + 1])
              == if stored[id].phase == Online then rows + [Entry("system", Reconcile, id)] else rows
  {
    assert listed[i] in listed;
    SweptOneMore(stored, listed[..i], listed[i]);
    assert listed[..i + 1] == listed[..i] + [listed[i]];
    RowsOneMore(stored, listed[..i], listed[i]);
  }

  lemma SweptOneMore(stored: map<string, Row>, seen: seq<string>, id: string)
    requires id in stored
    ensures SweptIn(stored, seen + [id])
         == if stored[id].phase == Online then SweptIn(stored, seen)[id := stored[id].(phase := Offline)]
            else SweptIn(stored, seen)
  {
    assert forall x :: x in seen + [id] <==> x in seen || x == id;
  }

  lemma RowsOneMore(stored: map<string, Row>, seen: seq<string>, id: string)
    requires id in stored
    ensures SweepRows(stored, seen + [id])
         == SweepRows(stored, seen) + if stored[id].phase == Online then [Entry("system", Reconcile, id)] else []
  {
    assert (seen + [id])[..|seen|] == seen;
  }

  lemma AllListed(stored: map<string, Row>, listed: seq<string>)
    requires IsListing(stored, listed)
    ensures SweptIn(stored, listed) == map id | id in stored :: SweptRow(stored[id])
  {
  }

  function SweptRow(row: Row): Row {
    if row.phase == Online then row.(phase := Offline) else row
  }

  // ---------------------------------------------------------------- interleaved handlers

  /** A handler between two of its steps, with what it is about to do. */
  datatype Call =
    | Onlining(id: string)
    | Connected(id: string)
    | RollingBack(id: string)
    | OfflineChecked(id: string)
    | OfflineCommitted(id: string)
    | Waiting(id: string)
    | Deleting(id: string)

  /** Calls by handle; several may concern one account. */
  datatype World = World(s: State, calls: map<nat, Call>)

  /**
   One atomic step of the call `h`: a critical section of the connector or a transaction.
   Refusals change nothing and are no step.  The account read that precedes a connect may
   be arbitrarily old by the time the entry is reserved.
   */
  datatype Step =
    | OnlineReserves(h: nat, id: string)
    | OnlineConnects(h: nat, ok: bool)
    | OnlineCommits(h: nat, actor: string, uid: string)
    | OnlineFails(h: nat)
    | OfflineChecks(h: nat, id: string)
    | OfflineCommits(h: nat, actor: string)
    | OfflineFails(h: nat)
    | Disconnects(h: nat)
    | ShutdownDisconnects(h: nat, id: string)
    | DisconnectReturns(h: nat, ok: bool)
    | DeleteChecks(h: nat, id: string)
    | DeleteCommits(h: nat, actor: string)
    | DeleteFails(h: nat)
    | AddAccount(id: string, row: Row)
    | EditAccount(id: string, hasToken: bool, botUserId: string)
    | ShutdownSweep(listed: seq<string>, commits: bool)
    | Crash
    | Boot(listed: seq<string>, commits: bool)

  predicate Enabled(w: World, step: Step) {
    && (step.Boot? <==> !w.s.up)
    && match step
       case OnlineReserves(h, id) => h !in w.calls && id !in w.s.slots
       case OnlineConnects(h, ok) => h in w.calls && w.calls[h].Onlining?
       case OnlineCommits(h, actor, uid) => h in w.calls && w.calls[h].Connected? && w.calls[h].id in w.s.stored
       case OnlineFails(h) => h in w.calls && w.calls[h].Connected?
       case OfflineChecks(h, id) => h !in w.calls && IsLive(w.s, id)
       case OfflineCommits(h, actor) => h in w.calls && w.calls[h].OfflineChecked? && w.calls[h].id in w.s.stored
       case OfflineFails(h) => h in w.calls && w.calls[h].OfflineChecked?
       case Disconnects(h) => h in w.calls && (w.calls[h].RollingBack? || w.calls[h].OfflineCommitted?)
       case ShutdownDisconnects(h, id) => h !in w.calls && IsLive(w.s, id)
       case DisconnectReturns(h, ok) => h in w.calls && w.calls[h].Waiting?
       case DeleteChecks(h, id) => h !in w.calls && id !in w.s.slots
       case DeleteCommits(h, actor) => h in w.calls && w.calls[h].Deleting? && w.calls[h].id in w.s.stored
       case DeleteFails(h) => h in w.calls && w.calls[h].Deleting?
       case AddAccount(id, row) => id !in w.s.stored && row.phase == Created
       case EditAccount(id, hasToken, botUserId) => id in w.s.stored
       case ShutdownSweep(listed, commits) => IsListing(w.s.stored, listed)
       case Crash => true
       case Boot(listed, commits) => IsListing(w.s.stored, listed)
  }

  function Acted(w: World, act: SlotAct): World {
    w.(s := w.s.(slots := Slotted(w.s.slots, act)))
  }

  function Ended(w: World, h: nat): World {
    w.(calls := w.calls - {h})
  }

  function Becomes(w: World, h: nat, c: Call): World {
    w.(calls := w.calls[h := c])
  }

  function Next(w: World, step: Step): World
    requires Enabled(w, step)
  {
    match step
    case OnlineReserves(h, id) => Becomes(Acted(w, Reserve(id)), h, Onlining(id))
    case OnlineConnects(h, ok) =>
      var id := w.calls[h].id;
      var w1 := Acted(w, Connect(id, ok));
      if ok && id in w.s.slots then Becomes(w1, h, Connected(id)) else Ended(w1, h)
    case OnlineCommits(h, actor, uid) => Ended(w.(s := WithOnline(w.s, actor, w.calls[h].id, uid)), h)
    case OnlineFails(h) => Becomes(w, h, RollingBack(w.calls[h].id))
    case OfflineChecks(h, id) => Becomes(w, h, OfflineChecked(id))
    case OfflineCommits(h, actor) =>
      Becomes(w.(s := WithOffline(w.s, actor, w.calls[h].id)), h, OfflineCommitted(w.calls[h].id))
    case OfflineFails(h) => Ended(w, h)
    case Disconnects(h) =>
      var id := w.calls[h].id;
      if IsLive(w.s, id) then Becomes(Acted(w, Mark(id)), h, Waiting(id)) else Ended(w, h)
    case ShutdownDisconnects(h, id) => Becomes(Acted(w, Mark(id)), h, Waiting(id))
    case DisconnectReturns(h, ok) => Ended(Acted(w, Disconnect(w.calls[h].id, ok)), h)
    case DeleteChecks(h, id) => Becomes(w, h, Deleting(id))
    case DeleteCommits(h, actor) => Ended(w.(s := Removed(w.s, actor, w.calls[h].id)), h)
    case DeleteFails(h) => Ended(w, h)
    case AddAccount(id, row) => w.(s := w.s.(stored := w.s.stored[id := row]))
    case EditAccount(id, hasToken, botUserId) =>
      w.(s := w.s.(stored := w.s.stored[id := w.s.stored[id].(hasToken := hasToken, botUserId := botUserId)]))
    case ShutdownSweep(listed, commits) => w.(s := if commits then Reconciled(w.s, listed) else w.s)
    case Crash => World(Crashed(w.s), map[])
    case Boot(listed, commits) => World(Booted(w.s, listed, commits), map[])
  }

  ghost predicate Takes(w: World, step: Step, w1: World) {
    Enabled(w, step) && w1 == Next(w, step)
  }

  ghost predicate StepAt(ws: seq<World>, steps: seq<Step>, i: int)
    requires |ws| == |steps| + 1 && 0 <= i < |steps|
  {
    Takes(ws[i], steps[i], ws[i + 1])
  }

  /** The worlds of a run, one more than it has steps. */
  ghost predicate Run(ws: seq<World>, steps: seq<Step>) {
    |ws| == |steps| + 1 && forall i | 0 <= i < |steps| :: StepAt(ws, steps, i)
  }

  // ---------------------------------------------------------------- an entry in transition has one owner

  predicate Moves(w: World, h: nat, id: string) {
    h in w.calls && (w.calls[h] == Onlining(id) || w.calls[h] == Waiting(id))
  }

  /** A connecting or disconnecting entry is held by the one call that will settle it. */
  ghost predicate Owned(w: World) {
    && (forall h, id | Moves(w, h, id) :: Holds(w, h, id))
    && (forall h, h', id | Moves(w, h, id) && Moves(w, h', id) :: h == h')
  }

  /** What a step does to the connector's table. */
  function ActOf(w: World, step: Step): Option<SlotAct>
    requires Enabled(w, step)
  {
    match step
    case OnlineReserves(h, id) => Some(Reserve(id))
    case OnlineConnects(h, ok) => Some(Connect(w.calls[h].id, ok))
    case Disconnects(h) => if IsLive(w.s, w.calls[h].id) then Some(Mark(w.calls[h].id)) else None
    case ShutdownDisconnects(h, id) => Some(Mark(id))
    case DisconnectReturns(h, ok) => Some(Disconnect(w.calls[h].id, ok))
    case _ => None
  }

  predicate Holds(w: World, h: nat, id: string)
    requires h in w.calls
  {
    id in w.s.slots && w.s.slots[id] == if w.calls[h].Onlining? then Connecting else Disconnecting
  }

  lemma OwnerKeeps(w: World, step: Step, h: nat, id: string)
    requires Owned(w) && Enabled(w, step) && Moves(w, h, id) && Moves(Next(w, step), h, id)
    ensures Holds(Next(w, step), h, id)
  {
    if (step.OnlineConnects? || step.DisconnectReturns?) && w.calls[step.h].id == id {
      assert Moves(w, step.h, id);
    }
  }

  lemma OwnerBegins(w: World, step: Step, h: nat, id: string)
    requires Owned(w) && Enabled(w, step) && !Moves(w, h, id) && Moves(Next(w, step), h, id)
    ensures Holds(Next(w, step), h, id)
    ensures forall h' | Moves(Next(w, step), h', id) :: h' == h
  {
    assert (step.OnlineReserves? || step.Disconnects? || step.ShutdownDisconnects?) && step.h == h;
    assert forall h' :: !Moves(w, h', id);
    forall h' | Moves(Next(w, step), h', id) ensures h' == h {
      assert h' != h ==> Moves(w, h', id);
    }
  }

  lemma StepKeepsOwned(w: World, step: Step)
    requires Owned(w) && Enabled(w, step)
    ensures Owned(Next(w, step))
  {
    var w1 := Next(w, step);
    forall h, id | Moves(w1, h, id) ensures Holds(w1, h, id) {
      if Moves(w, h, id) {
        OwnerKeeps(w, step, h, id);
      } else {
        OwnerBegins(w, step, h, id);
      }
    }
    forall h, h', id | Moves(w1, h, id) && Moves(w1, h', id) ensures h == h' {
      if !Moves(w, h, id) {
        OwnerBegins(w, step, h, id);
      } else if !Moves(w, h', id) {
        OwnerBegins(w, step, h', id);
      }
    }
  }

  lemma OwnersAdmit(w: World, step: Step)
    requires Owned(w) && Enabled(w, step)
    ensures var act := ActOf(w, step);
            act.Some? ==> Admits(w.s.slots, act.value) && Next(w, step).s.slots == Slotted(w.s.slots, act.value)
    ensures ActOf(w, step).None? ==> Next(w, step).s.slots == if step.Crash? || step.Boot? then map[] else w.s.slots
  {
    if step.OnlineConnects? || step.DisconnectReturns? {
      assert Moves(w, step.h, w.calls[step.h].id);
    }
  }

  /** On every run each section finds its entry in the phase it expects, so none meets a missing entry. */
  lemma {:induction false} SlotsAreOwned(ws: seq<World>, steps: seq<Step>, i: nat)
    requires Run(ws, steps) && i <= |steps| && ws[0].calls == map[]
    ensures Owned(ws[i])
    ensures i < |steps| ==> Enabled(ws[i], steps[i])
    ensures i < |steps| && ActOf(ws[i], steps[i]).Some? ==> Admits(ws[i].s.slots, ActOf(ws[i], steps[i]).value)
  {
    if i > 0 {
      SlotsAreOwned(ws, steps, i - 1);
      assert StepAt(ws, steps, i - 1);
      StepKeepsOwned(ws[i - 1], steps[i - 1]);
    }
    if i < |steps| {
      assert StepAt(ws, steps, i);
      OwnersAdmit(ws[i], steps[i]);
    }
  }

  // ---------------------------------------------------------------- the agreement and what breaks it

  /** While a daemon is up, an account stored as online has an entry in the connector. */
  ghost predicate Agrees(w: World) {
    w.s.up ==> forall id | IsOnline(w.s, id) :: id in w.s.slots
  }

  /**
   The steps that break the agreement: an online whose entry is gone by the time it
   commits; a failed connect or a finished disconnect of an account that is stored as
   online; a boot whose sweep fails with a row to sweep.
   */
  ghost predicate Breaks(w: World, step: Step)
    requires Enabled(w, step)
  {
    match step
    case OnlineCommits(h, actor, uid) => w.calls[h].id !in w.s.slots
    case OnlineConnects(h, ok) => !ok && IsOnline(w.s, w.calls[h].id)
    case DisconnectReturns(h, ok) => ok && IsOnline(w.s, w.calls[h].id)
    case Boot(listed, commits) => !commits && exists id :: IsOnline(w.s, id)
    case _ => false
  }

  lemma BreakIsSeen(w: World, step: Step)
    requires Enabled(w, step) && Breaks(w, step)
    ensures !Agrees(Next(w, step))
  {
    var w1 := Next(w, step);
    if step.Boot? {
      var id :| IsOnline(w.s, id);
      assert IsOnline(w1.s, id);
    } else {
      assert IsOnline(w1.s, w.calls[step.h].id);
    }
  }

  lemma OthersAgree(w: World, step: Step)
    requires Enabled(w, step) && Agrees(w) && !Breaks(w, step)
    ensures Agrees(Next(w, step))
  {
    var w1 := Next(w, step);
    if w1.s.up {
      forall id | IsOnline(w1.s, id) ensures id in w1.s.slots {
        assert IsOnline(w.s, id) || (step.OnlineCommits? && id == w.calls[step.h].id);
      }
    }
  }

  /** A step keeps the agreement exactly if it is not one of those. */
  lemma StepAgreesIff(w: World, step: Step)
    requires Enabled(w, step) && Agrees(w)
    ensures Agrees(Next(w, step)) <==> !Breaks(w, step)
  {
    if Breaks(w, step) {
      BreakIsSeen(w, step);
    } else {
      OthersAgree(w, step);
    }
  }

  ghost predicate AlwaysAgrees(ws: seq<World>) {
    forall i | 0 <= i < |ws| :: Agrees(ws[i])
  }

  ghost predicate BreaksAt(ws: seq<World>, steps: seq<Step>, i: int) {
    0 <= i < |steps| && i < |ws| && Enabled(ws[i], steps[i]) && Breaks(ws[i], steps[i])
  }

  lemma {:induction false} AgreesUpTo(ws: seq<World>, steps: seq<Step>, i: nat)
    requires Run(ws, steps) && i <= |steps| && Agrees(ws[0])
    requires forall k | 0 <= k < i :: !BreaksAt(ws, steps, k)
    ensures Agrees(ws[i])
  {
    if i > 0 {
      AgreesUpTo(ws, steps, i - 1);
      assert StepAt(ws, steps, i - 1);
      assert !BreaksAt(ws, steps, i - 1);
      StepAgreesIff(ws[i - 1], steps[i - 1]);
    }
  }

  /** A run keeps the agreement throughout exactly if none of its steps breaks it. */
  lemma AgreesThroughoutIff(ws: seq<World>, steps: seq<Step>)
    requires Run(ws, steps) && Agrees(ws[0])
    ensures AlwaysAgrees(ws) <==> forall i | 0 <= i < |steps| :: !BreaksAt(ws, steps, i)
  {
    if forall i | 0 <= i < |steps| :: !BreaksAt(ws, steps, i) {
      forall i | 0 <= i < |ws| ensures Agrees(ws[i]) {
        AgreesUpTo(ws, steps, i);
      }
    }
    if i :| 0 <= i < |steps| && BreaksAt(ws, steps, i) {
      assert StepAt(ws, steps, i);
      BreakIsSeen(ws[i], steps[i]);
    }
  }

  // ---------------------------------------------------------------- which deletion hits an online account

  predicate Onlines(w: World, step: Step, id: string) {
    step.OnlineCommits? && step.h in w.calls && w.calls[step.h].id == id
  }

  /** The stored row stops being online, or stops being. */
  predicate Leaves(w: World, step: Step, id: string) {
    || ((step.OfflineCommits? || step.DeleteCommits?) && step.h in w.calls && w.calls[step.h].id == id)
    || ((step.ShutdownSweep? || step.Boot?) && step.commits)
  }

  lemma OnlineChanges(w: World, step: Step, id: string)
    requires Enabled(w, step)
    ensures IsOnline(Next(w, step).s, id) <==> Onlines(w, step, id) || (IsOnline(w.s, id) && !Leaves(w, step, id))
  {
  }

  /** Between states i and j the account went online and has not left since. */
  ghost predicate OnlineSince(ws: seq<World>, steps: seq<Step>, i: nat, j: nat, id: string)
    requires |ws| > |steps| >= j
  {
    exists k :: WentAndStayed(ws, steps, i, k, j, id)
  }

  predicate WentAndStayed(ws: seq<World>, steps: seq<Step>, i: nat, k: int, j: nat, id: string)
    requires |ws| > |steps| >= j
  {
    i <= k < j && Onlines(ws[k], steps[k], id) && forall m | k < m < j :: !Leaves(ws[m], steps[m], id)
  }

  lemma SinceGrows(ws: seq<World>, steps: seq<Step>, i: nat, j: nat, id: string)
    requires |ws| > |steps| > j && i <= j
    ensures OnlineSince(ws, steps, i, j + 1, id) <==>
              Onlines(ws[j], steps[j], id) || (OnlineSince(ws, steps, i, j, id) && !Leaves(ws[j], steps[j], id))
  {
    if Onlines(ws[j], steps[j], id) {
      assert WentAndStayed(ws, steps, i, j, j + 1, id);
    }
    if OnlineSince(ws, steps, i, j, id) && !Leaves(ws[j], steps[j], id) {
      var k :| WentAndStayed(ws, steps, i, k, j, id);
      assert WentAndStayed(ws, steps, i, k, j + 1, id);
    }
    if OnlineSince(ws, steps, i, j + 1, id) && !Onlines(ws[j], steps[j], id) {
      var k :| WentAndStayed(ws, steps, i, k, j + 1, id);
      assert WentAndStayed(ws, steps, i, k, j, id);
    }
  }

  /** An account not online at i is online at j exactly if it went online in between and has not left since. */
  lemma {:induction false} OnlineIff(ws: seq<World>, steps: seq<Step>, i: nat, j: nat, id: string)
    requires Run(ws, steps) && i <= j <= |steps| && !IsOnline(ws[i].s, id)
    ensures IsOnline(ws[j].s, id) <==> OnlineSince(ws, steps, i, j, id)
  {
    if i < j {
      OnlineIff(ws, steps, i, j - 1, id);
      assert StepAt(ws, steps, j - 1);
      OnlineChanges(ws[j - 1], steps[j - 1], id);
      SinceGrows(ws, steps, i, j - 1, id);
    }
  }

  /** A delete call in progress stays the call it is. */
  lemma {:induction false} DeleteStays(ws: seq<World>, steps: seq<Step>, i: nat, j: nat, h: nat, id: string)
    requires Run(ws, steps) && i <= j <= |steps|
    requires forall k | i <= k <= j :: h in ws[k].calls
    requires ws[i].calls[h] == Deleting(id)
    ensures ws[j].calls[h] == Deleting(id)
  {
    if i < j {
      DeleteStays(ws, steps, i, j - 1, h, id);
      assert StepAt(ws, steps, j - 1);
      assert h in ws[j].calls;
    }
  }

  /**
   The check for a live entry and the deletion are two steps.  A deletion whose check
   found the agreement removes an account stored as online exactly if the account went
   online after the check and has not left since.
   */
  lemma DeletionHitsOnlineIff(ws: seq<World>, steps: seq<Step>, i: nat, j: nat, h: nat, id: string, actor: string)
    requires Run(ws, steps) && i < j < |steps| && Agrees(ws[i])
    requires steps[i] == DeleteChecks(h, id) && steps[j] == DeleteCommits(h, actor)
    requires forall k | i < k <= j :: h in ws[k].calls
    ensures id in ws[j].s.stored && id !in ws[j + 1].s.stored
    ensures IsOnline(ws[j].s, id) <==> OnlineSince(ws, steps, i + 1, j, id)
  {
    assert StepAt(ws, steps, i);
    assert StepAt(ws, steps, j);
    DeleteStays(ws, steps, i + 1, j, h, id);
    OnlineIff(ws, steps, i + 1, j, id);
  }

  // ---------------------------------------------------------------- handlers that do not overlap

  predicate Idle(w: World, id: string) {
    forall h | h in w.calls :: w.calls[h].id != id
  }

  /**
   A call on an account begins only when there is no other; boots commit their sweep;
   shutdown disconnects only accounts already stored as not online.
   */
  predicate Orderly(w: World, step: Step) {
    match step
    case OnlineReserves(h, id) => Idle(w, id)
    case OfflineChecks(h, id) => Idle(w, id)
    case DeleteChecks(h, id) => Idle(w, id)
    case ShutdownDisconnects(h, id) => Idle(w, id) && !IsOnline(w.s, id)
    case Boot(listed, commits) => commits
    case _ => true
  }

  /** What each handler relies on from step to step. */
  ghost predicate Relies(w: World, h: nat)
    requires h in w.calls
  {
    var c := w.calls[h];
    && (c.Connected? ==> c.id in w.s.slots)
    && (!c.OfflineChecked? ==> !IsOnline(w.s, c.id))
  }

  ghost predicate Inv(w: World) {
    w.s.up ==>
      && Agrees(w)
      && (forall h | h in w.calls :: Relies(w, h))
      && (forall h, h' | h in w.calls && h' in w.calls && w.calls[h].id == w.calls[h'].id :: h == h')
  }

  lemma OrderlyStepIsSound(w: World, step: Step)
    requires Inv(w) && Enabled(w, step) && Orderly(w, step)
    ensures !Breaks(w, step) && Inv(Next(w, step))
  {
    var w1 := Next(w, step);
    if step.OnlineCommits? || step.OnlineConnects? || step.DisconnectReturns? {
      assert Relies(w, step.h);
    }
    StepAgreesIff(w, step);
    if w1.s.up {
      forall h | h in w1.calls ensures Relies(w1, h) {
        OrderlyCall(w, step, h);
      }
    }
  }

  lemma OrderlyCall(w: World, step: Step, h: nat)
    requires Inv(w) && Enabled(w, step) && Orderly(w, step)
    requires Next(w, step).s.up && h in Next(w, step).calls
    ensures Relies(Next(w, step), h)
  {
    var w1 := Next(w, step);
    if h in w.calls && w.s.up {
      assert Relies(w, h);
      OnlineChanges(w, step, w.calls[h].id);
    }
    OnlineChanges(w, step, w1.calls[h].id);
  }

  ghost predicate OrderlyRun(ws: seq<World>, steps: seq<Step>) {
    Run(ws, steps) && !ws[0].s.up && forall i | 0 <= i < |steps| :: Orderly(ws[i], steps[i])
  }

  lemma {:induction false} OrderlyRunIsSound(ws: seq<World>, steps: seq<Step>, i: nat)
    requires OrderlyRun(ws, steps) && i <= |steps|
    ensures Inv(ws[i])
  {
    if i > 0 {
      OrderlyRunIsSound(ws, steps, i - 1);
      assert StepAt(ws, steps, i - 1);
      OrderlyStepIsSound(ws[i - 1], steps[i - 1]);
    }
  }

  /**
   So on every orderly run, through failed transactions, connects and disconnects,
   crashes and restarts: an account stored as online has its entry in the connector.
   */
  lemma OnlineMeansRegistered(ws: seq<World>, steps: seq<Step>, i: nat, id: string)
    requires OrderlyRun(ws, steps) && i <= |steps|
    requires ws[i].s.up && IsOnline(ws[i].s, id)
    ensures id in ws[i].s.slots
  {
    OrderlyRunIsSound(ws, steps, i);
  }

  /** And no account stored as online is deleted, even with the check and the deletion apart. */
  lemma NoOnlineAccountIsDeleted(ws: seq<World>, steps: seq<Step>, i: nat, id: string)
    requires OrderlyRun(ws, steps) && i < |steps|
    requires steps[i].DeleteCommits? && IsOnline(ws[i].s, id)
    ensures id in ws[i + 1].s.stored
  {
    OrderlyRunIsSound(ws, steps, i);
    assert StepAt(ws, steps, i);
    assert Relies(ws[i], steps[i].h);
  }

  // ---------------------------------------------------------------- whole handlers are runs of their steps

  ghost predicate Reaches(w: World, steps: seq<Step>, w1: World) {
    exists ws :: Run(ws, steps) && ws[0] == w && ws[|steps|] == w1
  }

  lemma ReachesItself(w: World)
    ensures Reaches(w, [], w)
  {
    assert Run([w], []);
  }

  lemma ReachesNext(w: World, steps: seq<Step>, w1: World, step: Step)
    requires Reaches(w, steps, w1) && Enabled(w1, step)
    ensures Reaches(w, steps + [step], Next(w1, step))
  {
    var ws :| Run(ws, steps) && ws[0] == w && ws[|steps|] == w1;
    var (ws1, steps1) := (ws + [Next(w1, step)], steps + [step]);
    forall i | 0 <= i < |steps1| ensures StepAt(ws1, steps1, i) {
      assert i < |steps| ==> StepAt(ws, steps, i);
    }
    assert Run(ws1, steps1);
  }

  function OnlineSteps(h: nat, actor: string, id: string, env: Env): seq<Step> {
    if !env.connects then [OnlineReserves(h, id), OnlineConnects(h, false)]
    else if env.commits then [OnlineReserves(h, id), OnlineConnects(h, true), OnlineCommits(h, actor, env.uid)]
    else [OnlineReserves(h, id), OnlineConnects(h, true), OnlineFails(h), Disconnects(h),
          DisconnectReturns(h, env.disconnects)]
  }

  function OfflineSteps(h: nat, actor: string, id: string, env: Env): seq<Step> {
    if env.commits
      then [OfflineChecks(h, id), OfflineCommits(h, actor), Disconnects(h), DisconnectReturns(h, env.disconnects)]
    else [OfflineChecks(h, id), OfflineFails(h)]
  }

  function DeleteSteps(h: nat, actor: string, id: string, env: Env): seq<Step> {
    [DeleteChecks(h, id), if env.commits then DeleteCommits(h, actor) else DeleteFails(h)]
  }

  lemma Connects(w: World, h: nat, id: string)
    requires w.s.up && h !in w.calls && id !in w.s.slots
    ensures Reaches(w, [OnlineReserves(h, id), OnlineConnects(h, true)],
                    World(w.s.(slots := w.s.slots[id := Live]), w.calls[h := Connected(id)]))
  {
    ReachesItself(w);
    ReachesNext(w, [], w, OnlineReserves(h, id));
    var w1 := Next(w, OnlineReserves(h, id));
    ReachesNext(w, [OnlineReserves(h, id)], w1, OnlineConnects(h, true));
    assert w.s.slots[id := Connecting][id := Live] == w.s.slots[id := Live];
    assert w.calls[h := Onlining(id)][h := Connected(id)] == w.calls[h := Connected(id)];
    assert [] + [OnlineReserves(h, id)] == [OnlineReserves(h, id)];
    assert [OnlineReserves(h, id)] + [OnlineConnects(h, true)] == [OnlineReserves(h, id), OnlineConnects(h, true)];
  }

  /** OnlineAccount, once its read of the account and the free entry let it through. */
  lemma OnlineIsARun(w: World, h: nat, actor: string, id: string, env: Env)
    requires w.s.up && h !in w.calls
    requires OnlineRefusal(w.s, id, env).None? || OnlineRefusal(w.s, id, env) == Some(Unavailable)
    ensures Reaches(w, OnlineSteps(h, actor, id, env), World(OnlineRun(w.s, actor, id, env), w.calls))
  {
    var steps := [OnlineReserves(h, id), OnlineConnects(h, true)];
    var w1 := World(w.s.(slots := w.s.slots[id := Live]), w.calls[h := Connected(id)]);
    assert w1.calls - {h} == w.calls && w1.s.slots - {id} == w.s.slots;
    if !env.connects {
      ReachesItself(w);
      ReachesNext(w, [], w, OnlineReserves(h, id));
      assert [] + [OnlineReserves(h, id)] == [OnlineReserves(h, id)];
      ReachesNext(w, [OnlineReserves(h, id)], Next(w, OnlineReserves(h, id)), OnlineConnects(h, false));
      assert w.s.slots[id := Connecting] - {id} == w.s.slots && w.calls[h := Onlining(id)] - {h} == w.calls;
      assert [OnlineReserves(h, id)] + [OnlineConnects(h, false)] == OnlineSteps(h, actor, id, env);
    } else {
      Connects(w, h, id);
      if env.commits {
        ReachesNext(w, steps, w1, OnlineCommits(h, actor, env.uid));
        assert steps + [OnlineCommits(h, actor, env.uid)] == OnlineSteps(h, actor, id, env);
      } else {
        var w2 := Next(w1, OnlineFails(h));
        ReachesNext(w, steps, w1, OnlineFails(h));
        Disconnection(w, steps + [OnlineFails(h)], w2, h, id, env.disconnects);
        assert w2.calls - {h} == w.calls && w2.s.slots - {id} == w.s.slots;
        assert steps + [OnlineFails(h)] + [Disconnects(h), DisconnectReturns(h, env.disconnects)]
               == OnlineSteps(h, actor, id, env);
      }
    }
  }

  /** Connector.Disconnect on a live entry, undisturbed. */
  lemma Disconnection(w: World, steps: seq<Step>, w1: World, h: nat, id: string, ok: bool)
    requires Reaches(w, steps, w1) && w1.s.up && h in w1.calls && IsLive(w1.s, id)
    requires w1.calls[h] == RollingBack(id) || w1.calls[h] == OfflineCommitted(id)
    ensures Reaches(w, steps + [Disconnects(h), DisconnectReturns(h, ok)],
                    World(w1.s.(slots := if ok then w1.s.slots - {id} else w1.s.slots), w1.calls - {h}))
  {
    ReachesNext(w, steps, w1, Disconnects(h));
    var w2 := Next(w1, Disconnects(h));
    ReachesNext(w, steps + [Disconnects(h)], w2, DisconnectReturns(h, ok));
    assert w1.s.slots[id := Disconnecting] - {id} == w1.s.slots - {id};
    assert w1.s.slots[id := Disconnecting][id := Live] == w1.s.slots;
    assert w1.calls[h := Waiting(id)] - {h} == w1.calls - {h};
    assert steps + [Disconnects(h)] + [DisconnectReturns(h, ok)] == steps + [Disconnects(h), DisconnectReturns(h, ok)];
  }

  lemma OfflineIsARun(w: World, h: nat, actor: string, id: string, env: Env)
    requires w.s.up && h !in w.calls && IsLive(w.s, id) && id in w.s.stored
    ensures Reaches(w, OfflineSteps(h, actor, id, env), World(OfflineRun(w.s, actor, id, env), w.calls))
  {
    ReachesItself(w);
    ReachesNext(w, [], w, OfflineChecks(h, id));
    assert [] + [OfflineChecks(h, id)] == [OfflineChecks(h, id)];
    var w1 := Next(w, OfflineChecks(h, id));
    assert w1.calls - {h} == w.calls;
    if env.commits {
      ReachesNext(w, [OfflineChecks(h, id)], w1, OfflineCommits(h, actor));
      var w2 := Next(w1, OfflineCommits(h, actor));
      assert w2.calls - {h} == w.calls;
      Disconnection(w, [OfflineChecks(h, id)] + [OfflineCommits(h, actor)], w2, h, id, env.disconnects);
      assert [OfflineChecks(h, id)] + [OfflineCommits(h, actor)]
             + [Disconnects(h), DisconnectReturns(h, env.disconnects)]
          == OfflineSteps(h, actor, id, env);
    } else {
      ReachesNext(w, [OfflineChecks(h, id)], w1, OfflineFails(h));
      assert [OfflineChecks(h, id)] + [OfflineFails(h)] == OfflineSteps(h, actor, id, env);
    }
  }

  lemma DeleteIsARun(w: World, h: nat, actor: string, id: string, env: Env)
    requires w.s.up && h !in w.calls && id !in w.s.slots && id in w.s.stored
    ensures Reaches(w, DeleteSteps(h, actor, id, env), World(DeleteRun(w.s, actor, id, env), w.calls))
  {
    ReachesItself(w);
    ReachesNext(w, [], w, DeleteChecks(h, id));
    assert [] + [DeleteChecks(h, id)] == [DeleteChecks(h, id)];
    var last := if env.commits then DeleteCommits(h, actor) else DeleteFails(h);
    ReachesNext(w, [DeleteChecks(h, id)], Next(w, DeleteChecks(h, id)), last);
    assert w.calls[h := Deleting(id)] - {h} == w.calls;
    assert [DeleteChecks(h, id)] + [last] == DeleteSteps(h, actor, id, env);
  }

  // ---------------------------------------------------------------- overlaps that break the agreement

  /** A boot restores agreement exactly when its sweep commits or there was nothing to sweep. */
  lemma BootAgreesIff(s: State, listed: seq<string>, commits: bool)
    ensures Agrees(World(Booted(s, listed, commits), map[]))
            <==> commits || forall id | id in s.stored :: s.stored[id].phase != Online
  {
    if !commits && !(forall id | id in s.stored :: s.stored[id].phase != Online) {
      var id :| id in s.stored && s.stored[id].phase == Online;
      assert IsOnline(Booted(s, listed, commits), id);
    }
    if commits {
      forall id ensures !IsOnline(Booted(s, listed, commits), id) {
      }
    }
  }

  /**
   A whole offline between an online's connect and its transaction leaves the account
   stored as online with no entry, and open to deletion.
   */
  lemma OverlapBreaksAgreement(w: World, h: nat, h': nat, id: string, env: Env, actor: string, uid: string)
    requires w.s.up && h !in w.calls && h' !in w.calls && h != h' && id in w.s.stored && id !in w.s.slots
    requires env.commits && env.disconnects
    ensures var steps := [OnlineReserves(h, id), OnlineConnects(h, true)]
                         + OfflineSteps(h', actor, id, env) + [OnlineCommits(h, actor, uid)];
            exists w1 :: Reaches(w, steps, w1) && IsOnline(w1.s, id) && Enabled(w1, DeleteChecks(h, id))
  {
    Connects(w, h, id);
    var begun := [OnlineReserves(h, id), OnlineConnects(h, true)];
    var w1 := World(w.s.(slots := w.s.slots[id := Live]), w.calls[h := Connected(id)]);
    OfflineIsARun(w1, h', actor, id, env);
    var w2 := World(OfflineRun(w1.s, actor, id, env), w1.calls);
    ReachesOn(w, begun, w1, OfflineSteps(h', actor, id, env), w2);
    ReachesNext(w, begun + OfflineSteps(h', actor, id, env), w2, OnlineCommits(h, actor, uid));
    assert Enabled(Next(w2, OnlineCommits(h, actor, uid)), DeleteChecks(h, id));
  }

  lemma ReachesOn(w: World, steps: seq<Step>, w1: World, steps1: seq<Step>, w2: World)
    requires Reaches(w, steps, w1) && Reaches(w1, steps1, w2)
    ensures Reaches(w, steps + steps1, w2)
  {
    var ws :| Run(ws, steps) && ws[0] == w && ws[|steps|] == w1;
    var ws1 :| Run(ws1, steps1) && ws1[0] == w1 && ws1[|steps1|] == w2;
    var all := ws + ws1[1..];
    forall i | 0 <= i < |steps + steps1| ensures StepAt(all, steps + steps1, i) {
      if i < |steps| {
        assert StepAt(ws, steps, i);
      } else {
        assert StepAt(ws1, steps1, i - |steps|);
      }
    }
    assert Run(all, steps + steps1);
  }

  /** A whole online between a delete's check and its transaction: the account goes, its provider stays. */
  lemma DeleteOverlapHitsOnline(w: World, h: nat, h': nat, id: string, env: Env, actor: string)
    requires w.s.up && h !in w.calls && h' !in w.calls && h != h' && OnlineRefusal(w.s, id, env).None? && env.commits
    ensures var steps := [DeleteChecks(h, id)] + OnlineSteps(h', actor, id, env);
            exists w1 :: Reaches(w, steps, w1) && IsOnline(w1.s, id) && Enabled(w1, DeleteCommits(h, actor))
                         && IsLive(Next(w1, DeleteCommits(h, actor)).s, id)
  {
    ReachesItself(w);
    ReachesNext(w, [], w, DeleteChecks(h, id));
    assert [] + [DeleteChecks(h, id)] == [DeleteChecks(h, id)];
    var w1 := Next(w, DeleteChecks(h, id));
    OnlineIsARun(w1, h', actor, id, env);
    var w2 := World(OnlineRun(w1.s, actor, id, env), w1.calls);
    ReachesOn(w, [DeleteChecks(h, id)], w1, OnlineSteps(h', actor, id, env), w2);
    assert IsLive(Next(w2, DeleteCommits(h, actor)).s, id);
  }
}
