/**
 The write transactions of the room and membership handlers (internal/api/v1/rooms.go)
 and of the ingester's channel-deleted event, each with its audit row, and the claim
 that the audit log alone reproduces the rooms and memberships.
 */
module Rooms {
  import opened Wrappers
  import opened Store
  import C = Convergence
  import Merge

  /**
   One write transaction with what its handler captured before it started: for Delete
   the channel, for Invite the prior membership, both read by an earlier transaction
   and possibly stale by now.  `id` of a Create is freshly drawn.
   */
  datatype RoomOp =
    | Create(actor: string, id: nat, channel: string, name: string, now: int)
    | Rename(actor: string, room: nat, name: string)
    | Archive(actor: string, room: nat)
    | Delete(actor: string, room: nat, channel: string)
    | Invite(actor: string, room: nat, account: string, subscribed: bool, joinedAt: int, prior: bool)
    | Kick(actor: string, room: nat, account: string)
    | Subscribe(actor: string, room: nat, subscribed: bool)
    | ChannelDeleted(actor: string, channel: string)

  // ---------------------------------------------------------------- the transactions as functions

  function Audited(t: Tables, a: Audit): Tables {
    t.(audit := t.audit + [a])
  }

  function WithRoom(t: Tables, id: nat, room: Room): Tables {
    t.(rooms := t.rooms[id := room])
  }

  /** The tables after a transaction that commits, or the error it reports. */
  function Tx(t: Tables, op: RoomOp): Result<Tables, DbError> {
    match op
    case Create(actor, id, channel, name, now) =>
      if channel in t.channelIndex then Err(Conflict)
      else if !HasAccount(t, actor) then Err(Internal)
      else
        var t1 := WithRoom(t, id, Room(channel, name, false)).(channelIndex := t.channelIndex[channel := id]);
        Ok(Audited(Joined(t1, (actor, id), false, now), RoomCreate(actor, id, name, channel)))
    case Rename(actor, id, name) =>
      if id !in t.rooms then Err(NotFound)
      else Ok(Audited(WithRoom(t, id, t.rooms[id].(name := name)), RoomRename(actor, id, name)))
    case Archive(actor, id) =>
      if id !in t.rooms then Err(NotFound)
      else Ok(Audited(WithRoom(t, id, t.rooms[id].(archived := true)), RoomArchive(actor, id)))
    case Delete(actor, id, channel) =>
      if id !in t.rooms then Err(NotFound)
      else Ok(Audited(RoomGone(t, id), RoomDelete(actor, id, channel)))
    case Invite(actor, id, account, subscribed, joinedAt, prior) =>
      if !(HasAccount(t, account) && id in t.rooms) then Err(Internal)
      else Ok(Audited(Joined(t, (account, id), subscribed, joinedAt), MemberAdd(actor, id, account, subscribed, prior)))
    case Kick(actor, id, account) =>
      if (account, id) !in t.memberships then Err(NotFound)
      else Ok(Audited(t.(memberships := t.memberships - {(account, id)}), MemberRemove(actor, id, account)))
    case Subscribe(actor, id, subscribed) =>
      if (actor, id) !in t.memberships then Err(NotFound)
      else
        var row := t.memberships[(actor, id)].(subscribed := subscribed);
        Ok(Audited(t.(memberships := t.memberships[(actor, id) := row]),
                   if subscribed then MembershipSubscribe(actor, id) else MembershipUnsubscribe(actor, id)))
    case ChannelDeleted(actor, channel) =>
      if !Archives(t, channel) then Ok(t)
      else
        var id := t.channelIndex[channel];
        Ok(Audited(WithRoom(t, id, t.rooms[id].(archived := true)), RoomArchive(actor, id)))
  }

  /** The event names a room that is not archived yet. */
  predicate Archives(t: Tables, channel: string) {
    channel != "" && channel in t.channelIndex && t.channelIndex[channel] in t.rooms
      && !t.rooms[t.channelIndex[channel]].archived
  }

  /** A transaction leaves its tables when it commits and nothing otherwise; the audit row may be refused. */
  function After(t: Tables, op: RoomOp, accepted: bool): Tables {
    if Tx(t, op).Ok? && (accepted || !Writes(t, op)) then Tx(t, op).value else t
  }

  predicate Writes(t: Tables, op: RoomOp) {
    op.ChannelDeleted? ==> Archives(t, op.channel)
  }

  /** What the caller is told. */
  function Answer(t: Tables, op: RoomOp, accepted: bool): Result<(), DbError> {
    if Tx(t, op).Err? then Err(Tx(t, op).error)
    else if accepted || !Writes(t, op) then Ok(())
    else Err(Internal)
  }

  // ---------------------------------------------------------------- the transactions as code

  method CreateRoomTx(db: Db, actor: string, id: nat, channel: string, name: string, now: int, accepted: bool)
    returns (r: Result<(), DbError>)
    requires id !in db.t.rooms
    modifies db
    ensures r == Answer(old(db.t), Create(actor, id, channel, name, now), accepted)
    ensures db.t == After(old(db.t), Create(actor, id, channel, name, now), accepted)
    ensures r.Ok? ==>
              && db.t.rooms == old(db.t).rooms[id := Room(channel, name, false)]
              && db.t.channelIndex == old(db.t).channelIndex[channel := id]
              && (actor, id) in db.t.memberships && !db.t.memberships[(actor, id)].subscribed
              && (forall k | k != (actor, id) ::
                    k in db.t.memberships <==> k in old(db.t).memberships)
              && db.t.audit == old(db.t).audit + [RoomCreate(actor, id, name, channel)]
    ensures r.Ok? <==> accepted && channel !in old(db.t).channelIndex && HasAccount(old(db.t), actor)
    ensures r == Err(Conflict) <==> channel in old(db.t).channelIndex
  {
    var saved := db.t;
    r := db.CreateRoom(id, Room(channel, name, false));
    if r.Ok? {
      assert forall a :: HasAccount(saved, a) <==> HasAccount(db.t, a);
      r := db.UpsertMembership((actor, id), false, now);
    }
    if r.Ok? {
      r := db.Record(RoomCreate(actor, id, name, channel), accepted);
    }
    if r.Err? {
      db.t := saved;
    }
  }

  /** UpdateRoom and ArchiveRoom: read the row, change it, write it back. */
  method RenameTx(db: Db, actor: string, id: nat, name: string, accepted: bool) returns (r: Result<(), DbError>)
    modifies db
    ensures r == Answer(old(db.t), Rename(actor, id, name), accepted)
    ensures db.t == After(old(db.t), Rename(actor, id, name), accepted)
    ensures r.Ok? <==> id in old(db.t).rooms && accepted
    ensures r == Err(NotFound) <==> id !in old(db.t).rooms
    ensures r.Ok? && id in old(db.t).rooms ==>
              db.t == old(db.t).(rooms := old(db.t).rooms[id := old(db.t).rooms[id].(name := name)],
                                 audit := old(db.t).audit + [RoomRename(actor, id, name)])
  {
    var saved := db.t;
    var g := db.GetRoom(id);
    if g.Err? {
      return Err(g.error);
    }
    r := db.UpdateRoom(id, g.value.(name := name));
    if r.Ok? {
      r := db.Record(RoomRename(actor, id, name), accepted);
    }
    if r.Err? {
      db.t := saved;
    }
  }

  method ArchiveTx(db: Db, actor: string, id: nat, accepted: bool) returns (r: Result<(), DbError>)
    modifies db
    ensures r == Answer(old(db.t), Archive(actor, id), accepted)
    ensures db.t == After(old(db.t), Archive(actor, id), accepted)
    ensures r.Ok? <==> id in old(db.t).rooms && accepted
    ensures r == Err(NotFound) <==> id !in old(db.t).rooms
    ensures r.Ok? && id in old(db.t).rooms ==>
              db.t == old(db.t).(rooms := old(db.t).rooms[id := old(db.t).rooms[id].(archived := true)],
                                 audit := old(db.t).audit + [RoomArchive(actor, id)])
  {
    var saved := db.t;
    var g := db.GetRoom(id);
    if g.Err? {
      return Err(g.error);
    }
    r := db.UpdateRoom(id, g.value.(archived := true));
    if r.Ok? {
      r := db.Record(RoomArchive(actor, id), accepted);
    }
    if r.Err? {
      db.t := saved;
    }
  }

  method DeleteRoomTx(db: Db, actor: string, id: nat, channel: string, accepted: bool) returns (r: Result<(), DbError>)
    modifies db
    ensures r == Answer(old(db.t), Delete(actor, id, channel), accepted)
    ensures db.t == After(old(db.t), Delete(actor, id, channel), accepted)
    ensures r.Ok? ==> id in old(db.t).rooms && RoomDeleted(old(db.t), db.t, id)
                      && db.t.audit == old(db.t).audit + [RoomDelete(actor, id, channel)]
  {
    var saved := db.t;
    r := db.DeleteRoom(id);
    if r.Ok? {
      r := db.Record(RoomDelete(actor, id, channel), accepted);
    }
    if r.Err? {
      db.t := saved;
    }
  }

  method InviteTx(db: Db, actor: string, id: nat, account: string, subscribed: bool, joinedAt: int, prior: bool,
                  accepted: bool)
    returns (r: Result<(), DbError>)
    modifies db
    ensures r == Answer(old(db.t), Invite(actor, id, account, subscribed, joinedAt, prior), accepted)
    ensures db.t == After(old(db.t), Invite(actor, id, account, subscribed, joinedAt, prior), accepted)
    ensures r.Ok? <==> HasAccount(old(db.t), account) && id in old(db.t).rooms && accepted
    ensures r.Ok? ==>
              var first := if (account, id) in old(db.t).memberships then old(db.t).memberships[(account, id)].joinedAt
                           else joinedAt;
              db.t == old(db.t).(
                memberships := old(db.t).memberships[(account, id) := Membership(subscribed, first)],
                audit := old(db.t).audit + [MemberAdd(actor, id, account, subscribed, prior)])
  {
    var saved := db.t;
    r := db.UpsertMembership((account, id), subscribed, joinedAt);
    if r.Ok? {
      r := db.Record(MemberAdd(actor, id, account, subscribed, prior), accepted);
    }
    if r.Err? {
      db.t := saved;
    }
  }

  method KickTx(db: Db, actor: string, id: nat, account: string, accepted: bool) returns (r: Result<(), DbError>)
    modifies db
    ensures r == Answer(old(db.t), Kick(actor, id, account), accepted)
    ensures db.t == After(old(db.t), Kick(actor, id, account), accepted)
    ensures r.Ok? <==> (account, id) in old(db.t).memberships && accepted
    ensures r == Err(NotFound) <==> (account, id) !in old(db.t).memberships
    ensures r.Ok? ==>
              && (forall k :: k in db.t.memberships <==> k in old(db.t).memberships && k != (account, id))
              && (forall k | k in db.t.memberships :: db.t.memberships[k] == old(db.t).memberships[k])
              && db.t == old(db.t).(memberships := db.t.memberships,
                                    audit := old(db.t).audit + [MemberRemove(actor, id, account)])
  {
    var saved := db.t;
    r := db.DeleteMembership((account, id));
    if r.Ok? {
      r := db.Record(MemberRemove(actor, id, account), accepted);
    }
    if r.Err? {
      db.t := saved;
    }
  }

  method UpdateMembershipTx(db: Db, actor: string, id: nat, subscribed: bool, accepted: bool)
    returns (r: Result<(), DbError>)
    modifies db
    ensures r == Answer(old(db.t), Subscribe(actor, id, subscribed), accepted)
    ensures db.t == After(old(db.t), Subscribe(actor, id, subscribed), accepted)
    ensures r.Ok? <==> (actor, id) in old(db.t).memberships && accepted
    ensures r == Err(NotFound) <==> (actor, id) !in old(db.t).memberships
    ensures r.Ok? && (actor, id) in old(db.t).memberships ==>
              var row := Membership(subscribed, old(db.t).memberships[(actor, id)].joinedAt);
              db.t == old(db.t).(
                memberships := old(db.t).memberships[(actor, id) := row],
                audit := old(db.t).audit
                         + [if subscribed then MembershipSubscribe(actor, id) else MembershipUnsubscribe(actor, id)])
  {
    var saved := db.t;
    r := db.SetSubscribed((actor, id), subscribed);
    if r.Ok? {
      r := db.Record(if subscribed then MembershipSubscribe(actor, id) else MembershipUnsubscribe(actor, id), accepted);
    }
    if r.Err? {
      db.t := saved;
    }
  }

  /** ingestChannelDeleted: unknown and already archived rooms are left alone; tells whom to publish. */
  method ChannelDeletedTx(db: Db, actor: string, channel: string, accepted: bool)
    returns (r: Result<set<string>, DbError>)
    requires Indexed(db.t)
    modifies db
    ensures r == if Answer(old(db.t), ChannelDeleted(actor, channel), accepted).Err? then Err(Internal)
                 else if Archives(old(db.t), channel) then Ok(Members(old(db.t), old(db.t).channelIndex[channel]))
                 else Ok({})
    ensures db.t == After(old(db.t), ChannelDeleted(actor, channel), accepted)
    ensures channel == "" || channel !in old(db.t).channelIndex ==> r == Ok({}) && db.t == old(db.t)
    ensures channel != "" && channel in old(db.t).channelIndex ==>
              var id := old(db.t).channelIndex[channel];
              && (old(db.t).rooms[id].archived ==> r == Ok({}) && db.t == old(db.t))
              && (!old(db.t).rooms[id].archived && accepted ==>
                   && db.t == old(db.t).(rooms := old(db.t).rooms[id := old(db.t).rooms[id].(archived := true)],
                                         audit := old(db.t).audit + [RoomArchive(actor, id)])
                   && r.Ok? && forall a :: a in r.value <==> (a, id) in db.t.memberships)
              && (!old(db.t).rooms[id].archived && !accepted ==> r == Err(Internal) && db.t == old(db.t))
  {
    if channel == "" || channel !in db.t.channelIndex {
      return Ok({});
    }
    var saved := db.t;
    var id := db.t.channelIndex[channel];
    var room := db.t.rooms[id];
    if room.archived {
      return Ok({});
    }
    var u := db.UpdateRoom(id, room.(archived := true));
    if u.Ok? {
      u := db.Record(RoomArchive(actor, id), accepted);
    }
    if u.Err? {
      db.t := saved;
      return Err(u.error);
    }
    return Ok(Members(db.t, id));
  }

  // ---------------------------------------------------------------- runs

  /** What happens to accounts: any change of an account's row that keeps its id is an edit. */
  datatype AccountOp =
    | AddAccount(actor: string, account: Account)
    | EditAccount(actor: string, account: Account)
    | DeleteAccount(actor: string, id: string)

  function EditedAccounts(accounts: seq<Account>, account: Account): seq<Account> {
    seq(|accounts|, i requires 0 <= i < |accounts| => if accounts[i].id == account.id then account else accounts[i])
  }

  function AccountTx(t: Tables, op: AccountOp): Result<Tables, DbError> {
    match op
    case AddAccount(actor, account) =>
      Ok(Audited(t.(accounts := t.accounts + [account]), AccountCreate(actor, account.id)))
    case EditAccount(actor, account) =>
      if !HasAccount(t, account.id) then Err(NotFound)
      else Ok(Audited(t.(accounts := EditedAccounts(t.accounts, account)), AccountChange(actor, account.id)))
    case DeleteAccount(actor, id) =>
      if !HasAccount(t, id) then Err(NotFound)
      else Ok(Audited(AccountGone(t, id), AccountDelete(actor, id)))
  }

  function AfterAccount(t: Tables, op: AccountOp, accepted: bool): Tables {
    if accepted && AccountTx(t, op).Ok? then AccountTx(t, op).value else t
  }

  /** DeleteAccount's transaction. */
  method DeleteAccountTx(db: Db, actor: string, id: string, accepted: bool) returns (r: Result<(), DbError>)
    modifies db
    ensures r == if !HasAccount(old(db.t), id) then Err(NotFound) else if accepted then Ok(()) else Err(Internal)
    ensures db.t == AfterAccount(old(db.t), DeleteAccount(actor, id), accepted)
    ensures r.Ok? ==> AccountDeleted(old(db.t).(audit := db.t.audit), db.t, id)
                      && db.t.audit == old(db.t).audit + [AccountDelete(actor, id)]
  {
    var saved := db.t;
    r := db.DeleteAccount(id);
    if r.Ok? {
      r := db.Record(AccountDelete(actor, id), accepted);
    }
    if r.Err? {
      db.t := saved;
    }
  }

  /** A room transaction, or a message or account transaction in between. */
  datatype Step =
    | RoomStep(op: RoomOp, accepted: bool)
    | MessageStep(m: Merge.Op)
    | AccountStep(a: AccountOp, taken: bool)

  ghost predicate Legal(t: Tables, s: Step) {
    match s
    case RoomStep(op, accepted) => op.Create? ==> op.id !in t.rooms
    case MessageStep(m) => !m.DoMembers? && Merge.Legal(t, m)
    case AccountStep(a, taken) => a.AddAccount? ==> a.account.id != "" && !HasAccount(t, a.account.id)
  }

  ghost function Apply(t: Tables, s: Step): Tables
    requires Indexed(t)
  {
    match s
    case RoomStep(op, accepted) => After(t, op, accepted)
    case MessageStep(m) => Merge.Apply(t, m)
    case AccountStep(a, taken) => AfterAccount(t, a, taken)
  }

  /** One step of a run.  The indexes agree with their tables in every state a run reaches (RunReproduces). */
  ghost predicate Takes(t: Tables, s: Step, t1: Tables) {
    Indexed(t) && Legal(t, s) && t1 == Apply(t, s)
  }

  ghost predicate StepAt(ts: seq<Tables>, steps: seq<Step>, i: int)
    requires |ts| == |steps| + 1 && 0 <= i < |steps|
  {
    Takes(ts[i], steps[i], ts[i + 1])
  }

  /** The states of a run, one more than it has steps. */
  ghost predicate Run(ts: seq<Tables>, steps: seq<Step>) {
    |ts| == |steps| + 1 && forall i | 0 <= i < |steps| :: StepAt(ts, steps, i)
  }

  /** Accounts exist, everything else is empty. */
  function Empty(accounts: seq<Account>): Tables {
    Tables(accounts, map[], map[], map[], map[], map[], map[], {}, [], 0, [])
  }

  // ---------------------------------------------------------------- replaying the log

  datatype Directory = Directory(rooms: map<nat, Room>, subscribed: map<(string, nat), bool>)

  function DirectoryOf(t: Tables): Directory {
    Directory(t.rooms, map k | k in t.memberships :: t.memberships[k].subscribed)
  }

  /** What one audit row says happened. */
  function Replayed(d: Directory, a: Audit): Directory {
    match a
    case RoomCreate(actor, id, name, channel) =>
      Directory(d.rooms[id := Room(channel, name, false)], d.subscribed[(actor, id) := false])
    case RoomRename(actor, id, name) =>
      if id in d.rooms then d.(rooms := d.rooms[id := d.rooms[id].(name := name)]) else d
    case RoomArchive(actor, id) =>
      if id in d.rooms then d.(rooms := d.rooms[id := d.rooms[id].(archived := true)]) else d
    case RoomDelete(actor, id, channel) =>
      Directory(d.rooms - {id}, map k | k in d.subscribed && k.1 != id :: d.subscribed[k])
    case MemberAdd(actor, id, account, subscribed, prior) =>
      d.(subscribed := d.subscribed[(account, id) := subscribed])
    case MemberRemove(actor, id, account) =>
      d.(subscribed := d.subscribed - {(account, id)})
    case MembershipSubscribe(actor, id) =>
      d.(subscribed := d.subscribed[(actor, id) := true])
    case MembershipUnsubscribe(actor, id) =>
      d.(subscribed := d.subscribed[(actor, id) := false])
    case MessageSend(actor, message, race) => d
    case MessageRead(actor, message) => d
    case AnnouncementCreate(actor, announcement, id, version) => d
    case AnnouncementRead(actor, announcement, id) => d
    case AccountCreate(actor, account) => d
    case AccountChange(actor, account) => d
    case AccountDelete(actor, account) =>
      d.(subscribed := map k | k in d.subscribed && k.0 != account :: d.subscribed[k])
  }

  function Replay(audit: seq<Audit>): Directory {
    if audit == [] then Directory(map[], map[]) else Replayed(Replay(audit[..|audit| - 1]), audit[|audit| - 1])
  }

  lemma ReplayAppend(audit: seq<Audit>, a: Audit)
    ensures Replay(audit + [a]) == Replayed(Replay(audit), a)
  {
    assert (audit + [a])[..|audit|] == audit;
  }

  lemma AuditedDirectory(t: Tables, a: Audit)
    ensures DirectoryOf(Audited(t, a)) == DirectoryOf(t)
  {
  }

  lemma RoomReplays(t: Tables, id: nat, room: Room)
    ensures DirectoryOf(WithRoom(t, id, room)) == DirectoryOf(t).(rooms := t.rooms[id := room])
  {
  }

  lemma JoinReplays(t: Tables, k: (string, nat), subscribed: bool, joinedAt: int)
    ensures DirectoryOf(Joined(t, k, subscribed, joinedAt))
            == DirectoryOf(t).(subscribed := DirectoryOf(t).subscribed[k := subscribed])
  {
  }

  lemma DeleteReplays(t: Tables, id: nat)
    requires id in t.rooms
    ensures DirectoryOf(RoomGone(t, id))
         == Directory(t.rooms - {id}, map k | k in DirectoryOf(t).subscribed && k.1 != id ::
            DirectoryOf(t).subscribed[k])
  {
  }

  lemma KickReplays(t: Tables, k: (string, nat))
    ensures DirectoryOf(t.(memberships := t.memberships - {k}))
            == DirectoryOf(t).(subscribed := DirectoryOf(t).subscribed - {k})
  {
  }

  lemma SubscribeReplays(t: Tables, k: (string, nat), subscribed: bool)
    requires k in t.memberships
    ensures DirectoryOf(t.(memberships := t.memberships[k := t.memberships[k].(subscribed := subscribed)]))
         == DirectoryOf(t).(subscribed := DirectoryOf(t).subscribed[k := subscribed])
  {
  }

  /** The audit row of a transaction. */
  function Entry(t: Tables, op: RoomOp): Audit
    requires Tx(t, op).Ok? && Writes(t, op)
  {
    match op
    case Create(actor, id, channel, name, now) => RoomCreate(actor, id, name, channel)
    case Rename(actor, id, name) => RoomRename(actor, id, name)
    case Archive(actor, id) => RoomArchive(actor, id)
    case Delete(actor, id, channel) => RoomDelete(actor, id, channel)
    case Invite(actor, id, account, subscribed, joinedAt, prior) => MemberAdd(actor, id, account, subscribed, prior)
    case Kick(actor, id, account) => MemberRemove(actor, id, account)
    case Subscribe(actor, id, subscribed) =>
      if subscribed then MembershipSubscribe(actor, id) else MembershipUnsubscribe(actor, id)
    case ChannelDeleted(actor, channel) => RoomArchive(actor, t.channelIndex[channel])
  }

  /** The tables of a committing transaction without its audit row. */
  function Core(t: Tables, op: RoomOp): Tables
    requires Tx(t, op).Ok? && Writes(t, op)
  {
    Tx(t, op).value.(audit := t.audit)
  }

  lemma CreateReplays(t: Tables, op: RoomOp)
    requires op.Create? && Tx(t, op).Ok?
    ensures DirectoryOf(Core(t, op)) == Replayed(DirectoryOf(t), Entry(t, op))
  {
    var t1 := WithRoom(t, op.id, Room(op.channel, op.name, false)).(
                channelIndex := t.channelIndex[op.channel := op.id]);
    RoomReplays(t, op.id, Room(op.channel, op.name, false));
    assert DirectoryOf(t1) == DirectoryOf(WithRoom(t, op.id, Room(op.channel, op.name, false)));
    JoinReplays(t1, (op.actor, op.id), false, op.now);
    assert Core(t, op) == Joined(t1, (op.actor, op.id), false, op.now);
  }

  lemma CoreReplays(t: Tables, op: RoomOp)
    requires Tx(t, op).Ok? && Writes(t, op)
    ensures DirectoryOf(Core(t, op)) == Replayed(DirectoryOf(t), Entry(t, op))
  {
    match op
    case Create(actor, id, channel, name, now) =>
      CreateReplays(t, op);
    case Rename(actor, id, name) =>
      RoomReplays(t, id, t.rooms[id].(name := name));
    case Archive(actor, id) =>
      RoomReplays(t, id, t.rooms[id].(archived := true));
    case Delete(actor, id, channel) =>
      DeleteReplays(t, id);
    case Invite(actor, id, account, subscribed, joinedAt, prior) =>
      JoinReplays(t, (account, id), subscribed, joinedAt);
    case Kick(actor, id, account) =>
      KickReplays(t, (account, id));
    case Subscribe(actor, id, subscribed) =>
      SubscribeReplays(t, (actor, id), subscribed);
    case ChannelDeleted(actor, channel) =>
      RoomReplays(t, t.channelIndex[channel], t.rooms[t.channelIndex[channel]].(archived := true));
  }

  /** One committed room transaction appends one audit row, and that row says exactly what changed. */
  lemma TxReplays(t: Tables, op: RoomOp)
    requires Tx(t, op).Ok? && Writes(t, op)
    ensures Tx(t, op).value.audit == t.audit + [Entry(t, op)]
    ensures DirectoryOf(Tx(t, op).value) == Replayed(DirectoryOf(t), Entry(t, op))
  {
    CoreReplays(t, op);
    AuditedDirectory(Core(t, op), Entry(t, op));
  }

  // ---------------------------------------------------------------- keys

  lemma CreateKeepsKeyed(t: Tables, op: RoomOp)
    requires Keyed(t) && op.Create? && op.id !in t.rooms && Tx(t, op).Ok?
    ensures Keyed(Tx(t, op).value)
  {
    Merge.SameAccounts(t, Tx(t, op).value);
  }

  lemma RowsKeepKeyed(t: Tables, id: nat, room: Room, a: Audit)
    requires Keyed(t) && id in t.rooms && room.channel == t.rooms[id].channel
    ensures Keyed(Audited(WithRoom(t, id, room), a))
  {
    Merge.SameAccounts(t, Audited(WithRoom(t, id, room), a));
  }

  lemma MembershipsKeepKeyed(t: Tables, t1: Tables)
    requires Keyed(t) && t1 == t.(memberships := t1.memberships, audit := t1.audit)
    requires forall k | k in t1.memberships :: k.1 in t.rooms && HasAccount(t, k.0)
    ensures Keyed(t1)
  {
    Merge.SameAccounts(t, t1);
  }

  lemma {:induction false} KeepFilesRow(rows: seq<Attachment>, messages: set<nat>, j: nat)
    requires j < |KeepFiles(rows, messages)|
    ensures KeepFiles(rows, messages)[j].message in messages
    ensures exists i :: 0 <= i < |rows| && rows[i] == KeepFiles(rows, messages)[j]
  {
    var n := |rows| - 1;
    if j < |KeepFiles(rows[..n], messages)| {
      KeepFilesRow(rows[..n], messages, j);
      var i :| 0 <= i < |rows[..n]| && rows[..n][i] == KeepFiles(rows, messages)[j];
      assert rows[i] == KeepFiles(rows, messages)[j];
    } else {
      assert rows[n] == KeepFiles(rows, messages)[j];
    }
  }

  lemma {:induction false} KeepFilesOrdered(rows: seq<Attachment>, messages: set<nat>, i: nat, j: nat)
    requires forall a, b | 0 <= a < b < |rows| :: rows[a].id < rows[b].id
    requires i < j < |KeepFiles(rows, messages)|
    ensures KeepFiles(rows, messages)[i].id < KeepFiles(rows, messages)[j].id
  {
    var n := |rows| - 1;
    var rest := KeepFiles(rows[..n], messages);
    if j < |rest| {
      KeepFilesOrdered(rows[..n], messages, i, j);
    } else {
      KeepFilesRow(rows[..n], messages, i);
    }
  }

  lemma DeleteKeepsFiles(t: Tables, id: nat)
    requires Keyed(t) && id in t.rooms
    ensures FilesOrdered(RoomGone(t, id))
    ensures forall i | 0 <= i < |RoomGone(t, id).attachments| ::
            RoomGone(t, id).attachments[i].message in RoomGone(t, id).messages
  {
    var t1 := RoomGone(t, id);
    forall i | 0 <= i < |t1.attachments|
      ensures t1.attachments[i].message in t1.messages && t1.attachments[i].id < t1.nextFile
    {
      KeepFilesRow(t.attachments, t1.messages.Keys, i);
    }
    forall i, j | 0 <= i < j < |t1.attachments| ensures t1.attachments[i].id < t1.attachments[j].id {
      KeepFilesOrdered(t.attachments, t1.messages.Keys, i, j);
    }
  }

  lemma DeleteKeepsIndexed(t: Tables, id: nat)
    requires Indexed(t) && id in t.rooms
    ensures Indexed(RoomGone(t, id))
  {
  }

  lemma DeleteKeepsKeyed(t: Tables, id: nat)
    requires Keyed(t) && id in t.rooms
    ensures Keyed(RoomGone(t, id))
  {
    DeleteKeepsFiles(t, id);
    DeleteKeepsIndexed(t, id);
    Merge.SameAccounts(t, RoomGone(t, id));
  }

  lemma TxKeepsKeyed(t: Tables, op: RoomOp)
    requires Keyed(t) && Tx(t, op).Ok? && (op.Create? ==> op.id !in t.rooms)
    ensures Keyed(Tx(t, op).value)
  {
    if op.Create? {
      CreateKeepsKeyed(t, op);
    } else if op.Rename? {
      RowsKeepKeyed(t, op.room, t.rooms[op.room].(name := op.name), RoomRename(op.actor, op.room, op.name));
    } else if op.Archive? {
      RowsKeepKeyed(t, op.room, t.rooms[op.room].(archived := true), RoomArchive(op.actor, op.room));
    } else if op.ChannelDeleted? {
      if Archives(t, op.channel) {
        var id := t.channelIndex[op.channel];
        RowsKeepKeyed(t, id, t.rooms[id].(archived := true), RoomArchive(op.actor, id));
      }
    } else if op.Delete? {
      DeleteKeepsKeyed(t, op.room);
      AuditKeepsKeyed(RoomGone(t, op.room), RoomDelete(op.actor, op.room, op.channel));
    } else {
      MembershipsKeepKeyed(t, Tx(t, op).value);
    }
  }

  lemma AuditKeepsKeyed(t: Tables, a: Audit)
    requires Keyed(t)
    ensures Keyed(Audited(t, a))
  {
    Merge.SameAccounts(t, Audited(t, a));
  }

  // ---------------------------------------------------------------- the log reproduces the directory

  /** A row that says nothing about rooms and memberships. */
  predicate Neutral(a: Audit) {
    || a.MessageSend? || a.MessageRead?
    || a.AnnouncementCreate? || a.AnnouncementRead?
    || a.AccountCreate? || a.AccountChange?
  }

  predicate NeutralRows(rows: seq<Audit>) {
    forall i | 0 <= i < |rows| :: Neutral(rows[i])
  }

  /** The directory is the same, and the log has at most rows of other things more. */
  ghost predicate DirectoryKept(t: Tables, t1: Tables) {
    && t1.rooms == t.rooms && t1.memberships == t.memberships
    && t.audit <= t1.audit && NeutralRows(t1.audit[|t.audit|..])
  }

  lemma SendKeepsDirectory(t: Tables, s: C.Send)
    requires Indexed(t)
    ensures DirectoryKept(t, C.Sent(t, s))
  {
    var a := MessageSend(s.actor, C.RowId(t, s.discordId, s.id), s.discordId in t.discordIndex);
    assert C.Sent(t, s).audit == t.audit + [a];
    assert C.Sent(t, s).audit[|t.audit|..] == [a];
  }

  lemma ReadKeepsDirectory(t: Tables, account: string, marked: seq<nat>, now: int)
    ensures DirectoryKept(t, WithReads(t, account, marked, now))
  {
    assert WithReads(t, account, marked, now).audit[|t.audit|..] == ReadRows(account, marked);
  }

  lemma IngestKeepsDirectory(t: Tables, e: C.Event)
    requires Indexed(t) && e.channel in t.channelIndex
    ensures DirectoryKept(t, C.Ingested(t, e))
  {
  }

  lemma MessagesKeepDirectory(t: Tables, m: Merge.Op)
    requires Indexed(t) && !m.DoMembers?
    ensures DirectoryKept(t, Merge.Apply(t, m))
  {
    if m.DoSend? {
      SendKeepsDirectory(t, m.s);
    } else if m.DoIngest? {
      if m.e.channel in t.channelIndex {
        IngestKeepsDirectory(t, m.e);
      }
    } else if m.DoRead? {
      ReadKeepsDirectory(t, m.account, m.marked, m.now);
    }
  }

  /** The log reproduces the current rooms and memberships. */
  ghost predicate Reproduces(t: Tables) {
    Replay(t.audit) == DirectoryOf(t)
  }

  lemma NeutralRowReplays(audit: seq<Audit>, a: Audit)
    requires Neutral(a)
    ensures Replay(audit + [a]) == Replay(audit)
  {
    ReplayAppend(audit, a);
  }

  lemma {:induction false} ReplayNeutral(audit: seq<Audit>, rows: seq<Audit>)
    requires NeutralRows(rows)
    ensures Replay(audit + rows) == Replay(audit)
    decreases |rows|
  {
    if rows == [] {
      assert audit + rows == audit;
    } else {
      NeutralRowReplays(audit, rows[0]);
      ReplayNeutral(audit + [rows[0]], rows[1..]);
      assert audit + rows == audit + [rows[0]] + rows[1..];
    }
  }

  lemma MessageReproduces(t: Tables, t1: Tables)
    requires DirectoryKept(t, t1) && Reproduces(t)
    ensures Reproduces(t1) && t.audit <= t1.audit
  {
    ReplayNeutral(t.audit, t1.audit[|t.audit|..]);
    assert t1.audit == t.audit + t1.audit[|t.audit|..];
  }

  lemma RoomReproduces(t: Tables, op: RoomOp, accepted: bool)
    requires Keyed(t) && (op.Create? ==> op.id !in t.rooms) && Reproduces(t)
    ensures Keyed(After(t, op, accepted)) && Reproduces(After(t, op, accepted))
    ensures t.audit <= After(t, op, accepted).audit
  {
    if Tx(t, op).Ok? {
      TxKeepsKeyed(t, op);
      if Writes(t, op) {
        TxReplays(t, op);
        ReplayAppend(t.audit, Entry(t, op));
      }
    }
  }

  lemma {:induction false} RemainingAccounts(accounts: seq<Account>, id: string, a: string)
    ensures (exists i :: 0 <= i < |WithoutAccount(accounts, id)| && WithoutAccount(accounts, id)[i].id == a)
              <==> a != id && exists i :: 0 <= i < |accounts| && accounts[i].id == a
    ensures |WithoutAccount(accounts, id)| <= |accounts|
  {
    if accounts != [] {
      var n := |accounts| - 1;
      var (rest, all) := (WithoutAccount(accounts[..n], id), WithoutAccount(accounts, id));
      RemainingAccounts(accounts[..n], id, a);
      assert forall i :: 0 <= i < n ==> accounts[..n][i] == accounts[i];
      if accounts[n].id != id {
        assert all == rest + [accounts[n]] && all[|rest|] == accounts[n];
        assert forall i :: 0 <= i < |rest| ==> all[i] == rest[i];
      }
    }
  }

  lemma GoneAccounts(t: Tables, id: string, a: string)
    ensures HasAccount(AccountGone(t, id), a) <==> a != id && HasAccount(t, a)
  {
    RemainingAccounts(t.accounts, id, a);
  }

  lemma GoneKeepsKeyed(t: Tables, id: string)
    requires Keyed(t)
    ensures Keyed(AccountGone(t, id))
  {
    var t1 := AccountGone(t, id);
    assert Indexed(t1) && FilesOrdered(t1);
    forall k | k in t1.memberships ensures k.1 in t1.rooms && HasAccount(t1, k.0) {
      GoneAccounts(t, id, k.0);
    }
    forall i | 0 <= i < |t1.accounts| ensures t1.accounts[i].id != "" {
      GoneAccounts(t, id, t1.accounts[i].id);
      assert HasAccount(t1, t1.accounts[i].id);
    }
  }

  /** A deleted account's memberships go by cascade; its one audit row says so. */
  lemma GoneReplays(t: Tables, actor: string, id: string)
    ensures DirectoryOf(AccountGone(t, id)) == Replayed(DirectoryOf(t), AccountDelete(actor, id))
  {
  }

  lemma AuditedKeyed(t: Tables, a: Audit)
    requires Keyed(t)
    ensures Keyed(Audited(t, a))
  {
    forall x ensures HasAccount(Audited(t, a), x) <==> HasAccount(t, x) {
    }
  }

  /** New or edited account rows: every id stays. */
  lemma AccountsKeepKeyed(t: Tables, accounts: seq<Account>)
    requires Keyed(t) && forall a :: HasAccount(t, a) ==> HasAccount(t.(accounts := accounts), a)
    requires forall i | 0 <= i < |accounts| :: accounts[i].id != ""
    ensures Keyed(t.(accounts := accounts))
  {
  }

  lemma AddedAccounts(t: Tables, account: Account, a: string)
    requires HasAccount(t, a)
    ensures HasAccount(t.(accounts := t.accounts + [account]), a)
  {
    var i :| 0 <= i < |t.accounts| && t.accounts[i].id == a;
    assert (t.accounts + [account])[i].id == a;
  }

  lemma KeptAccounts(t: Tables, account: Account, a: string)
    requires HasAccount(t, a)
    ensures HasAccount(t.(accounts := EditedAccounts(t.accounts, account)), a)
  {
    var i :| 0 <= i < |t.accounts| && t.accounts[i].id == a;
    assert EditedAccounts(t.accounts, account)[i].id == a;
  }

  lemma NeutralRow(t: Tables, t1: Tables, a: Audit)
    requires Reproduces(t) && Neutral(a)
    requires t1.rooms == t.rooms && t1.memberships == t.memberships && t1.audit == t.audit
    ensures Reproduces(Audited(t1, a))
  {
    NeutralRowReplays(t.audit, a);
  }

  lemma AccountReproduces(t: Tables, op: AccountOp, accepted: bool)
    requires Keyed(t) && Reproduces(t)
    requires op.AddAccount? ==> op.account.id != "" && !HasAccount(t, op.account.id)
    ensures Keyed(AfterAccount(t, op, accepted)) && Reproduces(AfterAccount(t, op, accepted))
    ensures t.audit <= AfterAccount(t, op, accepted).audit
  {
    if accepted && AccountTx(t, op).Ok? {
      match op {
        case AddAccount(actor, account) =>
          var t1 := t.(accounts := t.accounts + [account]);
          forall a | HasAccount(t, a) ensures HasAccount(t1, a) {
            AddedAccounts(t, account, a);
          }
          AccountsKeepKeyed(t, t.accounts + [account]);
          AuditedKeyed(t1, AccountCreate(actor, account.id));
          NeutralRow(t, t1, AccountCreate(actor, account.id));
        case EditAccount(actor, account) =>
          var t1 := t.(accounts := EditedAccounts(t.accounts, account));
          forall a | HasAccount(t, a) ensures HasAccount(t1, a) {
            KeptAccounts(t, account, a);
          }
          AccountsKeepKeyed(t, EditedAccounts(t.accounts, account));
          AuditedKeyed(t1, AccountChange(actor, account.id));
          NeutralRow(t, t1, AccountChange(actor, account.id));
        case DeleteAccount(actor, id) =>
          GoneKeepsKeyed(t, id);
          AuditedKeyed(AccountGone(t, id), AccountDelete(actor, id));
          GoneReplays(t, actor, id);
          ReplayAppend(t.audit, AccountDelete(actor, id));
      }
    }
  }

  lemma StepReproduces(t: Tables, s: Step)
    requires Keyed(t) && Legal(t, s) && Reproduces(t)
    ensures Keyed(Apply(t, s)) && Reproduces(Apply(t, s))
    ensures t.audit <= Apply(t, s).audit
  {
    if s.MessageStep? {
      Merge.StepKeepsKeyed(t, s.m);
      MessagesKeepDirectory(t, s.m);
      MessageReproduces(t, Apply(t, s));
    } else if s.RoomStep? {
      RoomReproduces(t, s.op, s.accepted);
    } else {
      AccountReproduces(t, s.a, s.taken);
    }
  }

  lemma EmptyReproduces(accounts: seq<Account>)
    requires forall i | 0 <= i < |accounts| :: accounts[i].id != ""
    ensures Keyed(Empty(accounts)) && Reproduces(Empty(accounts))
  {
    assert DirectoryOf(Empty(accounts)).subscribed == map[];
  }

  lemma RunStepReproduces(ts: seq<Tables>, steps: seq<Step>, i: nat)
    requires Run(ts, steps) && i < |steps| && Keyed(ts[i]) && Reproduces(ts[i])
    ensures Keyed(ts[i + 1]) && Reproduces(ts[i + 1]) && ts[i].audit <= ts[i + 1].audit
  {
    assert StepAt(ts, steps, i);
    StepReproduces(ts[i], steps[i]);
  }

  /** Every state of a run keeps the keys and a complete log. */
  lemma {:induction false} RunReproduces(ts: seq<Tables>, steps: seq<Step>, i: nat)
    requires Run(ts, steps) && i <= |steps|
    requires Keyed(ts[0]) && Reproduces(ts[0])
    ensures Keyed(ts[i]) && Reproduces(ts[i])
  {
    if i > 0 {
      RunReproduces(ts, steps, i - 1);
      RunStepReproduces(ts, steps, i - 1);
    }
  }

  /**
   On every run of room, membership, message and account transactions, failed and
   rolled-back ones included, replaying the audit log in commit order yields, after every step,
   exactly the rooms (channel, name, archived) and memberships (subscribed) there are.
   */
  lemma AuditReproducesDirectory(accounts: seq<Account>, ts: seq<Tables>, steps: seq<Step>, i: nat)
    requires forall k | 0 <= k < |accounts| :: accounts[k].id != ""
    requires Run(ts, steps) && ts[0] == Empty(accounts) && i <= |steps|
    ensures Replay(ts[i].audit) == DirectoryOf(ts[i])
  {
    EmptyReproduces(accounts);
    RunReproduces(ts, steps, i);
    assert Reproduces(ts[i]);
  }

  lemma {:induction false} Chain(logs: seq<seq<Audit>>, i: nat, j: nat)
    requires i <= j < |logs| && forall k | 0 <= k < |logs| - 1 :: logs[k] <= logs[k + 1]
    ensures logs[i] <= logs[j]
  {
    if i < j {
      Chain(logs, i, j - 1);
      assert logs[j - 1] <= logs[j - 1 + 1];
    }
  }

  /** An earlier state's log is a prefix of a later one's. */
  lemma LogGrows(ts: seq<Tables>, steps: seq<Step>, i: nat, j: nat)
    requires Run(ts, steps) && i <= j <= |steps|
    requires Keyed(ts[0]) && Reproduces(ts[0])
    ensures ts[i].audit <= ts[j].audit
  {
    var logs := seq(|ts|, k requires 0 <= k < |ts| => ts[k].audit);
    forall k | 0 <= k < |logs| - 1 ensures logs[k] <= logs[k + 1] {
      RunReproduces(ts, steps, k);
      RunStepReproduces(ts, steps, k);
    }
    Chain(logs, i, j);
  }

  /** So the final log also holds every earlier directory: replay it only that far. */
  lemma EveryPastDirectoryIsInTheLog(ts: seq<Tables>, steps: seq<Step>, i: nat, j: nat)
    requires Run(ts, steps) && i <= j <= |steps|
    requires Keyed(ts[0]) && Reproduces(ts[0])
    ensures |ts[i].audit| <= |ts[j].audit| && Replay(ts[j].audit[..|ts[i].audit|]) == DirectoryOf(ts[i])
  {
    LogGrows(ts, steps, i, j);
    RunReproduces(ts, steps, i);
    assert Reproduces(ts[i]);
    assert ts[j].audit[..|ts[i].audit|] == ts[i].audit;
  }

  /** No transaction moves the join time of a membership it leaves in place. */
  lemma JoinTimesStay(t: Tables, op: RoomOp, accepted: bool, k: (string, nat))
    requires Keyed(t) && (op.Create? ==> op.id !in t.rooms)
    requires k in t.memberships && k in After(t, op, accepted).memberships
    ensures After(t, op, accepted).memberships[k].joinedAt == t.memberships[k].joinedAt
  {
    if op.Create? {
      assert k.1 in t.rooms;
    }
  }
}
