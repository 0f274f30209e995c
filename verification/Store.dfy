/**
 The SQLite tables (internal/store/sqlite) as values, keyed the way the migrations
 key them, and the single statements of the repositories as methods of a
 connection.  Row ids come from one increasing supply (UUIDv7).
 */
module Store {
  import opened Wrappers

  datatype Priority = Normal | Urgent | System

  datatype Account = Account(id: string, botUserId: string, admin: bool)

  datatype Room = Room(channel: string, name: string, archived: bool)

  datatype Membership = Membership(subscribed: bool, joinedAt: int)

  /** The stored digest of a content; distinct contents have distinct digests. */
  datatype Hash = Hash(content: string)

  datatype Message = Message(
    room: nat,
    author: Option<string>,
    discordId: string,
    content: string,
    replyTo: Option<nat>,
    priority: Priority,
    createdAt: int,
    contentHash: Hash,
    everyone: bool)

  datatype Attachment = Attachment(
    id: nat,
    message: nat,
    filename: string,
    size: int,
    mime: string,
    localPath: string,
    url: string,
    downloadedAt: Option<int>)

  datatype Audit =
    | RoomCreate(actor: string, room: nat, name: string, channel: string)
    | RoomRename(actor: string, room: nat, name: string)
    | RoomArchive(actor: string, room: nat)
    | RoomDelete(actor: string, room: nat, channel: string)
    | MemberAdd(actor: string, room: nat, account: string, subscribed: bool, priorMember: bool)
    | MemberRemove(actor: string, room: nat, account: string)
    | MembershipSubscribe(actor: string, room: nat)
    | MembershipUnsubscribe(actor: string, room: nat)
    | MessageSend(actor: string, message: nat, raceWithIngest: bool)
    | MessageRead(actor: string, message: nat)
    | AnnouncementCreate(actor: string, announcement: nat, room: nat, version: nat)
    | AnnouncementRead(actor: string, announcement: nat, room: nat)
    | AccountCreate(actor: string, account: string)
    | AccountChange(actor: string, account: string)
    | AccountDelete(actor: string, account: string)

  /**
   `accounts` and `attachments` are in the order their queries list them (creation
   order); `channelIndex` and `discordIndex` are the unique indexes of
   rooms.discord_channel_id and messages.discord_msg_id; `nextFile` is the next
   attachment id.
   */
  datatype Tables = Tables(
    accounts: seq<Account>,
    rooms: map<nat, Room>,
    channelIndex: map<string, nat>,
    memberships: map<(string, nat), Membership>,
    messages: map<nat, Message>,
    discordIndex: map<string, nat>,
    states: map<(nat, string), Option<int>>,
    mentions: set<(nat, string)>,
    attachments: seq<Attachment>,
    nextFile: nat,
    audit: seq<Audit>)

  datatype DbError = NotFound | Conflict | InvalidArgument | PermDenied | Internal

  predicate HasAccount(t: Tables, a: string) {
    exists i :: 0 <= i < |t.accounts| && t.accounts[i].id == a
  }

  predicate IsAdmin(t: Tables, a: string) {
    exists i :: 0 <= i < |t.accounts| && t.accounts[i].id == a && t.accounts[i].admin
  }

  function Members(t: Tables, room: nat): set<string> {
    set k | k in t.memberships && k.1 == room :: k.0
  }

  /** The rows of one message in a per-account table. */
  function Cells(message: nat, accounts: set<string>): set<(nat, string)> {
    set a | a in accounts :: (message, a)
  }

  /** COALESCE(read_at, excluded.read_at): the first read time stays. */
  function Coalesce(states: map<(nat, string), Option<int>>, k: (nat, string), readAt: Option<int>): Option<int> {
    if k in states && states[k].Some? then states[k] else readAt
  }

  /** Upsert(read_at = now) of every marked message for one account. */
  function Marked(states: map<(nat, string), Option<int>>, account: string, marked: set<nat>, now: int)
    : map<(nat, string), Option<int>>
  {
    map k | k in states.Keys + (set m | m in marked :: (m, account)) ::
      if k.0 in marked && k.1 == account then Coalesce(states, k, Some(now)) else states[k]
  }

  function Elems(s: seq<nat>): set<nat> {
    set x | x in s
  }

  function ReadRows(account: string, marked: seq<nat>): seq<Audit> {
    seq(|marked|, i requires 0 <= i < |marked| => MessageRead(account, marked[i]))
  }

  /** One state and one audit row per message read. */
  function WithReads(t: Tables, account: string, marked: seq<nat>, now: int): Tables {
    t.(states := Marked(t.states, account, Elems(marked), now), audit := t.audit + ReadRows(account, marked))
  }

  /** The unique indexes agree with their tables. */
  ghost predicate Indexed(t: Tables) {
    && (forall d | d in t.discordIndex ::
       t.discordIndex[d] in t.messages && t.messages[t.discordIndex[d]].discordId == d)
    && (forall m | m in t.messages ::
       t.messages[m].discordId in t.discordIndex && t.discordIndex[t.messages[m].discordId] == m)
    && (forall c | c in t.channelIndex :: t.channelIndex[c] in t.rooms && t.rooms[t.channelIndex[c]].channel == c)
    && (forall r | r in t.rooms :: t.rooms[r].channel in t.channelIndex && t.channelIndex[t.rooms[r].channel] == r)
  }

  /** Foreign keys: every child row has its parents; ids are not empty. */
  ghost predicate Closed(t: Tables) {
    && (forall i | 0 <= i < |t.accounts| :: t.accounts[i].id != "")
    && (forall k | k in t.memberships :: k.1 in t.rooms && HasAccount(t, k.0))
    && (forall k | k in t.states :: k.0 in t.messages)
    && (forall k | k in t.mentions :: k.0 in t.messages)
    && (forall i | 0 <= i < |t.attachments| :: t.attachments[i].message in t.messages)
  }

  /** Attachment ids increase along the table and stay below the supply. */
  ghost predicate FilesOrdered(t: Tables) {
    && (forall i | 0 <= i < |t.attachments| :: t.attachments[i].id < t.nextFile)
    && (forall i, j | 0 <= i < j < |t.attachments| :: t.attachments[i].id < t.attachments[j].id)
  }

  ghost predicate Keyed(t: Tables) {
    Indexed(t) && Closed(t) && FilesOrdered(t)
  }

  /** SELECT .. WHERE message_id = ? ORDER BY id */
  function FilesOf(rows: seq<Attachment>, message: nat): seq<Attachment> {
    if rows == [] then []
    else
      var rest := FilesOf(rows[..|rows| - 1], message);
      if rows[|rows| - 1].message == message then rest + [rows[|rows| - 1]] else rest
  }

  /** UPDATE attachments SET local_path = ?, downloaded_at = ? WHERE id = ? */
  function MarkRow(rows: seq<Attachment>, id: nat, path: string, at: int): seq<Attachment> {
    seq(|rows|, i requires 0 <= i < |rows| =>
      if rows[i].id == id then rows[i].(localPath := path, downloadedAt := Some(at)) else rows[i])
  }

  predicate ReferencesExist(t: Tables, author: Option<string>, replyTo: Option<nat>) {
    (author.Some? ==> HasAccount(t, author.value)) && (replyTo.Some? ==> replyTo.value in t.messages)
  }

  predicate ParentsExist(t: Tables, m: Message) {
    m.room in t.rooms && ReferencesExist(t, m.author, m.replyTo)
  }

  function InsertIgnore(t: Tables, id: nat, m: Message): Tables {
    if m.discordId in t.discordIndex then t
    else t.(messages := t.messages[id := m], discordIndex := t.discordIndex[m.discordId := id])
  }

  function Named(accounts: seq<string>): set<string> {
    set i | 0 <= i < |accounts| && accounts[i] != "" :: accounts[i]
  }

  /** The rows whose message is still there. */
  function KeepFiles(rows: seq<Attachment>, messages: set<nat>): seq<Attachment> {
    if rows == [] then []
    else
      var rest := KeepFiles(rows[..|rows| - 1], messages);
      if rows[|rows| - 1].message in messages then rest + [rows[|rows| - 1]] else rest
  }

  /** The message rows left by a room's deletion; a reply to a deleted row loses its parent. */
  function KeepMessages(messages: map<nat, Message>, room: nat): map<nat, Message> {
    map m | m in messages && messages[m].room != room ::
      if messages[m].replyTo.Some? && messages[m].replyTo.value in messages
         && messages[messages[m].replyTo.value].room == room
      then messages[m].(replyTo := None)
      else messages[m]
  }

  /** DELETE FROM rooms WHERE id = ?, with the cascades of the schema. */
  function RoomGone(t: Tables, id: nat): Tables
    requires id in t.rooms
  {
    var messages := KeepMessages(t.messages, id);
    t.(rooms := t.rooms - {id},
       channelIndex := t.channelIndex - {t.rooms[id].channel},
       memberships := (map k | k in t.memberships && k.1 != id :: t.memberships[k]),
       messages := messages,
       discordIndex := (map d | d in t.discordIndex && t.discordIndex[d] in messages :: t.discordIndex[d]),
       states := (map k | k in t.states && k.0 in messages :: t.states[k]),
       mentions := (set k | k in t.mentions && k.0 in messages),
       attachments := KeepFiles(t.attachments, messages.Keys))
  }

  /** The message is there, and in another room. */
  predicate Survives(t: Tables, m: nat, id: nat) {
    m in t.messages && t.messages[m].room != id
  }

  /** The reply's parent went with the room. */
  predicate LosesParent(t: Tables, m: Message, id: nat) {
    m.replyTo.Some? && m.replyTo.value in t.messages && t.messages[m.replyTo.value].room == id
  }

  /**
   A room and what hangs on it is gone: its memberships, its messages and their states,
   mentions, files and index entries.  Everything about other rooms is as it was, except
   that a reply to a message of this room has no parent any more.
   */
  ghost predicate RoomDeleted(t: Tables, t1: Tables, id: nat)
    requires id in t.rooms
  {
    && t1.accounts == t.accounts && t1.nextFile == t.nextFile
    && t1.rooms == t.rooms - {id} && t1.channelIndex == t.channelIndex - {t.rooms[id].channel}
    && (forall k :: k in t1.memberships <==> k in t.memberships && k.1 != id)
    && (forall k | k in t1.memberships :: t1.memberships[k] == t.memberships[k])
    && (forall m :: m in t1.messages <==> Survives(t, m, id))
    && (forall m | Survives(t, m, id) ::
          t1.messages[m] == if LosesParent(t, t.messages[m], id) then t.messages[m].(replyTo := None)
            else t.messages[m])
    && (forall k :: k in t1.states <==> k in t.states && Survives(t, k.0, id))
    && (forall k | k in t1.states :: t1.states[k] == t.states[k])
    && (forall k :: k in t1.mentions <==> k in t.mentions && Survives(t, k.0, id))
    && (forall d :: d in t1.discordIndex <==> d in t.discordIndex && Survives(t, t.discordIndex[d], id))
    && (forall d | d in t1.discordIndex :: t1.discordIndex[d] == t.discordIndex[d])
    && (forall x :: x in t1.attachments <==> x in t.attachments && Survives(t, x.message, id))
    && (forall m: nat :: FilesOf(t1.attachments, m) == if Survives(t, m, id) then FilesOf(t.attachments, m) else [])
  }

  lemma {:induction false} KeptFilesOf(rows: seq<Attachment>, messages: set<nat>, m: nat)
    ensures FilesOf(KeepFiles(rows, messages), m) == if m in messages then FilesOf(rows, m) else []
  {
    if rows != [] {
      var (n, rest) := (|rows| - 1, KeepFiles(rows[..|rows| - 1], messages));
      KeptFilesOf(rows[..n], messages, m);
      if rows[n].message in messages {
        assert (rest + [rows[n]])[..|rest|] == rest;
      }
    }
  }

  lemma {:induction false} KeptFilesIn(rows: seq<Attachment>, messages: set<nat>, x: Attachment)
    ensures x in KeepFiles(rows, messages) <==> x in rows && x.message in messages
  {
    if rows != [] {
      KeptFilesIn(rows[..|rows| - 1], messages, x);
      assert rows == rows[..|rows| - 1] + [rows[|rows| - 1]];
    }
  }

  lemma RoomFilesGone(t: Tables, id: nat)
    requires id in t.rooms
    ensures var rows := RoomGone(t, id).attachments;
            && (forall x :: x in rows <==> x in t.attachments && Survives(t, x.message, id))
            && (forall m: nat :: FilesOf(rows, m) == if Survives(t, m, id) then FilesOf(t.attachments, m) else [])
  {
    forall x ensures x in RoomGone(t, id).attachments <==> x in t.attachments && Survives(t, x.message, id) {
      KeptFilesIn(t.attachments, KeepMessages(t.messages, id).Keys, x);
    }
    forall m: nat
      ensures FilesOf(RoomGone(t, id).attachments, m) == if Survives(t, m, id) then FilesOf(t.attachments, m) else []
    {
      KeptFilesOf(t.attachments, KeepMessages(t.messages, id).Keys, m);
    }
  }

  lemma RoomGoneIs(t: Tables, id: nat)
    requires id in t.rooms
    ensures RoomDeleted(t, RoomGone(t, id), id)
  {
    RoomFilesGone(t, id);
  }

  function WithoutAccount(accounts: seq<Account>, id: string): seq<Account> {
    if accounts == [] then []
    else
      var (rest, last) := (WithoutAccount(accounts[..|accounts| - 1], id), accounts[|accounts| - 1]);
      if last.id == id then rest else rest + [last]
  }

  /** DELETE FROM accounts WHERE id = ?, with the schema's cascades; what the account wrote stays, without an author. */
  function AccountGone(t: Tables, id: string): Tables {
    t.(accounts := WithoutAccount(t.accounts, id),
       memberships := (map k | k in t.memberships && k.0 != id :: t.memberships[k]),
       messages := (map m | m in t.messages ::
         if t.messages[m].author == Some(id) then t.messages[m].(author := None) else t.messages[m]),
       states := (map k | k in t.states && k.1 != id :: t.states[k]),
       mentions := (set k | k in t.mentions && k.1 != id))
  }

  /**
   An account is gone with its memberships, states and mentions.  What it wrote stays
   without an author; everything of the other accounts is as it was.
   */
  ghost predicate AccountDeleted(t: Tables, t1: Tables, id: string) {
    && t1 == t.(accounts := t1.accounts, memberships := t1.memberships, messages := t1.messages, states := t1.states,
                mentions := t1.mentions)
    && (forall x :: x in t1.accounts <==> x in t.accounts && x.id != id)
    && (forall k | 0 <= k < |t.accounts| && OnlyRow(t.accounts, k, id) ::
          t1.accounts == t.accounts[..k] + t.accounts[k + 1..])
    && (forall k :: k in t1.memberships <==> k in t.memberships && k.0 != id)
    && (forall k | k in t1.memberships :: t1.memberships[k] == t.memberships[k])
    && t1.messages.Keys == t.messages.Keys
    && (forall m | m in t.messages ::
          t1.messages[m] == if t.messages[m].author == Some(id) then t.messages[m].(author := None) else t.messages[m])
    && (forall k :: k in t1.states <==> k in t.states && k.1 != id)
    && (forall k | k in t1.states :: t1.states[k] == t.states[k])
    && (forall k :: k in t1.mentions <==> k in t.mentions && k.1 != id)
  }

  /** The k-th row is the account's only one. */
  predicate OnlyRow(accounts: seq<Account>, k: int, id: string) {
    0 <= k < |accounts| && accounts[k].id == id && forall i | 0 <= i < |accounts| && i != k :: accounts[i].id != id
  }

  lemma {:induction false} WithoutNone(accounts: seq<Account>, id: string)
    requires forall i | 0 <= i < |accounts| :: accounts[i].id != id
    ensures WithoutAccount(accounts, id) == accounts
  {
    if accounts != [] {
      WithoutNone(accounts[..|accounts| - 1], id);
    }
  }

  lemma {:induction false} WithoutOnly(accounts: seq<Account>, k: nat, id: string)
    requires OnlyRow(accounts, k, id)
    ensures WithoutAccount(accounts, id) == accounts[..k] + accounts[k + 1..]
  {
    var n := |accounts| - 1;
    if k == n {
      WithoutNone(accounts[..n], id);
    } else {
      assert OnlyRow(accounts[..n], k, id);
      WithoutOnly(accounts[..n], k, id);
      assert accounts[..n][..k] + accounts[..n][k + 1..] + [accounts[n]] == accounts[..k] + accounts[k + 1..];
    }
  }

  lemma {:induction false} WithoutKeepsOthers(accounts: seq<Account>, id: string, x: Account)
    ensures x in WithoutAccount(accounts, id) <==> x in accounts && x.id != id
  {
    if accounts != [] {
      WithoutKeepsOthers(accounts[..|accounts| - 1], id, x);
      assert accounts == accounts[..|accounts| - 1] + [accounts[|accounts| - 1]];
    }
  }

  lemma AccountGoneIs(t: Tables, id: string)
    ensures AccountDeleted(t, AccountGone(t, id), id)
  {
    forall x ensures x in WithoutAccount(t.accounts, id) <==> x in t.accounts && x.id != id {
      WithoutKeepsOthers(t.accounts, id, x);
    }
    forall k | 0 <= k < |t.accounts| && OnlyRow(t.accounts, k, id)
      ensures WithoutAccount(t.accounts, id) == t.accounts[..k] + t.accounts[k + 1..]
    {
      WithoutOnly(t.accounts, k, id);
    }
  }

  /** ON CONFLICT DO UPDATE SET subscribed = excluded.subscribed: joined_at stays. */
  function Joined(t: Tables, k: (string, nat), subscribed: bool, joinedAt: int): Tables {
    var since := if k in t.memberships then t.memberships[k].joinedAt else joinedAt;
    t.(memberships := t.memberships[k := Membership(subscribed, since)])
  }

  /** One connection: every transaction has it to itself (max_open_conns = 1). */
  class Db {
    var t: Tables

    constructor (t: Tables)
      ensures this.t == t
    {
      this.t := t;
    }

    /** INSERT INTO messages .. ON CONFLICT(discord_msg_id) DO NOTHING, then the id that holds the row. */
    method CreateIgnoreConflict(id: nat, m: Message) returns (r: Result<(nat, bool), DbError>)
      modifies this
      ensures r.Ok? ==> t == InsertIgnore(old(t), id, m)
      ensures r.Ok? && m.discordId !in old(t).discordIndex ==>
                t == old(t).(messages := old(t).messages[id := m],
                             discordIndex := old(t).discordIndex[m.discordId := id])
      ensures m.discordId in old(t).discordIndex ==> t == old(t)
      ensures r == if m.discordId in old(t).discordIndex then Ok((old(t).discordIndex[m.discordId], false))
                   else if ParentsExist(old(t), m) then Ok((id, true)) else Err(Internal)
      ensures r.Err? ==> t == old(t)
    {
      if m.discordId in t.discordIndex {
        return Ok((t.discordIndex[m.discordId], false));
      }
      if !ParentsExist(t, m) {
        return Err(Internal);
      }
      t := t.(messages := t.messages[id := m], discordIndex := t.discordIndex[m.discordId := id]);
      return Ok((id, true));
    }

    /** The send path's columns; mention_everyone is MAX(old, new). */
    method ApplySendMetadata(id: nat, author: string, replyTo: Option<nat>, priority: Priority, hash: Hash,
                             everyone: bool)
      returns (r: Result<(), DbError>)
      modifies this
      ensures r == if id !in old(t).messages then Err(NotFound)
                   else if ReferencesExist(old(t), Some(author), replyTo) then Ok(()) else Err(Internal)
      ensures t == if r.Ok? then old(t).(messages := old(t).messages[id :=
                     old(t).messages[id].(author := Some(author), replyTo := replyTo, priority := priority,
                                          contentHash := hash, everyone := old(t).messages[id].everyone || everyone)])
                   else old(t)
    {
      if id !in t.messages {
        return Err(NotFound);
      }
      if !ReferencesExist(t, Some(author), replyTo) {
        return Err(Internal);
      }
      t := t.(messages := t.messages[id := t.messages[id].(author := Some(author), replyTo := replyTo,
        priority := priority, contentHash := hash, everyone := t.messages[id].everyone || everyone)]);
      return Ok(());
    }

    /** The maximum of the old flag and the new one; without a new flag only the row's existence is checked. */
    method MergeMentionEveryone(id: nat, flag: bool) returns (r: Result<(), DbError>)
      modifies this
      ensures r == if id in old(t).messages then Ok(()) else Err(NotFound)
      ensures t == if r.Ok? then old(t).(messages := old(t).messages[id :=
                     old(t).messages[id].(everyone := old(t).messages[id].everyone || flag)]) else old(t)
    {
      if !flag {
        return if id in t.messages then Ok(()) else Err(NotFound);
      }
      if id !in t.messages {
        return Err(NotFound);
      }
      t := t.(messages := t.messages[id := t.messages[id].(everyone := true)]);
      return Ok(());
    }

    /** INSERT OR IGNORE, one row per non-empty account id; both its parents must exist. */
    method AddMentions(id: nat, accounts: seq<string>) returns (r: Result<(), DbError>)
      modifies this
      ensures r == if forall a | a in Named(accounts) :: id in old(t).messages && HasAccount(old(t), a)
                   then Ok(()) else Err(Internal)
      ensures r.Ok? ==> t == old(t).(mentions := old(t).mentions + Cells(id, Named(accounts)))
      ensures r.Ok? ==> forall k :: k in t.mentions <==>
                          k in old(t).mentions || (k.0 == id && k.1 in accounts && k.1 != "")
    {
      ghost var before := t.mentions;
      var i := 0;
      assert Cells(id, Named(accounts[..0])) == {};
      while i < |accounts|
        invariant 0 <= i <= |accounts|
        invariant t == old(t).(mentions := before + Cells(id, Named(accounts[..i])))
        invariant forall a | a in Named(accounts[..i]) :: id in t.messages && HasAccount(t, a)
      {
        assert accounts[..i + 1] == accounts[..i] + [accounts[i]];
        if accounts[i] != "" {
          assert accounts[i] in Named(accounts);
          if !(id in t.messages && HasAccount(t, accounts[i])) {
            return Err(Internal);
          }
          assert Named(accounts[..i + 1]) == Named(accounts[..i]) + {accounts[i]};
          assert Cells(id, Named(accounts[..i + 1])) == Cells(id, Named(accounts[..i])) + {(id, accounts[i])};
          t := t.(mentions := t.mentions + {(id, accounts[i])});
          assert t.mentions == before + Cells(id, Named(accounts[..i + 1]));
        } else {
          assert Named(accounts[..i + 1]) == Named(accounts[..i]);
        }
        i := i + 1;
      }
      assert accounts[..i] == accounts;
      return Ok(());
    }

    /** INSERT INTO message_states .. ON CONFLICT DO UPDATE SET read_at = COALESCE(..) */
    method UpsertState(k: (nat, string), readAt: Option<int>) returns (r: Result<(), DbError>)
      modifies this
      ensures r == if k.0 in old(t).messages && HasAccount(old(t), k.1) then Ok(()) else Err(Internal)
      ensures t == if r.Ok? then old(t).(states := old(t).states[k := Coalesce(old(t).states, k, readAt)]) else old(t)
      ensures r.Ok? ==>
                && t.states.Keys == old(t).states.Keys + {k}
                && (forall x | x in old(t).states && x != k :: t.states[x] == old(t).states[x])
                && t.states[k] == if k in old(t).states && old(t).states[k].Some? then old(t).states[k] else readAt
    {
      if !(k.0 in t.messages && HasAccount(t, k.1)) {
        return Err(Internal);
      }
      t := t.(states := t.states[k := Coalesce(t.states, k, readAt)]);
      return Ok(());
    }

    /** INSERT INTO attachments, whose message must exist; the caller has just drawn the row's id. */
    method CreateAttachment(message: nat, filename: string, size: int, mime: string, path: string, url: string,
                            at: Option<int>)
      returns (r: Result<(), DbError>)
      modifies this
      ensures r == if filename == "" then Err(InvalidArgument) else if message in old(t).messages then Ok(())
              else Err(Internal)
      ensures t == if r.Ok? then
                     old(t).(attachments := old(t).attachments + [Attachment(old(t).nextFile, message, filename,
                                                                      size, mime, path, url, at)],
                             nextFile := old(t).nextFile + 1)
                   else old(t)
    {
      if filename == "" {
        return Err(InvalidArgument);
      }
      if message !in t.messages {
        return Err(Internal);
      }
      t := t.(attachments := t.attachments + [Attachment(t.nextFile, message, filename, size, mime, path, url, at)],
              nextFile := t.nextFile + 1);
      return Ok(());
    }

    method MarkDownloaded(id: nat, path: string, at: int) returns (r: Result<(), DbError>)
      modifies this
      ensures r == if exists i :: 0 <= i < |old(t).attachments| && old(t).attachments[i].id == id
                   then Ok(()) else Err(NotFound)
      ensures t == old(t).(attachments := MarkRow(old(t).attachments, id, path, at))
      ensures |t.attachments| == |old(t).attachments|
      ensures forall i | 0 <= i < |t.attachments| ::
                t.attachments[i] == if old(t).attachments[i].id == id
                                    then old(t).attachments[i].(localPath := path, downloadedAt := Some(at))
                                    else old(t).attachments[i]
    {
      var found := exists i :: 0 <= i < |t.attachments| && t.attachments[i].id == id;
      t := t.(attachments := MarkRow(t.attachments, id, path, at));
      return if found then Ok(()) else Err(NotFound);
    }

    /** INSERT INTO rooms; discord_channel_id is unique. */
    method CreateRoom(id: nat, room: Room) returns (r: Result<(), DbError>)
      modifies this
      ensures r == if room.channel in old(t).channelIndex then Err(Conflict) else Ok(())
      ensures t == if r.Ok?
                   then old(t).(rooms := old(t).rooms[id := room],
                                channelIndex := old(t).channelIndex[room.channel := id])
                   else old(t)
    {
      if room.channel in t.channelIndex {
        return Err(Conflict);
      }
      t := t.(rooms := t.rooms[id := room], channelIndex := t.channelIndex[room.channel := id]);
      return Ok(());
    }

    method GetRoom(id: nat) returns (r: Result<Room, DbError>)
      ensures r == if id in t.rooms then Ok(t.rooms[id]) else Err(NotFound)
    {
      return if id in t.rooms then Ok(t.rooms[id]) else Err(NotFound);
    }

    /** UPDATE rooms SET name = ?, archived = ?: the channel stays. */
    method UpdateRoom(id: nat, room: Room) returns (r: Result<(), DbError>)
      modifies this
      ensures r == if id in old(t).rooms then Ok(()) else Err(NotFound)
      ensures t == if r.Ok?
                   then old(t).(rooms := old(t).rooms[id :=
                          old(t).rooms[id].(name := room.name, archived := room.archived)])
                   else old(t)
    {
      if id !in t.rooms {
        return Err(NotFound);
      }
      t := t.(rooms := t.rooms[id := t.rooms[id].(name := room.name, archived := room.archived)]);
      return Ok(());
    }

    method DeleteRoom(id: nat) returns (r: Result<(), DbError>)
      modifies this
      ensures r == if id in old(t).rooms then Ok(()) else Err(NotFound)
      ensures t == if r.Ok? then RoomGone(old(t), id) else old(t)
      ensures r.Ok? ==> id in old(t).rooms && RoomDeleted(old(t), t, id)
    {
      if id !in t.rooms {
        return Err(NotFound);
      }
      RoomGoneIs(t, id);
      t := RoomGone(t, id);
      return Ok(());
    }

    method DeleteAccount(id: string) returns (r: Result<(), DbError>)
      modifies this
      ensures r == if HasAccount(old(t), id) then Ok(()) else Err(NotFound)
      ensures t == if r.Ok? then AccountGone(old(t), id) else old(t)
      ensures r.Ok? ==> AccountDeleted(old(t), t, id)
    {
      if !HasAccount(t, id) {
        return Err(NotFound);
      }
      AccountGoneIs(t, id);
      t := AccountGone(t, id);
      return Ok(());
    }

    method UpsertMembership(k: (string, nat), subscribed: bool, joinedAt: int) returns (r: Result<(), DbError>)
      modifies this
      ensures r == if HasAccount(old(t), k.0) && k.1 in old(t).rooms then Ok(()) else Err(Internal)
      ensures t == if r.Ok? then Joined(old(t), k, subscribed, joinedAt) else old(t)
      ensures r.Ok? ==>
                t == old(t).(memberships := old(t).memberships[k := Membership(subscribed,
                       if k in old(t).memberships then old(t).memberships[k].joinedAt else joinedAt)])
    {
      if !(HasAccount(t, k.0) && k.1 in t.rooms) {
        return Err(Internal);
      }
      t := Joined(t, k, subscribed, joinedAt);
      return Ok(());
    }

    method SetSubscribed(k: (string, nat), subscribed: bool) returns (r: Result<(), DbError>)
      modifies this
      ensures r == if k in old(t).memberships then Ok(()) else Err(NotFound)
      ensures t == if r.Ok?
                   then old(t).(memberships := old(t).memberships[k :=
                          old(t).memberships[k].(subscribed := subscribed)])
                   else old(t)
    {
      if k !in t.memberships {
        return Err(NotFound);
      }
      t := t.(memberships := t.memberships[k := t.memberships[k].(subscribed := subscribed)]);
      return Ok(());
    }

    method DeleteMembership(k: (string, nat)) returns (r: Result<(), DbError>)
      modifies this
      ensures r == if k in old(t).memberships then Ok(()) else Err(NotFound)
      ensures t == if r.Ok? then old(t).(memberships := old(t).memberships - {k}) else old(t)
    {
      if k !in t.memberships {
        return Err(NotFound);
      }
      t := t.(memberships := t.memberships - {k});
      return Ok(());
    }

    /** RecordVia: the row may be refused, which fails the transaction. */
    method Record(a: Audit, accepted: bool) returns (r: Result<(), DbError>)
      modifies this
      ensures r == if accepted then Ok(()) else Err(Internal)
      ensures t == if accepted then old(t).(audit := old(t).audit + [a]) else old(t)
    {
      if !accepted {
        return Err(Internal);
      }
      t := t.(audit := t.audit + [a]);
      return Ok(());
    }
  }
}
