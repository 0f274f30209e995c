/**
 Two code paths write the same Discord message: the transaction of SendMessage
 (internal/api/v1/messages.go) and the ingester's transaction for the gateway echo
 (internal/message/ingester.go), which every online bot runs once.  The loops of both
 are methods over one connection; each is proved equal to a function on the tables.
 */
module Convergence {
  import opened Wrappers
  import opened Lists
  import opened Store
  import opened SnapshotChanges

  // ---------------------------------------------------------------- inputs

  datatype Upload = Upload(path: string, name: string, mime: string, size: int)

  /** An attachment as the provider's answer to a send names it. */
  datatype SentFile = SentFile(filename: string, url: string)

  /** What SendMessage brings to its write transaction; `now` is its clock. */
  datatype Send = Send(
    id: nat, room: nat, actor: string, discordId: string, content: string, replyTo: Option<nat>,
    priority: Priority, createdAt: int, everyone: bool, mentioned: seq<string>,
    uploads: seq<Upload>, sent: seq<SentFile>, now: int)

  datatype EventFile = EventFile(filename: string, size: int, mime: string, url: string)

  /** A gateway event and the fresh id the ingester draws for it. */
  datatype Event = Event(
    id: nat, channel: string, authorId: string, discordId: string, content: string, createdAt: int,
    everyone: bool, mentioned: seq<string>, files: seq<EventFile>, now: int)

  // ---------------------------------------------------------------- the two transactions as functions

  /** The first account with this bot user id. */
  function FirstOwner(accounts: seq<Account>, botId: string): Option<string> {
    if accounts == [] then None
    else if accounts[0].botUserId == botId then Some(accounts[0].id)
    else FirstOwner(accounts[1..], botId)
  }

  function AuthorOf(accounts: seq<Account>, authorId: string): Option<string> {
    if authorId == "" then None else FirstOwner(accounts, authorId)
  }

  /** The map byBotID: a later account overwrites an earlier one. */
  function LastOwners(accounts: seq<Account>): map<string, string> {
    if accounts == [] then map[]
    else
      var n := |accounts| - 1;
      var rest := LastOwners(accounts[..n]);
      if accounts[n].botUserId != "" then rest[accounts[n].botUserId := accounts[n].id] else rest
  }

  /** The members of the room that the event's mentions reach. */
  function Targets(t: Tables, room: nat, botIds: seq<string>): set<string> {
    var owners := LastOwners(t.accounts);
    set i | 0 <= i < |botIds| && botIds[i] in owners && owners[botIds[i]] in Members(t, room) :: owners[botIds[i]]
  }

  /** One state row per account; read only for the reader, and a first read time stays. */
  function FanOut(states: map<(nat, string), Option<int>>, mid: nat, accounts: set<string>, reader: Option<string>,
                  now: int): map<(nat, string), Option<int>> {
    map k | k in states.Keys + Cells(mid, accounts) ::
      if k in Cells(mid, accounts) then Coalesce(states, k, if reader == Some(k.1) then Some(now) else None)
      else states[k]
  }

  function EventRow(t: Tables, room: nat, e: Event): Message {
    Message(room, AuthorOf(t.accounts, e.authorId), e.discordId, e.content, None, Normal, e.createdAt,
            Hash(e.content), e.everyone)
  }

  function Placeholders(mid: nat, files: seq<EventFile>, next: nat): seq<Attachment> {
    seq(|files|, i requires 0 <= i < |files| =>
      Attachment(next + i, mid, files[i].filename, files[i].size, files[i].mime, "", files[i].url, None))
  }

  /** The members whose state the ingester publishes after the commit. */
  function Notified(t: Tables, e: Event): set<string> {
    if e.channel !in t.channelIndex then {}
    else
      var room := t.channelIndex[e.channel];
      if e.discordId !in t.discordIndex || e.everyone || Targets(t, room, e.mentioned) != {} then Members(t, room)
        else {}
  }

  predicate NamesFiles(files: seq<EventFile>) {
    forall i :: 0 <= i < |files| ==> files[i].filename != ""
  }

  function RowId(t: Tables, discordId: string, drawn: nat): nat {
    if discordId in t.discordIndex then t.discordIndex[discordId] else drawn
  }

  /** The state rows and attachment placeholders of a newly inserted message. */
  function FannedOut(t: Tables, mid: nat, room: nat, e: Event): Tables {
    t.(states := FanOut(t.states, mid, Members(t, room), AuthorOf(t.accounts, e.authorId), e.now),
       attachments := t.attachments + Placeholders(mid, e.files, t.nextFile),
       nextFile := t.nextFile + |e.files|)
  }

  /** The mention metadata, written on the inserted and on the conflict path. */
  function MetadataMerged(t: Tables, mid: nat, room: nat, e: Event): Tables
    requires mid in t.messages
  {
    t.(messages := t.messages[mid := t.messages[mid].(everyone := t.messages[mid].everyone || e.everyone)],
       mentions := t.mentions + Cells(mid, Targets(t, room, e.mentioned)))
  }

  /** What the ingest transaction leaves when it commits, for a channel that has a room. */
  function Ingested(t: Tables, e: Event): Tables
    requires e.channel in t.channelIndex
    requires e.discordId in t.discordIndex ==> t.discordIndex[e.discordId] in t.messages
  {
    var room := t.channelIndex[e.channel];
    var mid := RowId(t, e.discordId, e.id);
    var t2 := MetadataMerged(InsertIgnore(t, e.id, EventRow(t, room, e)), mid, room, e);
    if e.discordId in t.discordIndex then t2
    else FannedOut(t2, mid, room, e)
  }

  function IngestTx(t: Tables, e: Event): Result<Tables, DbError>
    requires e.discordId in t.discordIndex ==> t.discordIndex[e.discordId] in t.messages
  {
    if e.channel !in t.channelIndex then Ok(t)
    else if e.discordId !in t.discordIndex && !NamesFiles(e.files) then Err(InvalidArgument)
    else Ok(Ingested(t, e))
  }

  function SentRow(s: Send): Message {
    Message(s.room, Some(s.actor), s.discordId, s.content, s.replyTo, s.priority, s.createdAt, Hash(s.content),
            s.everyone)
  }

  /** The provider's name for the i-th file wins over the caller's. */
  function FileName(s: Send, i: nat): string
    requires i < |s.uploads|
  {
    if i < |s.sent| && s.sent[i].filename != "" then s.sent[i].filename else s.uploads[i].name
  }

  function FileUrl(s: Send, i: nat): string {
    if i < |s.sent| then s.sent[i].url else ""
  }

  function SendRowAt(s: Send, mid: nat, i: nat, id: nat): Attachment
    requires i < |s.uploads|
  {
    Attachment(id, mid, FileName(s, i), s.uploads[i].size, s.uploads[i].mime, s.uploads[i].path, FileUrl(s, i),
               Some(s.now))
  }

  /** The first `k` placeholders patched with the first `k` uploads. */
  function Patched(rows: seq<Attachment>, existing: seq<Attachment>, s: Send, k: nat): seq<Attachment>
    requires k <= |existing| && k <= |s.uploads|
  {
    if k == 0 then rows
    else MarkRow(Patched(rows, existing, s, k - 1), existing[k - 1].id, s.uploads[k - 1].path, s.now)
  }

  /** New rows for the uploads from `k` up to `n`. */
  function CreatedRows(s: Send, mid: nat, k: nat, n: nat, next: nat): seq<Attachment>
    requires k <= n <= |s.uploads|
  {
    seq(n - k, j requires 0 <= j < n - k => SendRowAt(s, mid, k + j, next + j))
  }

  /** The attachment table after the first `n` uploads have been handled. */
  function SentFiles(t: Tables, existing: seq<Attachment>, mid: nat, s: Send, n: nat): seq<Attachment>
    requires n <= |s.uploads|
  {
    var k := Min(n, |existing|);
    Patched(t.attachments, existing, s, k) + CreatedRows(s, mid, k, n, t.nextFile)
  }

  function ExistingFiles(t: Tables, s: Send): seq<Attachment> {
    if s.discordId in t.discordIndex then FilesOf(t.attachments, t.discordIndex[s.discordId]) else []
  }

  /** The message row after insert-or-ignore and, on a conflict, ApplySendMetadata. */
  function RowWritten(t: Tables, s: Send): Tables
    requires s.discordId in t.discordIndex ==> t.discordIndex[s.discordId] in t.messages
  {
    var mid := RowId(t, s.discordId, s.id);
    if s.discordId !in t.discordIndex then InsertIgnore(t, s.id, SentRow(s))
    else
      t.(messages := t.messages[mid := t.messages[mid].(
           author := Some(s.actor), replyTo := s.replyTo, priority := s.priority,
           contentHash := Hash(s.content), everyone := t.messages[mid].everyone || s.everyone)])
  }

  function WithFiles(t: Tables, existing: seq<Attachment>, mid: nat, s: Send, n: nat): Tables
    requires n <= |s.uploads|
  {
    t.(attachments := SentFiles(t, existing, mid, s, n), nextFile := t.nextFile + n - Min(n, |existing|))
  }

  /** The mention and state rows: the author has a state even when not a member. */
  function Addressed(t: Tables, mid: nat, s: Send): Tables {
    t.(mentions := t.mentions + Cells(mid, Named(s.mentioned)),
       states := FanOut(t.states, mid, Members(t, s.room) + {s.actor}, Some(s.actor), s.now))
  }

  /** What the send transaction leaves when it commits. */
  function Sent(t: Tables, s: Send): Tables
    requires s.discordId in t.discordIndex ==> t.discordIndex[s.discordId] in t.messages
  {
    var mid := RowId(t, s.discordId, s.id);
    var t1 := WithFiles(Addressed(RowWritten(t, s), mid, s), ExistingFiles(t, s), mid, s, |s.uploads|);
    t1.(audit := t.audit + [MessageSend(s.actor, mid, s.discordId in t.discordIndex)])
  }

  predicate InsertRefs(t: Tables, s: Send) {
    (s.discordId !in t.discordIndex ==> s.room in t.rooms) && ReferencesExist(t, Some(s.actor), s.replyTo)
  }

  /** Every row the send refers to is there. */
  predicate SendRefs(t: Tables, s: Send) {
    InsertRefs(t, s) && AreAccounts(t, Named(s.mentioned))
  }

  predicate AreAccounts(t: Tables, accounts: set<string>) {
    forall a | a in accounts :: HasAccount(t, a)
  }

  /** Every file that has no placeholder, and so needs a new row, has a name. */
  predicate SendNames(existing: seq<Attachment>, s: Send) {
    forall i :: |existing| <= i < |s.uploads| ==> FileName(s, i) != ""
  }

  function SendTx(t: Tables, s: Send): Result<Tables, DbError>
    requires s.discordId in t.discordIndex ==> t.discordIndex[s.discordId] in t.messages
  {
    if !SendRefs(t, s) then Err(Internal)
    else if !SendNames(ExistingFiles(t, s), s) then Err(InvalidArgument)
    else Ok(Sent(t, s))
  }

  // ---------------------------------------------------------------- the two transactions as code

  /** The i-th account is the first with this bot user id. */
  predicate OwnsFirst(accounts: seq<Account>, i: int, botId: string) {
    0 <= i < |accounts| && accounts[i].botUserId == botId && forall j | 0 <= j < i :: accounts[j].botUserId != botId
  }

  /** The i-th account is the last with this bot user id, which is not empty. */
  predicate OwnsLast(accounts: seq<Account>, i: int, botId: string) {
    && 0 <= i < |accounts| && botId != "" && accounts[i].botUserId == botId
    && forall j | i < j < |accounts| :: accounts[j].botUserId != botId
  }

  lemma {:induction false} SomeFirst(accounts: seq<Account>, botId: string)
    ensures FirstOwner(accounts, botId).Some? ==> exists i :: 0 <= i < |accounts| && accounts[i].botUserId == botId
  {
    if accounts != [] && accounts[0].botUserId != botId && FirstOwner(accounts, botId).Some? {
      SomeFirst(accounts[1..], botId);
      var i :| 0 <= i < |accounts[1..]| && accounts[1..][i].botUserId == botId;
      assert accounts[i + 1].botUserId == botId;
    }
  }

  lemma {:induction false} FirstOwnerIs(accounts: seq<Account>, botId: string)
    ensures FirstOwner(accounts, botId).None? <==> forall i | 0 <= i < |accounts| :: accounts[i].botUserId != botId
    ensures forall i | OwnsFirst(accounts, i, botId) :: FirstOwner(accounts, botId) == Some(accounts[i].id)
  {
    SomeFirst(accounts, botId);
    if accounts != [] && accounts[0].botUserId != botId {
      FirstOwnerIs(accounts[1..], botId);
      forall i | 0 <= i < |accounts| ensures i > 0 ==> accounts[i] == accounts[1..][i - 1] {
      }
      forall i | OwnsFirst(accounts, i, botId) ensures FirstOwner(accounts, botId) == Some(accounts[i].id) {
        assert OwnsFirst(accounts[1..], i - 1, botId);
      }
    }
  }

  lemma {:induction false} LastOwnersAre(accounts: seq<Account>, botId: string)
    ensures botId in LastOwners(accounts)
            <==> botId != "" && exists i :: 0 <= i < |accounts| && accounts[i].botUserId == botId
    ensures forall i | OwnsLast(accounts, i, botId) ::
              botId in LastOwners(accounts) && LastOwners(accounts)[botId] == accounts[i].id
  {
    if accounts != [] {
      var n := |accounts| - 1;
      LastOwnersAre(accounts[..n], botId);
      assert accounts == accounts[..n] + [accounts[n]];
      forall i | OwnsLast(accounts, i, botId)
        ensures botId in LastOwners(accounts) && LastOwners(accounts)[botId] == accounts[i].id
      {
        if i < n {
          assert OwnsLast(accounts[..n], i, botId);
        }
      }
    }
  }

  lemma {:induction false} LastOwnerOf(accounts: seq<Account>, botId: string) returns (i: nat)
    requires botId in LastOwners(accounts)
    ensures OwnsLast(accounts, i, botId) && LastOwners(accounts)[botId] == accounts[i].id
  {
    i := |accounts| - 1;
    if accounts[i].botUserId != botId {
      i := LastOwnerOf(accounts[..i], botId);
    }
    LastOwnersAre(accounts, botId);
  }

  /** The i-th mention names the j-th account, a member of the room. */
  predicate Names(t: Tables, room: nat, botIds: seq<string>, i: int, j: int) {
    0 <= i < |botIds| && OwnsLast(t.accounts, j, botIds[i]) && (t.accounts[j].id, room) in t.memberships
  }

  /** The accounts reached: for each mention the last account with that bot user id, if it is a member. */
  lemma TargetsAre(t: Tables, room: nat, botIds: seq<string>, a: string)
    ensures a in Targets(t, room, botIds) <==> exists i, j :: Names(t, room, botIds, i, j) && t.accounts[j].id == a
  {
    if a in Targets(t, room, botIds) {
      var i :| 0 <= i < |botIds| && botIds[i] in LastOwners(t.accounts)
               && LastOwners(t.accounts)[botIds[i]] in Members(t, room) && LastOwners(t.accounts)[botIds[i]] == a;
      var j := LastOwnerOf(t.accounts, botIds[i]);
      assert Names(t, room, botIds, i, j);
    }
    if i, j :| Names(t, room, botIds, i, j) && t.accounts[j].id == a {
      LastOwnersAre(t.accounts, botIds[i]);
      assert (a, room).0 in Members(t, room);
    }
  }

  method ResolveAuthor(accounts: seq<Account>, authorId: string) returns (r: Option<string>)
    ensures r == AuthorOf(accounts, authorId)
    ensures r.None? <==> authorId == "" || forall i | 0 <= i < |accounts| :: accounts[i].botUserId != authorId
    ensures authorId != "" ==> forall i | OwnsFirst(accounts, i, authorId) :: r == Some(accounts[i].id)
  {
    FirstOwnerIs(accounts, authorId);
    if authorId == "" {
      return None;
    }
    var i := 0;
    while i < |accounts|
      invariant 0 <= i <= |accounts|
      invariant FirstOwner(accounts, authorId) == FirstOwner(accounts[i..], authorId)
    {
      assert accounts[i..][1..] == accounts[i + 1..];
      if accounts[i].botUserId == authorId {
        return Some(accounts[i].id);
      }
      i := i + 1;
    }
    return None;
  }

  /** Unknown bots and non-members drop out, and no account is listed twice. */
  method ResolveMentions(t: Tables, room: nat, botIds: seq<string>) returns (out: seq<string>)
    ensures (set i | 0 <= i < |out| :: out[i]) == Targets(t, room, botIds)
    ensures forall a :: a in out <==> exists i, j :: Names(t, room, botIds, i, j) && t.accounts[j].id == a
    ensures forall i, j | 0 <= i < j < |out| :: out[i] != out[j]
  {
    var byBotId: map<string, string> := map[];
    var i := 0;
    while i < |t.accounts|
      invariant 0 <= i <= |t.accounts|
      invariant byBotId == LastOwners(t.accounts[..i])
    {
      assert t.accounts[..i + 1][..i] == t.accounts[..i];
      if t.accounts[i].botUserId != "" {
        byBotId := byBotId[t.accounts[i].botUserId := t.accounts[i].id];
      }
      i := i + 1;
    }
    assert t.accounts[..i] == t.accounts;
    out := [];
    var seen: set<string> := {};
    var members := Members(t, room);
    i := 0;
    while i < |botIds|
      invariant 0 <= i <= |botIds|
      invariant seen == (set j | 0 <= j < |out| :: out[j]) == Targets(t, room, botIds[..i])
      invariant forall j, k | 0 <= j < k < |out| :: out[j] != out[k]
    {
      TargetsGrow(t, room, botIds, i);
      if botIds[i] in byBotId && byBotId[botIds[i]] in members && byBotId[botIds[i]] !in seen {
        ghost var before := out;
        seen := seen + {byBotId[botIds[i]]};
        out := out + [byBotId[botIds[i]]];
        AppendElems(before, byBotId[botIds[i]]);
      }
      i := i + 1;
    }
    assert botIds[..i] == botIds;
    forall a ensures a in out <==> exists i, j :: Names(t, room, botIds, i, j) && t.accounts[j].id == a {
      TargetsAre(t, room, botIds, a);
      assert a in out <==> a in (set j | 0 <= j < |out| :: out[j]);
    }
  }

  lemma TargetsGrow(t: Tables, room: nat, botIds: seq<string>, i: nat)
    requires i < |botIds|
    ensures var owners := LastOwners(t.accounts);
            Targets(t, room, botIds[..i + 1]) == Targets(t, room, botIds[..i])
              + if botIds[i] in owners && owners[botIds[i]] in Members(t, room) then {owners[botIds[i]]} else {}
  {
    var owners := LastOwners(t.accounts);
    var rest := if botIds[i] in owners && owners[botIds[i]] in Members(t, room) then {owners[botIds[i]]} else {};
    forall a | a in Targets(t, room, botIds[..i + 1]) ensures a in Targets(t, room, botIds[..i]) + rest {
      var j :| 0 <= j < i + 1 && botIds[..i + 1][j] in owners && owners[botIds[..i + 1][j]] in Members(t, room)
          && owners[botIds[..i + 1][j]] == a;
      if j < i {
        assert botIds[..i][j] == botIds[j];
      }
    }
    forall a | a in Targets(t, room, botIds[..i]) + rest ensures a in Targets(t, room, botIds[..i + 1]) {
      if a in rest {
        assert botIds[..i + 1][i] == botIds[i];
      } else {
        var j :| 0 <= j < i && botIds[..i][j] in owners && owners[botIds[..i][j]] in Members(t, room)
            && owners[botIds[..i][j]] == a;
        assert botIds[..i + 1][j] == botIds[j];
      }
    }
  }

  lemma AppendElems(out: seq<string>, a: string)
    ensures (set j | 0 <= j < |out + [a]| :: (out + [a])[j]) == (set j | 0 <= j < |out| :: out[j]) + {a}
  {
    var s := out + [a];
    assert s[|out|] == a;
    forall j | 0 <= j < |out| ensures s[j] == out[j] && out[j] in (set j | 0 <= j < |s| :: s[j]) {
      assert s[j] == out[j];
    }
  }

  /** One Upsert per account, in whatever order the members come. */
  method FanOutStates(db: Db, mid: nat, accounts: set<string>, reader: Option<string>, now: int)
    returns (r: Result<(), DbError>)
    requires mid in db.t.messages && AreAccounts(db.t, accounts)
    modifies db
    ensures r == Ok(())
    ensures db.t == old(db.t).(states := FanOut(old(db.t).states, mid, accounts, reader, now))
  {
    ghost var before := db.t.states;
    ghost var done: set<string> := {};
    var rest := accounts;
    assert FanOut(before, mid, {}, reader, now) == before;
    while rest != {}
      invariant rest + done == accounts && rest !! done
      invariant db.t == old(db.t).(states := FanOut(before, mid, done, reader, now))
      decreases rest
    {
      var a :| a in rest;
      FanOutGrows(before, mid, done, a, reader, now);
      var u := db.UpsertState((mid, a), if reader == Some(a) then Some(now) else None);
      assert HasAccount(old(db.t), a);
      done := done + {a};
      rest := rest - {a};
    }
    assert done == accounts;
    return Ok(());
  }

  lemma FanOutGrows(states: map<(nat, string), Option<int>>, mid: nat, done: set<string>, a: string,
                    reader: Option<string>, now: int)
    requires a !in done
    ensures var f := FanOut(states, mid, done, reader, now);
            FanOut(states, mid, done + {a}, reader, now)
              == f[(mid, a) := Coalesce(f, (mid, a), if reader == Some(a) then Some(now) else None)]
  {
    assert Cells(mid, done + {a}) == Cells(mid, done) + {(mid, a)};
    assert (mid, a) !in Cells(mid, done);
  }

  /** One new row per file, not downloaded. */
  ghost predicate HoldsFiles(t: Tables, t1: Tables, mid: nat, files: seq<EventFile>) {
    && |t1.attachments| == |t.attachments| + |files| && t.attachments <= t1.attachments
    && forall i | 0 <= i < |files| ::
         t1.attachments[|t.attachments| + i] ==
           Attachment(t.nextFile + i, mid, files[i].filename, files[i].size, files[i].mime, "", files[i].url, None)
  }

  method AddPlaceholders(db: Db, mid: nat, files: seq<EventFile>) returns (r: Result<(), DbError>)
    requires mid in db.t.messages
    modifies db
    ensures r == if NamesFiles(files) then Ok(()) else Err(InvalidArgument)
    ensures r.Ok? ==>
              db.t == old(db.t).(attachments := old(db.t).attachments + Placeholders(mid, files, old(db.t).nextFile),
                                 nextFile := old(db.t).nextFile + |files|)
    ensures r.Ok? ==> HoldsFiles(old(db.t), db.t, mid, files)
  {
    ghost var before := db.t;
    var i := 0;
    assert before.attachments + Placeholders(mid, files[..0], before.nextFile) == before.attachments;
    while i < |files|
      invariant 0 <= i <= |files|
      invariant forall j | 0 <= j < i :: files[j].filename != ""
      invariant db.t == before.(attachments := before.attachments + Placeholders(mid, files[..i], before.nextFile),
                                nextFile := before.nextFile + i)
    {
      var f := files[i];
      var c := db.CreateAttachment(mid, f.filename, f.size, f.mime, "", f.url, None);
      if c.Err? {
        return c;
      }
      assert before.attachments + Placeholders(mid, files[..i + 1], before.nextFile)
          == before.attachments + Placeholders(mid, files[..i], before.nextFile)
             + [Attachment(before.nextFile + i, mid, f.filename, f.size, f.mime, "", f.url, None)];
      i := i + 1;
    }
    assert files[..i] == files;
    return Ok(());
  }

  lemma OwnerIsAccount(accounts: seq<Account>, botId: string)
    ensures FirstOwner(accounts, botId).Some?
            ==> exists i :: 0 <= i < |accounts| && accounts[i].id == FirstOwner(accounts, botId).value
  {
    if accounts != [] && accounts[0].botUserId != botId {
      OwnerIsAccount(accounts[1..], botId);
      if FirstOwner(accounts, botId).Some? {
        var i :| 0 <= i < |accounts[1..]| && accounts[1..][i].id == FirstOwner(accounts, botId).value;
        assert accounts[i + 1].id == FirstOwner(accounts, botId).value;
      }
    }
  }

  lemma MembersAreAccounts(t: Tables, room: nat, a: string)
    requires Closed(t) && a in Members(t, room)
    ensures HasAccount(t, a) && room in t.rooms
  {
    assert (a, room) in t.memberships;
  }

  lemma InsertKeepsClosed(t: Tables, id: nat, m: Message)
    requires Closed(t)
    ensures Closed(InsertIgnore(t, id, m))
  {
    var t1 := InsertIgnore(t, id, m);
    forall k | k in t1.memberships ensures k.1 in t1.rooms && HasAccount(t1, k.0) {
      assert HasAccount(t, k.0);
    }
  }

  lemma NamedTargets(targets: seq<string>, t: Tables, room: nat, botIds: seq<string>)
    requires Closed(t)
    requires (set i | 0 <= i < |targets| :: targets[i]) == Targets(t, room, botIds)
    ensures Named(targets) == Targets(t, room, botIds)
    ensures Targets(t, room, botIds) == {} <==> |targets| == 0
    ensures |botIds| == 0 ==> |targets| == 0
  {
    var all := set i | 0 <= i < |targets| :: targets[i];
    forall a | a in all ensures a in Named(targets) {
      MembersAreAccounts(t, room, a);
    }
    if |targets| > 0 {
      assert targets[0] in all;
    }
  }

  method AddTargets(db: Db, mid: nat, targets: seq<string>, room: nat, botIds: seq<string>)
    returns (r: Result<(), DbError>)
    requires mid in db.t.messages && Closed(db.t) && Named(targets) == Targets(db.t, room, botIds)
    modifies db
    ensures r == Ok(())
    ensures db.t == old(db.t).(mentions := old(db.t).mentions + Cells(mid, Targets(old(db.t), room, botIds)))
  {
    forall a | a in Named(targets) ensures HasAccount(db.t, a) {
      MembersAreAccounts(db.t, room, a);
    }
    r := db.AddMentions(mid, targets);
  }

  /** MergeMentionEveryone and AddForMessage; tells whether either wrote something. */
  method MergeMetadata(db: Db, mid: nat, room: nat, e: Event) returns (changed: bool)
    requires Closed(db.t) && mid in db.t.messages
    modifies db
    ensures db.t == MetadataMerged(old(db.t), mid, room, e)
    ensures changed == (e.everyone || Targets(old(db.t), room, e.mentioned) != {})
  {
    changed := false;
    ghost var start := db.t;
    if e.everyone {
      var m := db.MergeMentionEveryone(mid, true);
      changed := true;
    }
    var targets := ResolveMentions(db.t, room, e.mentioned);
    NamedTargets(targets, start, room, e.mentioned);
    if |e.mentioned| > 0 && |targets| > 0 {
      EveryoneKeepsClosed(start, mid);
      var a := AddTargets(db, mid, targets, room, e.mentioned);
      changed := true;
    }
  }

  lemma EveryoneKeepsClosed(t: Tables, mid: nat)
    requires Closed(t) && mid in t.messages
    ensures Closed(t.(messages := t.messages[mid := t.messages[mid].(everyone := true)]))
  {
    var t1 := t.(messages := t.messages[mid := t.messages[mid].(everyone := true)]);
    forall k | k in t1.memberships ensures k.1 in t1.rooms && HasAccount(t1, k.0) {
      assert HasAccount(t, k.0);
    }
  }

  method FanOutNew(db: Db, mid: nat, room: nat, author: Option<string>, e: Event) returns (r: Result<(), DbError>)
    requires mid in db.t.messages && author == AuthorOf(db.t.accounts, e.authorId)
    requires AreAccounts(db.t, Members(db.t, room))
    modifies db
    ensures r == if NamesFiles(e.files) then Ok(()) else Err(InvalidArgument)
    ensures r.Ok? ==> db.t == FannedOut(old(db.t), mid, room, e)
  {
    var f := FanOutStates(db, mid, Members(db.t, room), author, e.now);
    r := AddPlaceholders(db, mid, e.files);
  }

  /** resolveAuthor, then insert-or-ignore; the author is an account, so the insert cannot fail. */
  method InsertEvent(db: Db, room: nat, e: Event) returns (mid: nat, inserted: bool, author: Option<string>)
    requires Indexed(db.t) && Closed(db.t) && room in db.t.rooms
    modifies db
    ensures db.t == InsertIgnore(old(db.t), e.id, EventRow(old(db.t), room, e)) && Closed(db.t)
    ensures mid == RowId(old(db.t), e.discordId, e.id) && mid in db.t.messages
    ensures inserted == (e.discordId !in old(db.t).discordIndex)
    ensures author == AuthorOf(db.t.accounts, e.authorId)
  {
    author := ResolveAuthor(db.t.accounts, e.authorId);
    OwnerIsAccount(db.t.accounts, e.authorId);
    var row := Message(room, author, e.discordId, e.content, None, Normal, e.createdAt, Hash(e.content), e.everyone);
    InsertKeepsClosed(db.t, e.id, row);
    var c := db.CreateIgnoreConflict(e.id, row);
    assert c.Ok?;
    mid, inserted := c.value.0, c.value.1;
  }

  /** The body of the ingest transaction; the answer is the set of members to publish. */
  method IngestBody(db: Db, e: Event) returns (r: Result<set<string>, DbError>)
    requires Keyed(db.t) && e.id !in db.t.messages
    modifies db
    ensures r.Ok? <==> IngestTx(old(db.t), e).Ok?
    ensures r.Err? ==> r.error == IngestTx(old(db.t), e).error
    ensures r.Ok? ==> db.t == IngestTx(old(db.t), e).value && r.value == Notified(old(db.t), e)
  {
    if e.channel !in db.t.channelIndex {
      return Ok({});
    }
    var room := db.t.channelIndex[e.channel];
    var mid, inserted, author := InsertEvent(db, room, e);
    var changed := MergeMetadata(db, mid, room, e);
    assert db.t == MetadataMerged(InsertIgnore(old(db.t), e.id, EventRow(old(db.t), room, e)), mid, room, e);
    var members := Members(db.t, room);
    if !inserted {
      return Ok(if changed then members else {});
    }
    MemberAccounts(old(db.t), db.t, room);
    var p := FanOutNew(db, mid, room, author, e);
    if p.Err? {
      return Err(p.error);
    }
    return Ok(members);
  }

  lemma MemberAccounts(t: Tables, t1: Tables, room: nat)
    requires Closed(t) && t1.memberships == t.memberships && t1.accounts == t.accounts
    ensures AreAccounts(t1, Members(t1, room))
  {
    forall a | a in Members(t1, room) ensures HasAccount(t1, a) {
      MembersAreAccounts(t, room, a);
      assert HasAccount(t, a);
    }
  }

  /** The stored message of this Discord id, if there is one, is in the event's room. */
  predicate InItsRoom(t: Tables, e: Event) {
    e.channel in t.channelIndex && e.discordId in t.discordIndex && t.discordIndex[e.discordId] in t.messages ==>
      t.messages[t.discordIndex[e.discordId]].room == t.channelIndex[e.channel]
  }

  /** The account is a member of the event's room. */
  predicate OfItsRoom(t: Tables, e: Event, a: string) {
    e.channel in t.channelIndex && (a, t.channelIndex[e.channel]) in t.memberships
  }

  lemma CellsOfOthers(mid: nat, accounts: set<string>, a: string)
    requires a !in accounts
    ensures forall m :: (m, a) !in Cells(mid, accounts)
  {
  }

  lemma NotMemberUnaffected(t: Tables, e: Event, a: string)
    requires Indexed(t) && e.id !in t.messages && e.channel in t.channelIndex && InItsRoom(t, e)
    requires a !in Members(t, t.channelIndex[e.channel])
    ensures !Affected(t, Ingested(t, e), a)
  {
    var (room, mid) := (t.channelIndex[e.channel], RowId(t, e.discordId, e.id));
    CellsOfOthers(mid, Targets(t, room, e.mentioned), a);
    CellsOfOthers(mid, Members(t, room), a);
    assert (a, room) !in t.memberships by {
      assert (a, room) in t.memberships ==> (a, room).0 in Members(t, room);
    }
    SameForUnaffected(t, Ingested(t, e), a, mid);
  }

  /** A known message that the event tells nothing new about. */
  lemma NothingNew(t: Tables, e: Event)
    requires Indexed(t) && e.channel in t.channelIndex && e.discordId in t.discordIndex
    requires !e.everyone && Targets(t, t.channelIndex[e.channel], e.mentioned) == {}
    ensures Ingested(t, e) == t
  {
    var mid := t.discordIndex[e.discordId];
    assert Cells(mid, {}) == {};
    assert t.messages[mid := t.messages[mid].(everyone := t.messages[mid].everyone || false)] == t.messages;
  }

  lemma AffectedIsNotified(t: Tables, e: Event, a: string)
    requires Indexed(t) && e.id !in t.messages && IngestTx(t, e).Ok?
    requires Affected(t, IngestTx(t, e).value, a)
    ensures a in Notified(t, e) <==> OfItsRoom(t, e, a)
    ensures InItsRoom(t, e) ==> a in Notified(t, e)
  {
    SameTablesUnaffected(t, t, a);
    if e.channel in t.channelIndex {
      assert OfItsRoom(t, e, a) ==> (a, t.channelIndex[e.channel]).0 in Members(t, t.channelIndex[e.channel]);
      if a !in Members(t, t.channelIndex[e.channel]) {
        if InItsRoom(t, e) {
          NotMemberUnaffected(t, e, a);
        }
      } else if a !in Notified(t, e) {
        NothingNew(t, e);
      }
    }
  }

  /** A new message has its row, and one placeholder per file. */
  ghost predicate IsNew(t: Tables, t1: Tables, e: Event) {
    && e.channel in t.channelIndex && HoldsFiles(t, t1, e.id, e.files)
    && t1.messages == t.messages[e.id :=
         Message(t.channelIndex[e.channel], AuthorOf(t.accounts, e.authorId), e.discordId, e.content, None, Normal,
                 e.createdAt, Hash(e.content), e.everyone)]
  }

  lemma IngestedIsNew(t: Tables, e: Event)
    requires e.channel in t.channelIndex && e.discordId !in t.discordIndex
    ensures IsNew(t, Ingested(t, e), e)
  {
    assert t.attachments + Placeholders(e.id, e.files, t.nextFile) == Ingested(t, e).attachments;
  }

  /**
   ingestNew: the transaction commits as a whole or leaves nothing.  It publishes nobody or
   the whole room: everybody whose snapshot the commit has changed, all members when the
   message is new or the event brings a ping or a mention, and nobody when it brings nothing.
   */
  method IngestNew(db: Db, e: Event) returns (r: Result<set<string>, DbError>)
    requires Keyed(db.t) && e.id !in db.t.messages
    modifies db
    ensures r.Ok? <==> IngestTx(old(db.t), e).Ok?
    ensures r.Err? ==> r.error == IngestTx(old(db.t), e).error
    ensures db.t == if r.Ok? then IngestTx(old(db.t), e).value else old(db.t)
    ensures e.channel !in old(db.t).channelIndex ==> r == Ok({})
    ensures r.Ok? ==> forall a | Affected(old(db.t), db.t, a) ::
              && (a in r.value <==> OfItsRoom(old(db.t), e, a)) && (InItsRoom(old(db.t), e) ==> a in r.value)
    ensures r.Ok? && e.channel in old(db.t).channelIndex ==>
              var room := old(db.t).channelIndex[e.channel];
              r.value == if e.discordId !in old(db.t).discordIndex || e.everyone
                            || Targets(old(db.t), room, e.mentioned) != {}
                         then Members(old(db.t), room) else {}
    ensures r.Ok? && e.channel in old(db.t).channelIndex && e.discordId !in old(db.t).discordIndex ==>
              IsNew(old(db.t), db.t, e)
  {
    var saved := db.t;
    if e.channel in saved.channelIndex && e.discordId !in saved.discordIndex {
      IngestedIsNew(saved, e);
    }
    r := IngestBody(db, e);
    if r.Err? {
      db.t := saved;
    } else {
      forall a | Affected(saved, db.t, a)
        ensures (a in r.value <==> OfItsRoom(saved, e, a)) && (InItsRoom(saved, e) ==> a in r.value)
      {
        AffectedIsNotified(saved, e, a);
      }
    }
  }

  // ---------------------------------------------------------------- attachment rows

  lemma {:induction false} PatchedKeepsIds(rows: seq<Attachment>, existing: seq<Attachment>, s: Send, k: nat)
    requires k <= |existing| && k <= |s.uploads|
    ensures |Patched(rows, existing, s, k)| == |rows|
    ensures forall i | 0 <= i < |rows| :: Patched(rows, existing, s, k)[i].id == rows[i].id
  {
    if k > 0 {
      PatchedKeepsIds(rows, existing, s, k - 1);
    }
  }

  /** The rows listed for a message are rows of the table, and are that message's. */
  lemma {:induction false} ListedRows(rows: seq<Attachment>, mid: nat, j: nat)
    requires j < |FilesOf(rows, mid)|
    ensures FilesOf(rows, mid)[j].message == mid
    ensures exists i :: 0 <= i < |rows| && rows[i] == FilesOf(rows, mid)[j]
  {
    var n := |rows| - 1;
    if j < |FilesOf(rows[..n], mid)| {
      ListedRows(rows[..n], mid, j);
      var i :| 0 <= i < |rows[..n]| && rows[..n][i] == FilesOf(rows, mid)[j];
      assert rows[i] == FilesOf(rows, mid)[j];
    } else {
      assert rows[n] == FilesOf(rows, mid)[j];
    }
  }

  ghost predicate RowsHave(rows: seq<Attachment>, existing: seq<Attachment>) {
    forall j | 0 <= j < |existing| :: HasId(rows, existing[j].id)
  }

  ghost predicate HasId(rows: seq<Attachment>, id: nat) {
    exists i :: 0 <= i < |rows| && rows[i].id == id
  }

  lemma ListedRowsHave(rows: seq<Attachment>, mid: nat)
    ensures RowsHave(rows, FilesOf(rows, mid))
  {
    forall j | 0 <= j < |FilesOf(rows, mid)| ensures HasId(rows, FilesOf(rows, mid)[j].id) {
      ListedRows(rows, mid, j);
    }
  }

  lemma PatchedHas(rows: seq<Attachment>, existing: seq<Attachment>, s: Send, k: nat, id: nat)
    requires k <= |existing| && k <= |s.uploads| && HasId(rows, id)
    ensures HasId(Patched(rows, existing, s, k), id)
  {
    PatchedKeepsIds(rows, existing, s, k);
    var i :| 0 <= i < |rows| && rows[i].id == id;
    assert Patched(rows, existing, s, k)[i].id == id;
  }

  /** One round of the upload loop: patch the i-th placeholder if there is one, else insert. */
  method StoreOne(db: Db, ghost before: Tables, existing: seq<Attachment>, mid: nat, s: Send, i: nat)
    returns (r: Result<(), DbError>)
    requires i < |s.uploads| && mid in db.t.messages && RowsHave(before.attachments, existing)
    requires db.t == WithFiles(before, existing, mid, s, i)
    modifies db
    ensures r == if i < |existing| || FileName(s, i) != "" then Ok(()) else Err(InvalidArgument)
    ensures r.Ok? ==> db.t == WithFiles(before, existing, mid, s, i + 1)
  {
    var u := s.uploads[i];
    if i < |existing| {
      StepPatches(before, existing, mid, s, i);
      PatchedHas(before.attachments, existing, s, i, existing[i].id);
      assert db.t.attachments == Patched(before.attachments, existing, s, i);
      assert HasId(db.t.attachments, existing[i].id);
      r := db.MarkDownloaded(existing[i].id, u.path, s.now);
    } else {
      StepCreates(before, existing, mid, s, i);
      r := db.CreateAttachment(mid, FileName(s, i), u.size, u.mime, u.path, FileUrl(s, i), Some(s.now));
    }
  }

  /** The upload loop. */
  method StoreUploads(db: Db, existing: seq<Attachment>, mid: nat, s: Send) returns (r: Result<(), DbError>)
    requires mid in db.t.messages && RowsHave(db.t.attachments, existing)
    modifies db
    ensures r == if SendNames(existing, s) then Ok(()) else Err(InvalidArgument)
    ensures r.Ok? ==> db.t == WithFiles(old(db.t), existing, mid, s, |s.uploads|)
  {
    ghost var before := db.t;
    var i := 0;
    assert SentFiles(before, existing, mid, s, 0) == before.attachments;
    while i < |s.uploads|
      invariant 0 <= i <= |s.uploads|
      invariant forall j | |existing| <= j < i :: FileName(s, j) != ""
      invariant db.t == WithFiles(before, existing, mid, s, i)
    {
      var c := StoreOne(db, before, existing, mid, s, i);
      if c.Err? {
        return c;
      }
      i := i + 1;
    }
    return Ok(());
  }

  lemma StepPatches(t: Tables, existing: seq<Attachment>, mid: nat, s: Send, i: nat)
    requires i < |s.uploads| && i < |existing|
    ensures SentFiles(t, existing, mid, s, i + 1)
            == MarkRow(SentFiles(t, existing, mid, s, i), existing[i].id, s.uploads[i].path, s.now)
  {
    assert SentFiles(t, existing, mid, s, i) == Patched(t.attachments, existing, s, i);
    assert SentFiles(t, existing, mid, s, i + 1) == Patched(t.attachments, existing, s, i + 1);
  }

  lemma StepCreates(t: Tables, existing: seq<Attachment>, mid: nat, s: Send, i: nat)
    requires |existing| <= i < |s.uploads|
    ensures SentFiles(t, existing, mid, s, i + 1)
         == SentFiles(t, existing, mid, s, i) + [SendRowAt(s, mid, i, t.nextFile + i - |existing|)]
  {
  }

  /** Insert the row, or take over the one the ingester wrote. */
  method InsertSend(db: Db, s: Send) returns (r: Result<(nat, bool), DbError>)
    requires Keyed(db.t) && s.id !in db.t.messages
    modifies db
    ensures r == if InsertRefs(old(db.t), s)
            then Ok((RowId(old(db.t), s.discordId, s.id), s.discordId !in old(db.t).discordIndex)) else Err(Internal)
    ensures r.Ok? ==> db.t == RowWritten(old(db.t), s)
  {
    var c := db.CreateIgnoreConflict(s.id, SentRow(s));
    if c.Err? || c.value.1 {
      return c;
    }
    var m := db.ApplySendMetadata(c.value.0, s.actor, s.replyTo, s.priority, Hash(s.content), s.everyone);
    return if m.Ok? then c else Err(m.error);
  }

  /** Mentions, then one state per member, then the author's own. */
  method Address(db: Db, mid: nat, s: Send) returns (r: Result<(), DbError>)
    requires mid in db.t.messages && HasAccount(db.t, s.actor) && AreAccounts(db.t, Members(db.t, s.room))
    modifies db
    ensures r == if AreAccounts(old(db.t), Named(s.mentioned)) then Ok(()) else Err(Internal)
    ensures r.Ok? ==> db.t == Addressed(old(db.t), mid, s)
  {
    ghost var start := db.t;
    r := db.AddMentions(mid, s.mentioned);
    if r.Err? {
      return;
    }
    var members := Members(db.t, s.room);
    forall a | a in members ensures HasAccount(db.t, a) {
      assert HasAccount(start, a);
    }
    r := FanOutStates(db, mid, members, Some(s.actor), s.now);
    assert HasAccount(db.t, s.actor) by {
      assert HasAccount(start, s.actor);
    }
    AuthorLast(start.states, mid, members, s.actor, s.now);
    r := db.UpsertState((mid, s.actor), Some(s.now));
  }

  /** The author's extra Upsert adds one cell, or rewrites the one just written. */
  lemma AuthorLast(states: map<(nat, string), Option<int>>, mid: nat, members: set<string>, actor: string, now: int)
    ensures var f := FanOut(states, mid, members, Some(actor), now);
            FanOut(states, mid, members + {actor}, Some(actor), now)
              == f[(mid, actor) := Coalesce(f, (mid, actor), Some(now))]
  {
    assert Cells(mid, members + {actor}) == Cells(mid, members) + {(mid, actor)};
    assert (mid, actor) in Cells(mid, members) <==> actor in members;
  }

  /** Address, then the upload loop. */
  method Deliver(db: Db, existing: seq<Attachment>, mid: nat, s: Send) returns (r: Result<(), DbError>)
    requires mid in db.t.messages && HasAccount(db.t, s.actor) && RowsHave(db.t.attachments, existing)
    requires AreAccounts(db.t, Members(db.t, s.room))
    modifies db
    ensures r == if !AreAccounts(old(db.t), Named(s.mentioned)) then Err(Internal)
                 else if SendNames(existing, s) then Ok(()) else Err(InvalidArgument)
    ensures r.Ok? ==> db.t == WithFiles(Addressed(old(db.t), mid, s), existing, mid, s, |s.uploads|)
  {
    r := Address(db, mid, s);
    if r.Ok? {
      r := StoreUploads(db, existing, mid, s);
    }
  }

  /** The body of the send transaction; the answer is the row handed back to the caller. */
  method SendBody(db: Db, s: Send, accepted: bool) returns (r: Result<Message, DbError>)
    requires Keyed(db.t) && s.id !in db.t.messages
    modifies db
    ensures r.Ok? <==> SendTx(old(db.t), s).Ok? && accepted
    ensures r.Err? ==> r.error == if SendTx(old(db.t), s).Err? then SendTx(old(db.t), s).error else Internal
    ensures r.Ok? ==> db.t == Sent(old(db.t), s) && RowId(old(db.t), s.discordId, s.id) in db.t.messages
                      && r.value == db.t.messages[RowId(old(db.t), s.discordId, s.id)]
  {
    var existing := ExistingFiles(db.t, s);
    var c := InsertSend(db, s);
    if c.Err? {
      return Err(c.error);
    }
    var (mid, inserted) := c.value;
    var persisted := db.t.messages[mid];
    SendAccounts(old(db.t), db.t, s);
    ExistingHave(old(db.t), s);
    var d := Deliver(db, existing, mid, s);
    if d.Err? {
      return Err(d.error);
    }
    if !accepted {
      return Err(Internal);
    }
    db.t := db.t.(audit := db.t.audit + [MessageSend(s.actor, mid, !inserted)]);
    return Ok(persisted);
  }

  /** Its rows refer to what is there, and every file without a placeholder has a name. */
  ghost predicate Sendable(t: Tables, s: Send) {
    && (s.discordId in t.discordIndex || s.room in t.rooms)
    && (exists i :: 0 <= i < |t.accounts| && t.accounts[i].id == s.actor)
    && (s.replyTo.Some? ==> s.replyTo.value in t.messages)
    && (forall a | a in s.mentioned && a != "" :: exists i :: 0 <= i < |t.accounts| && t.accounts[i].id == a)
    && (forall i | Held(t, s) <= i < |s.uploads| ::
         (i < |s.sent| && s.sent[i].filename != "") || s.uploads[i].name != "")
  }

  /** How many attachment rows the message has before the send. */
  ghost function Held(t: Tables, s: Send): nat {
    if s.discordId in t.discordIndex then |FilesOf(t.attachments, t.discordIndex[s.discordId])| else 0
  }

  lemma SendCommitsIff(t: Tables, s: Send)
    requires s.discordId in t.discordIndex ==> t.discordIndex[s.discordId] in t.messages
    ensures SendTx(t, s).Ok? <==> Sendable(t, s)
  {
    forall a ensures a in Named(s.mentioned) <==> a in s.mentioned && a != "" {
    }
    if Sendable(t, s) {
      forall a | a in Named(s.mentioned) ensures HasAccount(t, a) {
      }
      assert SendNames(ExistingFiles(t, s), s);
    }
    if SendTx(t, s).Ok? {
      forall a | a in s.mentioned && a != "" ensures exists i :: 0 <= i < |t.accounts| && t.accounts[i].id == a {
        assert a in Named(s.mentioned);
        assert HasAccount(t, a);
      }
      forall i | Held(t, s) <= i < |s.uploads|
        ensures (i < |s.sent| && s.sent[i].filename != "") || s.uploads[i].name != ""
      {
        assert FileName(s, i) != "";
      }
    }
  }

  /** The message's row: a new one, or the ingester's with the columns that only the sender knows. */
  ghost predicate HoldsMessage(t: Tables, t1: Tables, s: Send) {
    if s.discordId !in t.discordIndex then
      t1.messages == t.messages[s.id :=
        Message(s.room, Some(s.actor), s.discordId, s.content, s.replyTo, s.priority, s.createdAt, Hash(s.content),
                s.everyone)]
    else
      var mid := t.discordIndex[s.discordId];
      && mid in t.messages
      && var m := t.messages[mid];
      t1.messages == t.messages[mid :=
        Message(m.room, Some(s.actor), m.discordId, m.content, s.replyTo, s.priority, m.createdAt, Hash(s.content),
                m.everyone || s.everyone)]
  }

  lemma SendHoldsMessage(t: Tables, s: Send)
    requires s.discordId in t.discordIndex ==> t.discordIndex[s.discordId] in t.messages
    ensures HoldsMessage(t, Sent(t, s), s)
  {
  }

  /** The i-th upload's own row, downloaded at the send's clock. */
  ghost predicate HoldsUpload(t: Tables, t1: Tables, mid: nat, s: Send, i: int) {
    var k := i - Held(t, s);
    && 0 <= k && i < |s.uploads| && |t.attachments| + k < |t1.attachments|
    && t1.attachments[|t.attachments| + k] ==
         Attachment(t.nextFile + k, mid,
                    if i < |s.sent| && s.sent[i].filename != "" then s.sent[i].filename else s.uploads[i].name,
                    s.uploads[i].size, s.uploads[i].mime, s.uploads[i].path,
                    if i < |s.sent| then s.sent[i].url else "", Some(s.now))
  }

  /** One new row for each file that had no placeholder. */
  ghost predicate HoldsUploads(t: Tables, t1: Tables, mid: nat, s: Send) {
    && |t1.attachments| == |t.attachments| + (if |s.uploads| > Held(t, s) then |s.uploads| - Held(t, s) else 0)
    && forall i | Held(t, s) <= i < |s.uploads| :: HoldsUpload(t, t1, mid, s, i)
  }

  lemma SentFilesLength(t: Tables, existing: seq<Attachment>, mid: nat, s: Send)
    ensures |SentFiles(t, existing, mid, s, |s.uploads|)|
         == |t.attachments| + (if |s.uploads| > |existing| then |s.uploads| - |existing| else 0)
  {
    PatchedKeepsIds(t.attachments, existing, s, Min(|s.uploads|, |existing|));
  }

  lemma SentFileAt(t: Tables, existing: seq<Attachment>, mid: nat, s: Send, i: nat)
    requires |existing| <= i < |s.uploads|
    ensures var (rows, n) := (SentFiles(t, existing, mid, s, |s.uploads|), |t.attachments| + i - |existing|);
            n < |rows| && rows[n] == SendRowAt(s, mid, i, t.nextFile + i - |existing|)
  {
    PatchedKeepsIds(t.attachments, existing, s, |existing|);
    var n := |s.uploads| - |existing|;
    assert CreatedRows(s, mid, |existing|, |s.uploads|, t.nextFile)[i - |existing|]
        == SendRowAt(s, mid, i, t.nextFile + i - |existing|);
  }

  lemma SendHoldsUploads(t: Tables, s: Send)
    requires s.discordId in t.discordIndex ==> t.discordIndex[s.discordId] in t.messages
    ensures HoldsUploads(t, Sent(t, s), RowId(t, s.discordId, s.id), s)
  {
    var (existing, mid) := (ExistingFiles(t, s), RowId(t, s.discordId, s.id));
    var rows := SentFiles(t, existing, mid, s, |s.uploads|);
    assert Sent(t, s).attachments == rows && Held(t, s) == |existing|;
    SentFilesLength(t, existing, mid, s);
    forall i | Held(t, s) <= i < |s.uploads| ensures HoldsUpload(t, Sent(t, s), mid, s, i) {
      SentFileAt(t, existing, mid, s, i);
    }
  }

  lemma SendAccounts(t: Tables, t1: Tables, s: Send)
    requires Closed(t) && InsertRefs(t, s) && t1.memberships == t.memberships && t1.accounts == t.accounts
    ensures HasAccount(t1, s.actor)
    ensures AreAccounts(t1, Members(t1, s.room))
    ensures AreAccounts(t1, Named(s.mentioned)) <==> AreAccounts(t, Named(s.mentioned))
  {
    assert HasAccount(t, s.actor);
    MemberAccounts(t, t1, s.room);
    forall a ensures HasAccount(t1, a) <==> HasAccount(t, a) {
    }
  }

  lemma ExistingHave(t: Tables, s: Send)
    requires s.discordId in t.discordIndex ==> t.discordIndex[s.discordId] in t.messages
    ensures RowsHave(t.attachments, ExistingFiles(t, s))
  {
    if s.discordId in t.discordIndex {
      ListedRowsHave(t.attachments, t.discordIndex[s.discordId]);
    }
  }

  /**
   The write transaction of SendMessage: it commits as a whole, its audit row included, or
   leaves nothing; `accepted` says whether the audit row is taken.
   */
  method SendMessage(db: Db, s: Send, accepted: bool) returns (r: Result<Message, DbError>)
    requires Keyed(db.t) && s.id !in db.t.messages
    modifies db
    ensures r.Ok? <==> SendTx(old(db.t), s).Ok? && accepted
    ensures r.Ok? <==> Sendable(old(db.t), s) && accepted
    ensures r.Ok? ==>
              var mid := if s.discordId in old(db.t).discordIndex then old(db.t).discordIndex[s.discordId] else s.id;
              && db.t.audit == old(db.t).audit + [MessageSend(s.actor, mid, s.discordId in old(db.t).discordIndex)]
              && HoldsUploads(old(db.t), db.t, mid, s)
    ensures r.Ok? ==> HoldsMessage(old(db.t), db.t, s)
    ensures r.Err? ==> r.error == if SendTx(old(db.t), s).Err? then SendTx(old(db.t), s).error else Internal
    ensures db.t == if r.Ok? then SendTx(old(db.t), s).value else old(db.t)
    ensures r.Ok? ==>
              var mid := RowId(old(db.t), s.discordId, s.id); mid in db.t.messages && r.value == db.t.messages[mid]
  {
    var saved := db.t;
    SendCommitsIff(db.t, s);
    SendHoldsUploads(db.t, s);
    SendHoldsMessage(db.t, s);
    r := SendBody(db, s, accepted);
    if r.Err? {
      db.t := saved;
    }
  }
}
