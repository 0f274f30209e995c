/**
 Convergence: a send and any number of gateway echoes of the same Discord message, in
 any order and interleaved with the traffic of other messages, leave the same message.
 */
module MergeOrder {
  import opened Wrappers
  import opened Lists
  import opened Store
  import opened Convergence
  import opened Merge

  // ---------------------------------------------------------------- attachment lists

  lemma {:induction false} FilesOfAppend(rows: seq<Attachment>, extra: seq<Attachment>, m: nat)
    ensures FilesOf(rows + extra, m) == FilesOf(rows, m) + FilesOf(extra, m)
  {
    if extra == [] {
      assert rows + extra == rows;
    } else {
      var n := |extra| - 1;
      FilesOfAppend(rows, extra[..n], m);
      assert (rows + extra)[..|rows| + n] == rows + extra[..n];
    }
  }

  lemma {:induction false} FilesOfOne(rows: seq<Attachment>, owner: nat, m: nat)
    requires forall i | 0 <= i < |rows| :: rows[i].message == owner
    ensures FilesOf(rows, m) == if m == owner then rows else []
  {
    if rows != [] {
      FilesOfOne(rows[..|rows| - 1], owner, m);
    }
  }

  lemma {:induction false} FilesOfNone(rows: seq<Attachment>, m: nat)
    requires forall i | 0 <= i < |rows| :: rows[i].message != m
    ensures FilesOf(rows, m) == []
  {
    if rows != [] {
      FilesOfNone(rows[..|rows| - 1], m);
    }
  }

  lemma {:induction false} FilesOfMark(rows: seq<Attachment>, id: nat, path: string, at: int, m: nat)
    ensures FilesOf(MarkRow(rows, id, path, at), m) == MarkRow(FilesOf(rows, m), id, path, at)
  {
    if rows != [] {
      var n := |rows| - 1;
      FilesOfMark(rows[..n], id, path, at, m);
      assert MarkRow(rows, id, path, at)[..n] == MarkRow(rows[..n], id, path, at);
    }
  }

  /** Patching commutes with listing one message. */
  lemma {:induction false} FilesOfPatched(rows: seq<Attachment>, existing: seq<Attachment>, s: Send, k: nat, m: nat)
    requires k <= |existing| && k <= |s.uploads|
    ensures FilesOf(Patched(rows, existing, s, k), m) == Patched(FilesOf(rows, m), existing, s, k)
  {
    if k > 0 {
      FilesOfPatched(rows, existing, s, k - 1, m);
      FilesOfMark(Patched(rows, existing, s, k - 1), existing[k - 1].id, s.uploads[k - 1].path, s.now, m);
    }
  }

  ghost predicate Increasing(rows: seq<Attachment>) {
    forall i, j | 0 <= i < j < |rows| :: rows[i].id < rows[j].id
  }

  lemma {:induction false} FilesOfIncreasing(rows: seq<Attachment>, m: nat)
    requires Increasing(rows)
    ensures Increasing(FilesOf(rows, m))
  {
    if rows != [] {
      var n := |rows| - 1;
      FilesOfIncreasing(rows[..n], m);
      forall j | 0 <= j < |FilesOf(rows[..n], m)| ensures FilesOf(rows[..n], m)[j].id < rows[n].id {
        ListedRows(rows[..n], m, j);
      }
    }
  }

  /** A row that is not among the patched ones is left alone. */
  lemma {:induction false} PatchedElsewhere(list: seq<Attachment>, existing: seq<Attachment>, s: Send, k: nat)
    requires k <= |existing| && k <= |s.uploads|
    requires forall i, j | 0 <= i < |list| && 0 <= j < |existing| :: list[i].id != existing[j].id
    ensures Patched(list, existing, s, k) == list
  {
    if k > 0 {
      PatchedElsewhere(list, existing, s, k - 1);
    }
  }

  /** Patching a message's own list puts the i-th upload into the i-th row. */
  lemma {:induction false} PatchedInPlace(existing: seq<Attachment>, s: Send, k: nat, i: nat)
    requires Increasing(existing) && k <= |existing| && k <= |s.uploads| && i < |existing|
    ensures |Patched(existing, existing, s, k)| == |existing|
    ensures Patched(existing, existing, s, k)[i]
         == if i < k then existing[i].(localPath := s.uploads[i].path, downloadedAt := Some(s.now)) else existing[i]
  {
    if k > 0 {
      PatchedInPlace(existing, s, k - 1, i);
    }
  }

  /** Rows of different messages have different ids. */
  lemma ListsDisjoint(rows: seq<Attachment>, m: nat, n: nat, i: nat, j: nat)
    requires Increasing(rows) && m != n && i < |FilesOf(rows, m)| && j < |FilesOf(rows, n)|
    ensures FilesOf(rows, m)[i].id != FilesOf(rows, n)[j].id
  {
    ListedRows(rows, m, i);
    ListedRows(rows, n, j);
  }

  // ---------------------------------------------------------------- the setting

  predicate About(op: Op, d: string) {
    (op.DoSend? && op.s.discordId == d) || (op.DoIngest? && op.e.discordId == d)
  }

  /** The send can commit, and its message is not stored yet. */
  ghost predicate Ready(t: Tables, s: Send) {
    && Keyed(t) && s.discordId !in t.discordIndex
    && s.room in t.rooms && SendRefs(t, s)
    && (forall i | 0 <= i < |s.uploads| :: FileName(s, i) != "")
  }

  /** An echo carries the sent content, time and files, in the room's channel. */
  predicate Faithful(t: Tables, s: Send, e: Event)
  {
    && s.room in t.rooms && e.channel == t.rooms[s.room].channel
    && e.discordId == s.discordId && e.content == s.content && e.createdAt == s.createdAt
    && |e.files| == |s.uploads|
    && (forall i | 0 <= i < |e.files| :: e.files[i].filename == FileName(s, i) && e.files[i].url == FileUrl(s, i))
  }

  predicate Delivers(op: Op) {
    op.DoSend? || op.DoIngest? || op.DoRolledBack?
  }

  /** Sends, echoes and undone attempts; those of this message are the send itself and faithful echoes. */
  predicate Traffic(t: Tables, s: Send, op: Op) {
    && Delivers(op)
    && (About(op, s.discordId) ==> op == DoSend(s) || (op.DoIngest? && Faithful(t, s, op.e)))
  }

  ghost predicate Story(t: Tables, s: Send, ops: seq<Op>) {
    Runs(t, ops) && forall i | 0 <= i < |ops| :: Traffic(t, s, ops[i])
  }

  // ---------------------------------------------------------------- what the order cannot change

  predicate Pings(op: Op, d: string) {
    About(op, d) && if op.DoSend? then op.s.everyone else op.e.everyone
  }

  ghost predicate Everyone(ops: seq<Op>, d: string) {
    exists i :: 0 <= i < |ops| && Pings(ops[i], d)
  }

  /** The accounts one transaction adds to the mention set. */
  function Reached(t: Tables, s: Send, op: Op): set<string> {
    if !About(op, s.discordId) then {}
    else if op.DoSend? then Named(op.s.mentioned)
    else Targets(t, s.room, op.e.mentioned)
  }

  function AllReached(t: Tables, s: Send, ops: seq<Op>): set<string> {
    if ops == [] then {} else AllReached(t, s, ops[..|ops| - 1]) + Reached(t, s, ops[|ops| - 1])
  }

  predicate Seen(ops: seq<Op>, d: string) {
    exists i :: 0 <= i < |ops| && About(ops[i], d)
  }

  /** The member that an inserting echo marks as having read the message. */
  function EchoReader(t: Tables, s: Send, op: Op): set<string> {
    if !op.DoIngest? then {}
    else
      var a := AuthorOf(t.accounts, op.e.authorId);
      if a.Some? && a.value in Members(t, s.room) then {a.value} else {}
  }

  /** The readers written by whichever transaction came first. */
  function FirstReaders(t: Tables, s: Send, ops: seq<Op>): set<string> {
    if ops == [] then {}
    else
      var n := |ops| - 1;
      if Seen(ops[..n], s.discordId) then FirstReaders(t, s, ops[..n])
      else if About(ops[n], s.discordId) then EchoReader(t, s, ops[n])
      else {}
  }

  // ---------------------------------------------------------------- the message after a prefix

  ghost predicate RowMatches(row: Message, s: Send, sent: bool, ev: bool) {
    && row.room == s.room && row.discordId == s.discordId && row.content == s.content
    && row.createdAt == s.createdAt && row.contentHash == Hash(s.content) && row.everyone == ev
    && (sent ==> row.author == Some(s.actor) && row.replyTo == s.replyTo && row.priority == s.priority)
  }

  ghost predicate MentionsMatch(t: Tables, mid: nat, ms: set<string>) {
    forall a :: (mid, a) in t.mentions <==> a in ms
  }

  ghost predicate StatesMatch(t: Tables, mid: nat, members: set<string>, actor: string, sent: bool, rd: set<string>) {
    && (forall a :: (mid, a) in t.states <==> a in members || (sent && a == actor))
    && (forall a | (mid, a) in t.states :: t.states[(mid, a)].Some? <==> a in rd || (sent && a == actor))
  }

  ghost predicate FilesMatch(fs: seq<Attachment>, s: Send, sent: bool) {
    && |fs| == |s.uploads|
    && (forall i | 0 <= i < |fs| :: fs[i].filename == FileName(s, i) && fs[i].url == FileUrl(s, i))
    && (sent ==> forall i | 0 <= i < |fs| :: fs[i].localPath == s.uploads[i].path && fs[i].downloadedAt.Some?)
  }

  ghost predicate Merged(t: Tables, s: Send, sent: bool, ev: bool, ms: set<string>, rd: set<string>) {
    && s.discordId in t.discordIndex
    && t.discordIndex[s.discordId] in t.messages
    && var mid := t.discordIndex[s.discordId];
    && RowMatches(t.messages[mid], s, sent, ev)
    && MentionsMatch(t, mid, ms)
    && StatesMatch(t, mid, Members(t, s.room), s.actor, sent, rd)
    && FilesMatch(FilesOf(t.attachments, mid), s, sent)
  }

  /** Rooms, members and accounts, which neither transaction touches. */
  predicate SameDirectory(t: Tables, t1: Tables) {
    t1.accounts == t.accounts && t1.rooms == t.rooms && t1.channelIndex == t.channelIndex
      && t1.memberships == t.memberships
  }

  // ---------------------------------------------------------------- one step on this message

  lemma FreshMessage(t: Tables, mid: nat)
    requires Keyed(t) && mid !in t.messages
    ensures forall a :: (mid, a) !in t.mentions && (mid, a) !in t.states
    ensures FilesOf(t.attachments, mid) == []
  {
    FilesOfNone(t.attachments, mid);
  }

  lemma CreatedMatch(s: Send, mid: nat, next: nat)
    ensures var made := CreatedRows(s, mid, 0, |s.uploads|, next);
            FilesMatch(made, s, true) && FilesOf(made, mid) == made
  {
    var made := CreatedRows(s, mid, 0, |s.uploads|, next);
    forall i | 0 <= i < |made| ensures made[i] == SendRowAt(s, mid, i, next + i) {
    }
    FilesOfOne(made, mid, mid);
  }

  lemma SendInsertsFiles(t: Tables, s: Send)
    requires Keyed(t) && s.discordId !in t.discordIndex && s.id !in t.messages
    ensures FilesMatch(FilesOf(Sent(t, s).attachments, s.id), s, true)
  {
    FreshMessage(t, s.id);
    CreatedMatch(s, s.id, t.nextFile);
    var made := CreatedRows(s, s.id, 0, |s.uploads|, t.nextFile);
    assert Sent(t, s).attachments == t.attachments + made;
    FilesOfAppend(t.attachments, made, s.id);
    assert FilesOf(Sent(t, s).attachments, s.id) == made;
  }

  lemma SendInserts(t: Tables, s: Send)
    requires Keyed(t) && s.discordId !in t.discordIndex && s.id !in t.messages
    ensures Merged(Sent(t, s), s, true, s.everyone, Named(s.mentioned), {})
  {
    FreshMessage(t, s.id);
    SendInsertsFiles(t, s);
    var t1 := Sent(t, s);
    assert Members(t1, s.room) == Members(t, s.room);
    CellsAt(s.id, Named(s.mentioned));
    CellsAt(s.id, Members(t, s.room) + {s.actor});
  }

  lemma CellsAt(mid: nat, accounts: set<string>)
    ensures forall a :: (mid, a) in Cells(mid, accounts) <==> a in accounts
    ensures forall k | k in Cells(mid, accounts) :: k.0 == mid
  {
  }

  lemma SendMergesFiles(t: Tables, s: Send, sent: bool)
    requires Keyed(t) && s.discordId in t.discordIndex
    requires FilesMatch(FilesOf(t.attachments, t.discordIndex[s.discordId]), s, sent)
    ensures FilesMatch(FilesOf(Sent(t, s).attachments, t.discordIndex[s.discordId]), s, true)
  {
    var mid := t.discordIndex[s.discordId];
    var existing := FilesOf(t.attachments, mid);
    var n := |s.uploads|;
    assert Sent(t, s).attachments == Patched(t.attachments, existing, s, n) + CreatedRows(s, mid, n, n, t.nextFile);
    assert Sent(t, s).attachments == Patched(t.attachments, existing, s, n);
    FilesOfPatched(t.attachments, existing, s, n, mid);
    FilesOfIncreasing(t.attachments, mid);
    PatchedKeepsIds(existing, existing, s, n);
    forall i | 0 <= i < n
      ensures Patched(existing, existing, s, n)[i]
              == existing[i].(localPath := s.uploads[i].path, downloadedAt := Some(s.now))
    {
      PatchedInPlace(existing, s, n, i);
    }
  }

  lemma FanOutStatesMatch(t: Tables, mid: nat, members: set<string>, actor: string, sent: bool, rd: set<string>,
                          now: int)
    requires StatesMatch(t, mid, members, actor, sent, rd)
    ensures StatesMatch(t.(states := FanOut(t.states, mid, members + {actor}, Some(actor), now)), mid, members,
                        actor, true, rd)
  {
    CellsAt(mid, members + {actor});
  }

  lemma SendMerges(t: Tables, s: Send, sent: bool, ev: bool, ms: set<string>, rd: set<string>)
    requires Keyed(t) && s.id !in t.messages && Merged(t, s, sent, ev, ms, rd)
    ensures Merged(Sent(t, s), s, true, ev || s.everyone, ms + Named(s.mentioned), rd)
  {
    var mid := t.discordIndex[s.discordId];
    var t1 := Sent(t, s);
    SendMergesFiles(t, s, sent);
    FanOutStatesMatch(t, mid, Members(t, s.room), s.actor, sent, rd, s.now);
    CellsAt(mid, Named(s.mentioned));
    assert Members(t1, s.room) == Members(t, s.room);
  }

  lemma PlaceholdersMatch(s: Send, mid: nat, files: seq<EventFile>, next: nat)
    requires |files| == |s.uploads|
    requires forall i | 0 <= i < |files| :: files[i].filename == FileName(s, i) && files[i].url == FileUrl(s, i)
    ensures var made := Placeholders(mid, files, next);
            FilesMatch(made, s, false) && FilesOf(made, mid) == made
  {
    FilesOfOne(Placeholders(mid, files, next), mid, mid);
  }

  lemma ChannelRoom(t: Tables, s: Send, e: Event)
    requires Indexed(t) && Faithful(t, s, e)
    ensures e.channel in t.channelIndex && t.channelIndex[e.channel] == s.room
  {
  }

  lemma EchoInsertsFiles(t: Tables, s: Send, e: Event)
    requires Keyed(t) && e.id !in t.messages && Faithful(t, s, e)
    ensures FilesMatch(FilesOf(t.attachments + Placeholders(e.id, e.files, t.nextFile), e.id), s, false)
  {
    FreshMessage(t, e.id);
    PlaceholdersMatch(s, e.id, e.files, t.nextFile);
    FilesOfAppend(t.attachments, Placeholders(e.id, e.files, t.nextFile), e.id);
    assert FilesOf(t.attachments + Placeholders(e.id, e.files, t.nextFile), e.id)
           == Placeholders(e.id, e.files, t.nextFile);
  }

  /** The state rows of a message that had none. */
  lemma FirstFanOut(t: Tables, t1: Tables, mid: nat, s: Send, e: Event)
    requires (forall a :: (mid, a) !in t.states) && t1.memberships == t.memberships
    requires t1.states == FanOut(t.states, mid, Members(t, s.room), AuthorOf(t.accounts, e.authorId), e.now)
    ensures StatesMatch(t1, mid, Members(t1, s.room), s.actor, false, EchoReader(t, s, DoIngest(e)))
  {
    assert Members(t1, s.room) == Members(t, s.room);
    CellsAt(mid, Members(t, s.room));
  }

  lemma EchoInserts(t: Tables, s: Send, e: Event)
    requires Keyed(t) && s.discordId !in t.discordIndex && e.id !in t.messages && Faithful(t, s, e)
    ensures e.channel in t.channelIndex && t.channelIndex[e.channel] == s.room
    ensures Merged(Ingested(t, e), s, false, e.everyone, Targets(t, s.room, e.mentioned), EchoReader(t, s, DoIngest(e)))
  {
    ChannelRoom(t, s, e);
    FreshMessage(t, e.id);
    EchoInsertsFiles(t, s, e);
    var t1 := Ingested(t, e);
    assert t1.attachments == t.attachments + Placeholders(e.id, e.files, t.nextFile);
    FirstFanOut(t, t1, e.id, s, e);
    CellsAt(e.id, Targets(t, s.room, e.mentioned));
    assert MentionsMatch(t1, e.id, Targets(t, s.room, e.mentioned));
  }

  lemma EchoMerges(t: Tables, s: Send, e: Event, sent: bool, ev: bool, ms: set<string>, rd: set<string>)
    requires Keyed(t) && e.id !in t.messages && Faithful(t, s, e) && Merged(t, s, sent, ev, ms, rd)
    ensures e.channel in t.channelIndex && t.channelIndex[e.channel] == s.room
    ensures Merged(Ingested(t, e), s, sent, ev || e.everyone, ms + Targets(t, s.room, e.mentioned), rd)
  {
    var mid := t.discordIndex[s.discordId];
    CellsAt(mid, Targets(t, s.room, e.mentioned));
    assert Members(Ingested(t, e), s.room) == Members(t, s.room);
  }

  // ---------------------------------------------------------------- steps on other messages

  /** Everything stored about message `mid` is the same. */
  ghost predicate SameAt(t: Tables, t1: Tables, mid: nat) {
    && mid in t.messages && mid in t1.messages && t1.messages[mid] == t.messages[mid]
    && (forall a :: (mid, a) in t1.mentions <==> (mid, a) in t.mentions)
    && (forall a :: (mid, a) in t1.states <==> (mid, a) in t.states)
    && (forall a | (mid, a) in t.states :: t1.states[(mid, a)] == t.states[(mid, a)])
    && FilesOf(t1.attachments, mid) == FilesOf(t.attachments, mid)
  }

  lemma SentFilesElsewhere(t: Tables, s: Send, mid: nat)
    requires Keyed(t) && mid != RowId(t, s.discordId, s.id)
    ensures FilesOf(Sent(t, s).attachments, mid) == FilesOf(t.attachments, mid)
  {
    var other := RowId(t, s.discordId, s.id);
    var existing := ExistingFiles(t, s);
    var n := |s.uploads|;
    var k := Min(n, |existing|);
    var made := CreatedRows(s, other, k, n, t.nextFile);
    FilesOfAppend(Patched(t.attachments, existing, s, k), made, mid);
    forall i | 0 <= i < |made| ensures made[i].message != mid {
      assert made[i] == SendRowAt(s, other, k + i, t.nextFile + i);
    }
    FilesOfNone(made, mid);
    FilesOfPatched(t.attachments, existing, s, k, mid);
    forall i, j | 0 <= i < |FilesOf(t.attachments, mid)| && 0 <= j < |existing|
      ensures FilesOf(t.attachments, mid)[i].id != existing[j].id
    {
      ListsDisjoint(t.attachments, mid, other, i, j);
    }
    PatchedElsewhere(FilesOf(t.attachments, mid), existing, s, k);
  }

  lemma OtherSend(t: Tables, s: Send, mid: nat)
    requires Keyed(t) && s.id !in t.messages && mid in t.messages && t.messages[mid].discordId != s.discordId
    ensures SameAt(t, Sent(t, s), mid)
  {
    var other := RowId(t, s.discordId, s.id);
    SentFilesElsewhere(t, s, mid);
    MentionsElsewhere(t.mentions, other, Named(s.mentioned), mid);
    StatesElsewhere(t.states, other, Members(t, s.room) + {s.actor}, Some(s.actor), s.now, mid);
  }

  lemma MentionsElsewhere(mentions: set<(nat, string)>, other: nat, accounts: set<string>, mid: nat)
    requires mid != other
    ensures forall a :: (mid, a) in mentions + Cells(other, accounts) <==> (mid, a) in mentions
  {
    CellsAt(other, accounts);
  }

  lemma StatesElsewhere(states: map<(nat, string), Option<int>>, other: nat, accounts: set<string>,
                        reader: Option<string>, now: int, mid: nat)
    requires mid != other
    ensures var f := FanOut(states, other, accounts, reader, now);
            && (forall a :: (mid, a) in f <==> (mid, a) in states)
            && (forall a | (mid, a) in states :: f[(mid, a)] == states[(mid, a)])
  {
    CellsAt(other, accounts);
  }

  lemma OtherIngest(t: Tables, e: Event, mid: nat)
    requires Keyed(t) && e.id !in t.messages && e.channel in t.channelIndex
    requires mid in t.messages && t.messages[mid].discordId != e.discordId
    ensures SameAt(t, Ingested(t, e), mid)
  {
    var room := t.channelIndex[e.channel];
    var other := RowId(t, e.discordId, e.id);
    var made := Placeholders(other, e.files, t.nextFile);
    FilesOfAppend(t.attachments, made, mid);
    FilesOfNone(made, mid);
    MentionsElsewhere(t.mentions, other, Targets(t, room, e.mentioned), mid);
    StatesElsewhere(t.states, other, Members(t, room), AuthorOf(t.accounts, e.authorId), e.now, mid);
  }

  lemma SameStaysMerged(t: Tables, t1: Tables, s: Send, sent: bool, ev: bool, ms: set<string>, rd: set<string>)
    requires Merged(t, s, sent, ev, ms, rd) && SameDirectory(t, t1)
    requires s.discordId in t1.discordIndex && t1.discordIndex[s.discordId] == t.discordIndex[s.discordId]
    requires SameAt(t, t1, t.discordIndex[s.discordId])
    ensures Merged(t1, s, sent, ev, ms, rd)
  {
    assert Members(t1, s.room) == Members(t, s.room);
  }

  // ---------------------------------------------------------------- all runs

  lemma SameReached(t: Tables, t1: Tables, s: Send, op: Op)
    requires SameDirectory(t, t1)
    ensures Reached(t1, s, op) == Reached(t, s, op) && EchoReader(t1, s, op) == EchoReader(t, s, op)
  {
    assert Members(t1, s.room) == Members(t, s.room);
  }

  lemma SendCommits(t0: Tables, t: Tables, s: Send)
    requires Ready(t0, s) && SameDirectory(t0, t) && Grows(t0, t) && Indexed(t)
    ensures SendTx(t, s) == Ok(Sent(t, s))
  {
    assert SendRefs(t0, s);
    forall a | HasAccount(t0, a) ensures HasAccount(t, a) {
    }
    assert SendRefs(t, s);
  }

  lemma EchoCommits(t0: Tables, t: Tables, s: Send, e: Event)
    requires Ready(t0, s) && SameDirectory(t0, t) && Indexed(t) && Faithful(t0, s, e)
    ensures e.channel in t.channelIndex && IngestTx(t, e) == Ok(Ingested(t, e))
  {
    ChannelRoom(t0, s, e);
  }

  /** What the accumulated facts say before a transaction of this message. */
  ghost predicate Before(t: Tables, s: Send, seen: bool, sent: bool, ev: bool, ms: set<string>, rd: set<string>) {
    if seen then Merged(t, s, sent, ev, ms, rd) else s.discordId !in t.discordIndex && !sent && !ev && ms == {}
  }

  lemma OwnSend(t: Tables, s: Send, seen: bool, sent: bool, ev: bool, ms: set<string>, rd: set<string>)
    requires Keyed(t) && s.id !in t.messages
    requires Before(t, s, seen, sent, ev, ms, rd)
    ensures Merged(Sent(t, s), s, true, ev || s.everyone, ms + Named(s.mentioned), if seen then rd else {})
  {
    if seen {
      SendMerges(t, s, sent, ev, ms, rd);
    } else {
      SendInserts(t, s);
      assert {} + Named(s.mentioned) == Named(s.mentioned);
    }
  }

  lemma OwnEcho(t0: Tables, t: Tables, s: Send, e: Event, seen: bool, sent: bool, ev: bool, ms: set<string>,
                rd: set<string>)
    requires Ready(t0, s) && SameDirectory(t0, t) && Keyed(t) && e.id !in t.messages && Faithful(t0, s, e)
    requires Before(t, s, seen, sent, ev, ms, rd)
    ensures e.channel in t.channelIndex && IngestTx(t, e) == Ok(Ingested(t, e))
    ensures Merged(Ingested(t, e), s, sent, ev || e.everyone, ms + Targets(t, s.room, e.mentioned),
                   if seen then rd else EchoReader(t, s, DoIngest(e)))
  {
    EchoCommits(t0, t, s, e);
    assert Faithful(t, s, e);
    if seen {
      EchoMerges(t, s, e, sent, ev, ms, rd);
    } else {
      EchoInserts(t, s, e);
      assert {} + Targets(t, s.room, e.mentioned) == Targets(t, s.room, e.mentioned);
    }
  }

  lemma OwnStep(t0: Tables, t: Tables, s: Send, op: Op, seen: bool, sent: bool, ev: bool, ms: set<string>,
                rd: set<string>)
    requires Ready(t0, s) && SameDirectory(t0, t) && Grows(t0, t) && Keyed(t) && Legal(t, op)
    requires Traffic(t0, s, op) && About(op, s.discordId)
    requires Before(t, s, seen, sent, ev, ms, rd)
    ensures Merged(Apply(t, op), s, sent || op.DoSend?, ev || Pings(op, s.discordId), ms + Reached(t0, s, op),
                   if seen then rd else EchoReader(t0, s, op))
  {
    SameReached(t0, t, s, op);
    if op.DoSend? {
      SendCommits(t0, t, s);
      OwnSend(t, s, seen, sent, ev, ms, rd);
    } else {
      OwnEcho(t0, t, s, op.e, seen, sent, ev, ms, rd);
    }
  }

  lemma SendKeepsDirectory(t: Tables, s: Send)
    requires s.discordId in t.discordIndex ==> t.discordIndex[s.discordId] in t.messages
    ensures SameDirectory(t, Sent(t, s))
  {
    RowKeepsDirectory(t, s);
    var (t1, mid) := (RowWritten(t, s), RowId(t, s.discordId, s.id));
    assert SameDirectory(t1, Addressed(t1, mid, s));
  }

  lemma RowKeepsDirectory(t: Tables, s: Send)
    requires s.discordId in t.discordIndex ==> t.discordIndex[s.discordId] in t.messages
    ensures SameDirectory(t, RowWritten(t, s)) && RowWritten(t, s).discordIndex
         == if s.discordId in t.discordIndex then t.discordIndex else t.discordIndex[s.discordId := s.id]
  {
  }

  lemma IngestKeepsDirectory(t: Tables, e: Event)
    requires e.channel in t.channelIndex
    requires e.discordId in t.discordIndex ==> t.discordIndex[e.discordId] in t.messages
    ensures SameDirectory(t, Ingested(t, e))
  {
  }

  lemma StepKeepsDirectory(t: Tables, op: Op)
    requires Indexed(t) && Delivers(op)
    ensures SameDirectory(t, Apply(t, op))
  {
    if op.DoSend? {
      SendKeepsDirectory(t, op.s);
    } else if op.DoIngest? && op.e.channel in t.channelIndex {
      IngestKeepsDirectory(t, op.e);
    }
  }

  lemma OtherIndex(t: Tables, s: Send, d: string)
    requires s.discordId in t.discordIndex ==> t.discordIndex[s.discordId] in t.messages
    requires s.discordId != d
    ensures d in Sent(t, s).discordIndex <==> d in t.discordIndex
    ensures d in t.discordIndex ==> Sent(t, s).discordIndex[d] == t.discordIndex[d]
  {
    RowKeepsDirectory(t, s);
  }

  ghost predicate Untouched(t: Tables, t1: Tables, d: string) {
    && (d in t1.discordIndex <==> d in t.discordIndex)
    && (d in t.discordIndex ==> t1.discordIndex[d] == t.discordIndex[d] && SameAt(t, t1, t.discordIndex[d]))
  }

  lemma OtherSendStep(t: Tables, s: Send, d: string)
    requires Keyed(t) && s.id !in t.messages && s.discordId != d
    ensures Untouched(t, Sent(t, s), d)
  {
    OtherIndex(t, s, d);
    if d in t.discordIndex {
      OtherSend(t, s, t.discordIndex[d]);
    }
  }

  lemma OtherIngestStep(t: Tables, e: Event, d: string)
    requires Keyed(t) && e.id !in t.messages && e.discordId != d && e.channel in t.channelIndex
    ensures Untouched(t, Ingested(t, e), d)
  {
    if d in t.discordIndex {
      OtherIngest(t, e, t.discordIndex[d]);
    }
  }

  /** A transaction of another message neither stores nor changes this one. */
  lemma OtherStep(t: Tables, s: Send, op: Op)
    requires Keyed(t) && Legal(t, op) && Delivers(op) && !About(op, s.discordId)
    ensures Untouched(t, Apply(t, op), s.discordId)
  {
    var d := s.discordId;
    if op.DoSend? {
      OtherSendStep(t, op.s, d);
    } else if op.DoIngest? && op.e.channel in t.channelIndex {
      OtherIngestStep(t, op.e, d);
    }
  }

  lemma StoryPrefix(t: Tables, s: Send, ops: seq<Op>)
    requires Story(t, s, ops) && ops != []
    ensures Story(t, s, ops[..|ops| - 1]) && Traffic(t, s, ops[|ops| - 1])
            && Legal(Final(t, ops[..|ops| - 1]), ops[|ops| - 1])
  {
    var before := ops[..|ops| - 1];
    forall i | 0 <= i < |before| ensures Traffic(t, s, before[i]) {
      assert before[i] == ops[i];
    }
  }

  /** How the accumulated facts grow with the last transaction. */
  lemma Accumulate(s: Send, ops: seq<Op>)
    requires ops != []
    ensures var (before, op) := (ops[..|ops| - 1], ops[|ops| - 1]);
            && Seen(ops, s.discordId) == (Seen(before, s.discordId) || About(op, s.discordId))
            && Everyone(ops, s.discordId) == (Everyone(before, s.discordId) || Pings(op, s.discordId))
            && (DoSend(s) in ops) == (DoSend(s) in before || op == DoSend(s))
  {
    var n := |ops| - 1;
    assert ops == ops[..n] + [ops[n]];
    forall i | 0 <= i < n ensures ops[..n][i] == ops[i] {
    }
  }

  /** The state of this message after a run, in terms of what the run held. */
  ghost predicate Reflects(t0: Tables, t: Tables, s: Send, ops: seq<Op>) {
    && (Seen(ops, s.discordId) ==>
          Merged(t, s, DoSend(s) in ops, Everyone(ops, s.discordId), AllReached(t0, s, ops), FirstReaders(t0, s, ops)))
    && (!Seen(ops, s.discordId) ==>
          s.discordId !in t.discordIndex && DoSend(s) !in ops && !Everyone(ops, s.discordId)
            && AllReached(t0, s, ops) == {})
  }

  lemma OwnProgress(t0: Tables, t: Tables, s: Send, ops: seq<Op>)
    requires ops != [] && Ready(t0, s) && SameDirectory(t0, t) && Grows(t0, t) && Keyed(t)
    requires Legal(t, ops[|ops| - 1]) && Traffic(t0, s, ops[|ops| - 1]) && About(ops[|ops| - 1], s.discordId)
    requires Reflects(t0, t, s, ops[..|ops| - 1])
    ensures Reflects(t0, Apply(t, ops[|ops| - 1]), s, ops)
  {
    var (before, op, d) := (ops[..|ops| - 1], ops[|ops| - 1], s.discordId);
    Accumulate(s, ops);
    OwnStep(t0, t, s, op, Seen(before, d), DoSend(s) in before, Everyone(before, d), AllReached(t0, s, before),
            FirstReaders(t0, s, before));
  }

  lemma OtherProgress(t0: Tables, t: Tables, s: Send, ops: seq<Op>)
    requires ops != [] && Keyed(t) && Legal(t, ops[|ops| - 1])
    requires Traffic(t0, s, ops[|ops| - 1]) && !About(ops[|ops| - 1], s.discordId)
    requires Reflects(t0, t, s, ops[..|ops| - 1])
    ensures Reflects(t0, Apply(t, ops[|ops| - 1]), s, ops)
  {
    var (before, op, d) := (ops[..|ops| - 1], ops[|ops| - 1], s.discordId);
    Accumulate(s, ops);
    StepKeepsDirectory(t, op);
    OtherStep(t, s, op);
    assert AllReached(t0, s, ops) == AllReached(t0, s, before);
    if Seen(before, d) {
      SameStaysMerged(t, Apply(t, op), s, DoSend(s) in before, Everyone(before, d), AllReached(t0, s, before),
                      FirstReaders(t0, s, before));
    }
  }

  lemma {:induction false} Progress(t0: Tables, s: Send, ops: seq<Op>)
    requires Ready(t0, s) && Story(t0, s, ops)
    ensures Keyed(Final(t0, ops)) && SameDirectory(t0, Final(t0, ops)) && Grows(t0, Final(t0, ops))
    ensures Reflects(t0, Final(t0, ops), s, ops)
  {
    RunKeepsKeyed(t0, ops);
    MergesNeverTakeBack(t0, ops);
    if ops != [] {
      var before, op := ops[..|ops| - 1], ops[|ops| - 1];
      StoryPrefix(t0, s, ops);
      Progress(t0, s, before);
      StepKeepsDirectory(Final(t0, before), op);
      if About(op, s.discordId) {
        OwnProgress(t0, Final(t0, before), s, ops);
      } else {
        OtherProgress(t0, Final(t0, before), s, ops);
      }
    }
  }

  // ---------------------------------------------------------------- what a reader sees in the end

  datatype File = File(name: string, url: string, path: string, downloaded: bool)

  datatype Outcome = Outcome(row: Message, mentions: set<string>, readers: set<string>, unread: set<string>,
                             files: seq<File>)

  function Files(fs: seq<Attachment>): seq<File> {
    seq(|fs|, i requires 0 <= i < |fs| => File(fs[i].filename, fs[i].url, fs[i].localPath, fs[i].downloadedAt.Some?))
  }

  /** A stored message up to its internal id, its files' sizes and the clock. */
  function View(t: Tables, discordId: string): Outcome
    requires discordId in t.discordIndex && t.discordIndex[discordId] in t.messages
  {
    var mid := t.discordIndex[discordId];
    Outcome(t.messages[mid],
            set k | k in t.mentions && k.0 == mid :: k.1,
            set k | k in t.states && k.0 == mid && t.states[k].Some? :: k.1,
            set k | k in t.states && k.0 == mid && t.states[k].None? :: k.1,
            Files(FilesOf(t.attachments, mid)))
  }

  /** One downloaded file per upload, under the name and url the provider gave it. */
  function SentFilesView(s: Send): seq<File> {
    seq(|s.uploads|, i requires 0 <= i < |s.uploads| => File(FileName(s, i), FileUrl(s, i), s.uploads[i].path, true))
  }

  /**
   After every run that holds the send: the sender's row, mention_everyone the
   disjunction and the mention set the union of what all transactions brought, a state
   for every member and the sender, and one downloaded file per upload.  Only the read
   states can depend on the order, and only through an inserting echo whose author
   resolves to a member.
   */
  lemma SendAndEchoesConverge(t0: Tables, s: Send, ops: seq<Op>)
    requires Ready(t0, s) && Story(t0, s, ops) && DoSend(s) in ops
    ensures var t := Final(t0, ops);
            var d := s.discordId;
            var readers := FirstReaders(t0, s, ops) + {s.actor};
            && d in t.discordIndex && t.discordIndex[d] in t.messages
            && View(t, d) == Outcome(
                 Message(s.room, Some(s.actor), d, s.content, s.replyTo, s.priority, s.createdAt, Hash(s.content),
                         Everyone(ops, d)),
                 AllReached(t0, s, ops), readers, Members(t0, s.room) - readers, SentFilesView(s))
  {
    var d := s.discordId;
    var t := Final(t0, ops);
    Progress(t0, s, ops);
    var i :| 0 <= i < |ops| && ops[i] == DoSend(s);
    assert About(ops[i], d);
    var mid := t.discordIndex[d];
    assert Members(t, s.room) == Members(t0, s.room);
    FirstReadersAreMembers(t0, s, ops);
    ViewOfMerged(t, s, Everyone(ops, d), AllReached(t0, s, ops), FirstReaders(t0, s, ops));
  }

  lemma {:induction false} FirstReadersAreMembers(t: Tables, s: Send, ops: seq<Op>)
    ensures FirstReaders(t, s, ops) <= Members(t, s.room)
  {
    if ops != [] {
      FirstReadersAreMembers(t, s, ops[..|ops| - 1]);
    }
  }

  lemma ViewOfMerged(t: Tables, s: Send, ev: bool, ms: set<string>, rd: set<string>)
    requires Merged(t, s, true, ev, ms, rd) && rd <= Members(t, s.room)
    ensures View(t, s.discordId) == Outcome(
              Message(s.room, Some(s.actor), s.discordId, s.content, s.replyTo, s.priority, s.createdAt,
                      Hash(s.content), ev),
              ms, rd + {s.actor}, Members(t, s.room) - (rd + {s.actor}), SentFilesView(s))
  {
    var mid := t.discordIndex[s.discordId];
    var v := View(t, s.discordId);
    MentionsView(t, mid, ms);
    StatesView(t, mid, Members(t, s.room), s.actor, rd);
    assert v.files == SentFilesView(s);
  }

  lemma MentionsView(t: Tables, mid: nat, ms: set<string>)
    requires MentionsMatch(t, mid, ms)
    ensures (set k | k in t.mentions && k.0 == mid :: k.1) == ms
  {
    var v := set k | k in t.mentions && k.0 == mid :: k.1;
    forall a ensures a in v <==> a in ms {
      assert (mid, a).0 == mid && (mid, a).1 == a;
    }
  }

  lemma StatesView(t: Tables, mid: nat, members: set<string>, actor: string, rd: set<string>)
    requires StatesMatch(t, mid, members, actor, true, rd) && rd <= members
    ensures (set k | k in t.states && k.0 == mid && t.states[k].Some? :: k.1) == rd + {actor}
    ensures (set k | k in t.states && k.0 == mid && t.states[k].None? :: k.1) == members - (rd + {actor})
  {
    var read := set k | k in t.states && k.0 == mid && t.states[k].Some? :: k.1;
    var unread := set k | k in t.states && k.0 == mid && t.states[k].None? :: k.1;
    forall a ensures a in read <==> a in rd + {actor} {
      assert (mid, a).0 == mid && (mid, a).1 == a;
    }
    forall a ensures a in unread <==> a in members - (rd + {actor}) {
      assert (mid, a).0 == mid && (mid, a).1 == a;
    }
  }

  // ---------------------------------------------------------------- when the order matters

  /** Every echo's author is unknown or the sender. */
  ghost predicate OwnEchoes(t: Tables, s: Send, ops: seq<Op>) {
    forall i | 0 <= i < |ops| && About(ops[i], s.discordId) :: EchoReader(t, s, ops[i]) <= {s.actor}
  }

  lemma {:induction false} OwnReaders(t: Tables, s: Send, ops: seq<Op>)
    requires OwnEchoes(t, s, ops)
    ensures FirstReaders(t, s, ops) <= {s.actor}
  {
    if ops != [] {
      var n := |ops| - 1;
      forall i | 0 <= i < n && About(ops[..n][i], s.discordId) ensures EchoReader(t, s, ops[..n][i]) <= {s.actor} {
        assert ops[..n][i] == ops[i];
      }
      OwnReaders(t, s, ops[..n]);
    }
  }

  lemma {:induction false} ReachedBySome(t: Tables, s: Send, ops: seq<Op>, a: string)
    ensures a in AllReached(t, s, ops) <==> exists i :: 0 <= i < |ops| && a in Reached(t, s, ops[i])
  {
    if ops != [] {
      var n := |ops| - 1;
      ReachedBySome(t, s, ops[..n], a);
      forall i | 0 <= i < n ensures ops[..n][i] == ops[i] {
      }
    }
  }

  /** The message as the end of a run shows it. */
  ghost predicate Shows(t: Tables, d: string) {
    d in t.discordIndex && t.discordIndex[d] in t.messages
  }

  /**
   Two runs of the same transactions, whatever their order, end in the same message
   exactly if their first transactions of it wrote the same readers, up to the sender.
   */
  lemma OutcomesAgreeIff(t0: Tables, s: Send, ops: seq<Op>, ops': seq<Op>)
    requires Ready(t0, s) && Story(t0, s, ops) && Story(t0, s, ops') && DoSend(s) in ops
    requires multiset(ops) == multiset(ops')
    ensures var (t, t', d) := (Final(t0, ops), Final(t0, ops'), s.discordId);
            && Shows(t, d) && Shows(t', d)
            && (View(t, d) == View(t', d)
               <==> FirstReaders(t0, s, ops) + {s.actor} == FirstReaders(t0, s, ops') + {s.actor})
  {
    SameElements(ops, ops');
    assert DoSend(s) in ops';
    SendAndEchoesConverge(t0, s, ops);
    SendAndEchoesConverge(t0, s, ops');
    SameReaches(t0, s, ops, ops');
    PingsInBoth(ops, ops', s.discordId);
    PingsInBoth(ops', ops, s.discordId);
  }

  /** When every echo's author is unknown or the sender, the order is irrelevant. */
  lemma OrderIsIrrelevant(t0: Tables, s: Send, ops: seq<Op>, ops': seq<Op>)
    requires Ready(t0, s) && Story(t0, s, ops) && Story(t0, s, ops') && DoSend(s) in ops
    requires multiset(ops) == multiset(ops')
    requires OwnEchoes(t0, s, ops)
    ensures var (t, t', d) := (Final(t0, ops), Final(t0, ops'), s.discordId);
            Shows(t, d) && Shows(t', d) && View(t, d) == View(t', d)
  {
    OutcomesAgreeIff(t0, s, ops, ops');
    SameElements(ops, ops');
    SameReaders(t0, s, ops, ops');
  }

  lemma SameReaches(t: Tables, s: Send, ops: seq<Op>, ops': seq<Op>)
    requires forall op :: op in ops <==> op in ops'
    ensures AllReached(t, s, ops) == AllReached(t, s, ops')
  {
    forall a ensures a in AllReached(t, s, ops) <==> a in AllReached(t, s, ops') {
      ReachedBySome(t, s, ops, a);
      ReachedBySome(t, s, ops', a);
      ReachedInBoth(t, s, ops, ops', a);
      ReachedInBoth(t, s, ops', ops, a);
    }
  }

  lemma SameReaders(t: Tables, s: Send, ops: seq<Op>, ops': seq<Op>)
    requires OwnEchoes(t, s, ops) && forall op :: op in ops' ==> op in ops
    ensures FirstReaders(t, s, ops) + {s.actor} == FirstReaders(t, s, ops') + {s.actor} == {s.actor}
  {
    OwnReaders(t, s, ops);
    forall i | 0 <= i < |ops'| && About(ops'[i], s.discordId) ensures EchoReader(t, s, ops'[i]) <= {s.actor} {
      assert ops'[i] in ops;
    }
    OwnReaders(t, s, ops');
  }

  lemma SameElements(ops: seq<Op>, ops': seq<Op>)
    requires multiset(ops) == multiset(ops')
    ensures forall op :: op in ops <==> op in ops'
  {
    forall op ensures op in ops <==> op in ops' {
      assert op in ops <==> op in multiset(ops);
      assert op in ops' <==> op in multiset(ops');
    }
  }

  lemma ReachedInBoth(t: Tables, s: Send, ops: seq<Op>, ops': seq<Op>, a: string)
    requires forall op :: op in ops ==> op in ops'
    ensures (exists i :: 0 <= i < |ops| && a in Reached(t, s, ops[i]))
            ==> exists i :: 0 <= i < |ops'| && a in Reached(t, s, ops'[i])
  {
    if i :| 0 <= i < |ops| && a in Reached(t, s, ops[i]) {
      assert ops[i] in ops';
    }
  }

  lemma PingsInBoth(ops: seq<Op>, ops': seq<Op>, d: string)
    requires forall op :: op in ops ==> op in ops'
    ensures Everyone(ops, d) ==> Everyone(ops', d)
  {
    if i :| 0 <= i < |ops| && Pings(ops[i], d) {
      assert ops[i] in ops';
    }
  }

  /** The i-th transaction is the first one of the message. */
  predicate Leads(ops: seq<Op>, i: nat, d: string) {
    i < |ops| && About(ops[i], d) && forall j | 0 <= j < i :: !About(ops[j], d)
  }

  lemma {:induction false} LeaderReads(t: Tables, s: Send, ops: seq<Op>, i: nat)
    requires Leads(ops, i, s.discordId)
    ensures FirstReaders(t, s, ops) == EchoReader(t, s, ops[i])
  {
    var n := |ops| - 1;
    if i < n {
      assert ops[..n][i] == ops[i];
      LeaderReads(t, s, ops[..n], i);
    } else {
      assert !Seen(ops[..n], s.discordId);
    }
  }

  /**
   The condition on the echoes is needed, in every pair of runs: if one begins the
   message with an echo whose author resolves to a member other than the sender, and
   the other with the send, that member's state is read in the one and not in the other.
   */
  lemma OrderMatters(t0: Tables, s: Send, ops: seq<Op>, i: nat, ops': seq<Op>, k: nat)
    requires Ready(t0, s) && Story(t0, s, ops) && Story(t0, s, ops') && DoSend(s) in ops && DoSend(s) in ops'
    requires Leads(ops, i, s.discordId) && !(EchoReader(t0, s, ops[i]) <= {s.actor})
    requires Leads(ops', k, s.discordId) && ops'[k] == DoSend(s)
    ensures var (t, t', d) := (Final(t0, ops), Final(t0, ops'), s.discordId);
            && Shows(t, d) && Shows(t', d)
            && EchoReader(t0, s, ops[i]) <= View(t, d).readers
            && View(t', d).readers == {s.actor}
  {
    SendAndEchoesConverge(t0, s, ops);
    SendAndEchoesConverge(t0, s, ops');
    LeaderReads(t0, s, ops, i);
    LeaderReads(t0, s, ops', k);
  }

  // ---------------------------------------------------------------- an instance

  /** Two members whose accounts share a bot user id; the sender's is listed second. */
  function SharedBot(): Tables {
    Tables([Account("b", "u", false), Account("a", "u", false)],
           map[0 := Room("c", "r", false)], map["c" := 0],
           map[("a", 0) := Membership(true, 0), ("b", 0) := Membership(true, 0)],
           map[], map[], map[], {}, [], 0, [])
  }

  function Hello(): Send {
    Send(1, 0, "a", "d", "hello", None, Normal, 5, false, [], [], [], 6)
  }

  function HelloEcho(): Event {
    Event(2, "c", "u", "d", "hello", 5, false, [], [], 7)
  }

  lemma SharedBotIsReady()
    ensures Ready(SharedBot(), Hello()) && Faithful(SharedBot(), Hello(), HelloEcho())
    ensures EchoReader(SharedBot(), Hello(), DoIngest(HelloEcho())) == {"b"}
  {
    var t := SharedBot();
    assert t.accounts[0].id == "b" && t.accounts[1].id == "a";
    assert HasAccount(t, "a") && HasAccount(t, "b");
    assert Named([]) == {};
    assert FirstOwner(t.accounts, "u") == Some("b");
    assert ("b", 0) in t.memberships && ("b", 0).1 == 0;
    assert "b" in Members(t, 0);
  }

  lemma TwoStory(t: Tables, s: Send, op: Op, op': Op)
    requires Traffic(t, s, op) && Traffic(t, s, op') && Legal(t, op) && Indexed(t) && Legal(Apply(t, op), op')
    ensures Story(t, s, [op, op'])
  {
    assert [op, op'][..1] == [op] && [op][..0] == [];
    assert Final(t, []) == t && Runs(t, []);
    assert Final(t, [op]) == Apply(t, op) && Runs(t, [op]);
  }

  lemma BothStories(t: Tables, s: Send, e: Event)
    requires Ready(t, s) && Faithful(t, s, e) && s.id !in t.messages && e.id !in t.messages && s.id != e.id
    ensures Story(t, s, [DoIngest(e), DoSend(s)]) && Story(t, s, [DoSend(s), DoIngest(e)])
  {
    TwoStory(t, s, DoIngest(e), DoSend(s));
    TwoStory(t, s, DoSend(s), DoIngest(e));
  }

  /** Two orders of the send and one echo of another member's account. */
  lemma EitherOrder(t0: Tables, s: Send, e: Op, b: string)
    requires Ready(t0, s) && Story(t0, s, [e, DoSend(s)]) && Story(t0, s, [DoSend(s), e])
    requires About(e, s.discordId) && EchoReader(t0, s, e) == {b} && b != s.actor
    ensures var (t, t', d) := (Final(t0, [e, DoSend(s)]), Final(t0, [DoSend(s), e]), s.discordId);
            Shows(t, d) && Shows(t', d) && b in View(t, d).readers && b !in View(t', d).readers
  {
    assert [e, DoSend(s)][1] == DoSend(s) && [DoSend(s), e][0] == DoSend(s) && [e, DoSend(s)][0] == e;
    OrderMatters(t0, s, [e, DoSend(s)], 0, [DoSend(s), e], 0);
  }

  /** The two orders of a send and its echo end with different readers here. */
  lemma SharedBotOrderMatters()
    ensures var (t0, s, e) := (SharedBot(), Hello(), DoIngest(HelloEcho()));
            var (t, t') := (Final(t0, [e, DoSend(s)]), Final(t0, [DoSend(s), e]));
            Shows(t, "d") && Shows(t', "d") && "b" in View(t, "d").readers && "b" !in View(t', "d").readers
  {
    var (t0, s, e) := (SharedBot(), Hello(), DoIngest(HelloEcho()));
    SharedBotIsReady();
    BothStories(t0, s, HelloEcho());
    EitherOrder(t0, s, e, "b");
  }
}
