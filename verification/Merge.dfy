/**
 Runs of the transactions of Convergence: what every run keeps, and why the order of
 a send and its echoes does not matter.
 */
module Merge {
  import opened Wrappers
  import opened Lists
  import opened Store
  import opened Convergence

  /**
   One transaction.  A read marks messages for one account; DoMembers is any change of the
   membership table; DoDownload is the downloader filling in a placeholder; DoRolledBack is
   any transaction undone because the database or the audit log refused a statement.
   */
  datatype Op =
    | DoSend(s: Send)
    | DoIngest(e: Event)
    | DoRead(account: string, marked: seq<nat>, now: int)
    | DoMembers(memberships: map<(string, nat), Membership>)
    | DoDownload(id: nat, path: string, at: int)
    | DoRolledBack

  function Committed(t: Tables, r: Result<Tables, DbError>): Tables {
    if r.Ok? then r.value else t
  }

  function Apply(t: Tables, op: Op): Tables
    requires Indexed(t)
  {
    match op
    case DoSend(s) => Committed(t, SendTx(t, s))
    case DoIngest(e) => Committed(t, IngestTx(t, e))
    case DoRead(a, marked, now) =>
      if HasAccount(t, a) && (forall m | m in marked :: m in t.messages) then WithReads(t, a, marked, now) else t
    case DoMembers(ms) => t.(memberships := ms)
    case DoDownload(id, path, at) => t.(attachments := MarkRow(t.attachments, id, path, at))
    case DoRolledBack => t
  }

  /** The id drawn for a new message row is unused; memberships keep their foreign keys. */
  ghost predicate Legal(t: Tables, op: Op) {
    match op
    case DoSend(s) => s.id !in t.messages
    case DoIngest(e) => e.id !in t.messages
    case DoMembers(ms) => Closed(t.(memberships := ms))
    case _ => true
  }

  /** The tables after the transactions, in commit order; every run keeps them indexed (RunKeepsKeyed). */
  ghost function Final(t: Tables, ops: seq<Op>): Tables {
    if ops == [] then t
    else
      var before := Final(t, ops[..|ops| - 1]);
      if Indexed(before) then Apply(before, ops[|ops| - 1]) else before
  }

  ghost predicate Runs(t: Tables, ops: seq<Op>) {
    ops == [] || (Runs(t, ops[..|ops| - 1]) && Legal(Final(t, ops[..|ops| - 1]), ops[|ops| - 1]))
  }

  // ---------------------------------------------------------------- keys and foreign keys

  lemma StepKeepsKeyed(t: Tables, op: Op)
    requires Keyed(t) && Legal(t, op)
    ensures Keyed(Apply(t, op))
  {
    match op
    case DoSend(s) => SendKeepsKeyed(t, s);
    case DoIngest(e) => IngestKeepsKeyed(t, e);
    case DoRead(account, marked, now) =>
      if forall m | m in marked :: m in t.messages {
        ReadKeepsKeyed(t, account, marked, now);
      }
    case DoMembers(ms) => MembersKeepKeyed(t, ms);
    case DoDownload(id, path, at) => DownloadKeepsKeyed(t, id, path, at);
    case DoRolledBack =>
  }

  lemma SendKeepsKeyed(t: Tables, s: Send)
    requires Keyed(t) && s.id !in t.messages
    ensures Keyed(Committed(t, SendTx(t, s)))
  {
    if SendTx(t, s).Ok? {
      SendKeepsIndexed(t, s);
      SendKeepsClosed(t, s);
      SendKeepsOrder(t, s);
    }
  }

  lemma IngestKeepsKeyed(t: Tables, e: Event)
    requires Keyed(t) && e.id !in t.messages
    ensures Keyed(Committed(t, IngestTx(t, e)))
  {
    if IngestTx(t, e).Ok? && e.channel in t.channelIndex {
      IngestKeepsIndexed(t, e);
      IngestKeepsClosed(t, e);
      IngestKeepsOrder(t, e);
    }
  }

  lemma MembersKeepKeyed(t: Tables, ms: map<(string, nat), Membership>)
    requires Keyed(t) && Closed(t.(memberships := ms))
    ensures Keyed(t.(memberships := ms))
  {
  }

  lemma ReadKeepsKeyed(t: Tables, account: string, marked: seq<nat>, now: int)
    requires Keyed(t) && forall m | m in marked :: m in t.messages
    ensures Keyed(WithReads(t, account, marked, now))
  {
    SameAccounts(t, WithReads(t, account, marked, now));
  }

  lemma DownloadKeepsKeyed(t: Tables, id: nat, path: string, at: int)
    requires Keyed(t)
    ensures Keyed(t.(attachments := MarkRow(t.attachments, id, path, at)))
  {
    SameAccounts(t, t.(attachments := MarkRow(t.attachments, id, path, at)));
  }

  lemma SameAccounts(t: Tables, t1: Tables)
    requires t1.accounts == t.accounts
    ensures forall a :: HasAccount(t, a) ==> HasAccount(t1, a)
  {
  }

  lemma InsertKeepsIndexed(t: Tables, id: nat, m: Message)
    requires Indexed(t) && id !in t.messages
    ensures Indexed(InsertIgnore(t, id, m))
  {
  }

  lemma UpdateKeepsIndexed(t: Tables, mid: nat, row: Message)
    requires Indexed(t) && mid in t.messages && row.discordId == t.messages[mid].discordId
    ensures Indexed(t.(messages := t.messages[mid := row]))
  {
  }

  lemma SendKeepsIndexed(t: Tables, s: Send)
    requires Indexed(t) && s.id !in t.messages
    ensures Indexed(Sent(t, s))
  {
    var t1 := RowWritten(t, s);
    if s.discordId in t.discordIndex {
      var mid := t.discordIndex[s.discordId];
      UpdateKeepsIndexed(t, mid, t1.messages[mid]);
    } else {
      InsertKeepsIndexed(t, s.id, SentRow(s));
    }
    assert Indexed(t1);
  }

  lemma IngestKeepsIndexed(t: Tables, e: Event)
    requires Indexed(t) && e.id !in t.messages && e.channel in t.channelIndex
    ensures Indexed(Ingested(t, e))
  {
    var room := t.channelIndex[e.channel];
    var mid := RowId(t, e.discordId, e.id);
    var t1 := InsertIgnore(t, e.id, EventRow(t, room, e));
    InsertKeepsIndexed(t, e.id, EventRow(t, room, e));
    var row := t1.messages[mid];
    var t2 := t1.(messages := t1.messages[mid := row.(everyone := row.everyone || e.everyone)]);
    UpdateKeepsIndexed(t1, mid, t2.messages[mid]);
    assert Indexed(t2);
  }

  lemma IngestKeepsClosed(t: Tables, e: Event)
    requires Keyed(t) && e.id !in t.messages && e.channel in t.channelIndex
    ensures Closed(Ingested(t, e))
  {
    var (t1, mid, room) := (Ingested(t, e), RowId(t, e.discordId, e.id), t.channelIndex[e.channel]);
    CellsOf(mid, Targets(t, room, e.mentioned));
    CellsOf(mid, Members(t, room));
    GrownClosed(t, t1, mid);
  }

  lemma CellsOf(mid: nat, accounts: set<string>)
    ensures forall k | k in Cells(mid, accounts) :: k.0 == mid
  {
  }

  /** New rows of one message, everything else as it was. */
  lemma GrownClosed(t: Tables, t1: Tables, mid: nat)
    requires Closed(t) && t1.accounts == t.accounts && t1.rooms == t.rooms && t1.memberships == t.memberships
    requires t.messages.Keys + {mid} <= t1.messages.Keys
    requires forall k | k in t1.states :: k in t.states || k.0 == mid
    requires forall k | k in t1.mentions :: k in t.mentions || k.0 == mid
    requires forall i | 0 <= i < |t1.attachments| ::
               t1.attachments[i].message == mid
               || (i < |t.attachments| && t1.attachments[i].message == t.attachments[i].message)
    ensures Closed(t1)
  {
    SameAccounts(t, t1);
  }

  lemma IngestKeepsOrder(t: Tables, e: Event)
    requires Keyed(t) && e.channel in t.channelIndex
    ensures FilesOrdered(Ingested(t, e))
  {
    if e.discordId !in t.discordIndex {
      var made := Placeholders(RowId(t, e.discordId, e.id), e.files, t.nextFile);
      assert Ingested(t, e).attachments == t.attachments + made;
      assert Ingested(t, e).nextFile == t.nextFile + |made|;
      AppendedOrdered(t, Ingested(t, e), made);
    } else {
      assert Ingested(t, e).attachments == t.attachments && Ingested(t, e).nextFile == t.nextFile;
    }
  }

  lemma AppendedOrdered(t: Tables, t1: Tables, made: seq<Attachment>)
    requires FilesOrdered(t) && t1.attachments == t.attachments + made && t1.nextFile == t.nextFile + |made|
    requires forall i | 0 <= i < |made| :: made[i].id == t.nextFile + i
    ensures FilesOrdered(t1)
  {
  }

  lemma {:induction false} PatchedRow(rows: seq<Attachment>, existing: seq<Attachment>, s: Send, k: nat, i: nat)
    requires k <= |existing| && k <= |s.uploads| && i < |rows|
    ensures |Patched(rows, existing, s, k)| == |rows|
    ensures var r := Patched(rows, existing, s, k)[i];
            r == rows[i].(localPath := r.localPath, downloadedAt := r.downloadedAt)
  {
    if k > 0 {
      PatchedRow(rows, existing, s, k - 1, i);
    }
  }

  lemma SentFilesShape(t: Tables, mid: nat, s: Send, i: nat)
    requires s.discordId in t.discordIndex ==> t.discordIndex[s.discordId] in t.messages
    requires i < |SentFiles(t, ExistingFiles(t, s), mid, s, |s.uploads|)|
    ensures var rows := SentFiles(t, ExistingFiles(t, s), mid, s, |s.uploads|);
            && |rows| >= |t.attachments|
            && (i < |t.attachments|
               ==> rows[i].id == t.attachments[i].id && rows[i].message == t.attachments[i].message)
            && (i >= |t.attachments| ==> rows[i].id == t.nextFile + i - |t.attachments| && rows[i].message == mid)
            && |rows| == |t.attachments| + |s.uploads| - Min(|s.uploads|, |ExistingFiles(t, s)|)
  {
    var existing := ExistingFiles(t, s);
    var k := Min(|s.uploads|, |existing|);
    PatchedKeepsIds(t.attachments, existing, s, k);
    if i < |t.attachments| {
      PatchedRow(t.attachments, existing, s, k, i);
    } else {
      var j := i - |t.attachments|;
      assert SentFiles(t, existing, mid, s, |s.uploads|)[i] == SendRowAt(s, mid, k + j, t.nextFile + j);
    }
  }

  lemma SentIdsIncrease(t: Tables, mid: nat, s: Send, i: nat, j: nat)
    requires Keyed(t)
    requires i <= j < |SentFiles(t, ExistingFiles(t, s), mid, s, |s.uploads|)|
    ensures var rows := SentFiles(t, ExistingFiles(t, s), mid, s, |s.uploads|);
            (i < j ==> rows[i].id < rows[j].id)
            && rows[j].id < t.nextFile + |s.uploads| - Min(|s.uploads|, |ExistingFiles(t, s)|)
  {
    SentFilesShape(t, mid, s, i);
    SentFilesShape(t, mid, s, j);
  }

  lemma SendKeepsOrder(t: Tables, s: Send)
    requires Keyed(t) && s.id !in t.messages
    ensures FilesOrdered(Sent(t, s))
  {
    var t1 := Sent(t, s);
    var mid := RowId(t, s.discordId, s.id);
    assert t1.attachments == SentFiles(t, ExistingFiles(t, s), mid, s, |s.uploads|);
    assert t1.nextFile == t.nextFile + |s.uploads| - Min(|s.uploads|, |ExistingFiles(t, s)|);
    forall i, j | 0 <= i <= j < |t1.attachments|
      ensures i < j ==> t1.attachments[i].id < t1.attachments[j].id
      ensures t1.attachments[j].id < t1.nextFile
    {
      SentIdsIncrease(t, mid, s, i, j);
    }
  }

  lemma SendKeepsClosed(t: Tables, s: Send)
    requires Keyed(t) && s.id !in t.messages
    ensures Closed(Sent(t, s))
  {
    var t1 := Sent(t, s);
    var mid := RowId(t, s.discordId, s.id);
    assert t1.attachments == SentFiles(t, ExistingFiles(t, s), mid, s, |s.uploads|);
    forall i | 0 <= i < |t1.attachments|
      ensures t1.attachments[i].message == mid
              || (i < |t.attachments| && t1.attachments[i].message == t.attachments[i].message)
    {
      SentFilesShape(t, mid, s, i);
    }
    CellsOf(mid, Named(s.mentioned));
    CellsOf(mid, Members(t, s.room) + {s.actor});
    GrownClosed(t, t1, mid);
  }

  lemma {:induction false} RunKeepsKeyed(t: Tables, ops: seq<Op>)
    requires Keyed(t) && Runs(t, ops)
    ensures Keyed(Final(t, ops))
  {
    if ops != [] {
      RunKeepsKeyed(t, ops[..|ops| - 1]);
      StepKeepsKeyed(Final(t, ops[..|ops| - 1]), ops[|ops| - 1]);
    }
  }

  // ---------------------------------------------------------------- what no run takes back

  /** A later version of a message row. */
  predicate Later(m: Message, m1: Message) {
    && m1.room == m.room && m1.discordId == m.discordId && m1.content == m.content && m1.createdAt == m.createdAt
    && (m.everyone ==> m1.everyone)
  }

  /** No row goes, no first read time changes, no mention is withdrawn. */
  ghost predicate Grows(t: Tables, t1: Tables) {
    && (forall m | m in t.messages :: m in t1.messages && Later(t.messages[m], t1.messages[m]))
    && t.mentions <= t1.mentions
    && (forall k | k in t.states :: k in t1.states && (t.states[k].Some? ==> t1.states[k] == t.states[k]))
  }

  /** One row written, mentions added, state cells merged. */
  lemma PartsGrow(t: Tables, t1: Tables, mid: nat)
    requires mid in t1.messages && t1.messages == t.messages[mid := t1.messages[mid]]
    requires mid in t.messages ==> Later(t.messages[mid], t1.messages[mid])
    requires t.mentions <= t1.mentions && StatesGrow(t.states, t1.states)
    ensures Grows(t, t1)
  {
  }

  ghost predicate StatesGrow(states: map<(nat, string), Option<int>>, states1: map<(nat, string), Option<int>>) {
    forall k | k in states :: k in states1 && (states[k].Some? ==> states1[k] == states[k])
  }

  lemma FanOutGrowsStates(states: map<(nat, string), Option<int>>, mid: nat, accounts: set<string>,
                          reader: Option<string>, now: int)
    ensures StatesGrow(states, FanOut(states, mid, accounts, reader, now))
  {
  }

  lemma SendGrows(t: Tables, s: Send)
    requires Indexed(t) && s.id !in t.messages
    ensures Grows(t, Sent(t, s))
  {
    FanOutGrowsStates(t.states, RowId(t, s.discordId, s.id), Members(t, s.room) + {s.actor}, Some(s.actor), s.now);
    PartsGrow(t, Sent(t, s), RowId(t, s.discordId, s.id));
  }

  lemma IngestGrows(t: Tables, e: Event)
    requires Indexed(t) && e.id !in t.messages && e.channel in t.channelIndex
    ensures Grows(t, Ingested(t, e))
  {
    FanOutGrowsStates(t.states, RowId(t, e.discordId, e.id), Members(t, t.channelIndex[e.channel]),
                      AuthorOf(t.accounts, e.authorId), e.now);
    PartsGrow(t, Ingested(t, e), RowId(t, e.discordId, e.id));
  }

  lemma StepGrows(t: Tables, op: Op)
    requires Keyed(t) && Legal(t, op)
    ensures Grows(t, Apply(t, op))
  {
    NothingGrows(t);
    if op.DoSend? {
      SendGrows(t, op.s);
    } else if op.DoIngest? {
      if op.e.channel in t.channelIndex {
        IngestGrows(t, op.e);
      }
    } else if op.DoRead? {
      ReadGrows(t, op.account, op.marked, op.now);
    } else {
      OtherTablesGrow(t, Apply(t, op));
    }
  }

  lemma NothingGrows(t: Tables)
    ensures Grows(t, t)
  {
  }

  lemma ReadGrows(t: Tables, account: string, marked: seq<nat>, now: int)
    ensures Grows(t, WithReads(t, account, marked, now))
  {
  }

  lemma OtherTablesGrow(t: Tables, t1: Tables)
    requires t1.messages == t.messages && t1.mentions == t.mentions && t1.states == t.states
    ensures Grows(t, t1)
  {
  }

  lemma GrowsTrans(t0: Tables, t1: Tables, t2: Tables)
    requires Grows(t0, t1) && Grows(t1, t2)
    ensures Grows(t0, t2)
  {
    forall m | m in t0.messages ensures m in t2.messages && Later(t0.messages[m], t2.messages[m]) {
      assert Later(t0.messages[m], t1.messages[m]);
      assert Later(t1.messages[m], t2.messages[m]);
    }
  }

  /**
   Over every run: one row per Discord id; a row's id, room, content and creation time
   are fixed at insertion; mention_everyone never goes back to false; the mention set
   only grows; the first read time of a state row stays.
   */
  lemma {:induction false} MergesNeverTakeBack(t: Tables, ops: seq<Op>)
    requires Keyed(t) && Runs(t, ops)
    ensures Grows(t, Final(t, ops))
    ensures forall m, n | m in Final(t, ops).messages && n in Final(t, ops).messages ::
              Final(t, ops).messages[m].discordId == Final(t, ops).messages[n].discordId ==> m == n
  {
    RunKeepsKeyed(t, ops);
    if ops != [] {
      var before := ops[..|ops| - 1];
      RunKeepsKeyed(t, before);
      MergesNeverTakeBack(t, before);
      StepGrows(Final(t, before), ops[|ops| - 1]);
      GrowsTrans(t, Final(t, before), Final(t, ops));
    }
    var t1 := Final(t, ops);
    assert Indexed(t1);
  }
}
