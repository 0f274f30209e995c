/**
 The files of a sent message while everything else goes on: downloads that fill in a
 placeholder between an echo and the send or after it, reads, membership changes and
 undone transactions.
 */
module FileOrder {
  import opened Wrappers
  import opened Store
  import opened Convergence
  import opened Merge
  import opened MergeOrder

  /** Any transaction; those of this message are the send itself and faithful echoes. */
  predicate Permitted(t: Tables, s: Send, op: Op) {
    About(op, s.discordId) ==> op == DoSend(s) || (op.DoIngest? && Faithful(t, s, op.e))
  }

  ghost predicate History(t: Tables, s: Send, ops: seq<Op>) {
    Runs(t, ops) && forall i | 0 <= i < |ops| :: Permitted(t, s, ops[i])
  }

  /** The paths that downloads wrote. */
  function DownloadPaths(ops: seq<Op>): set<string> {
    set op | op in ops && op.DoDownload? :: op.path
  }

  /**
   One row per upload under the provider's name and url; once sent, each is downloaded,
   to the upload's path or a download's.
   */
  ghost predicate FilesKept(fs: seq<Attachment>, s: Send, sent: bool, paths: set<string>) {
    && |fs| == |s.uploads|
    && (forall i | 0 <= i < |fs| :: fs[i].filename == FileName(s, i) && fs[i].url == FileUrl(s, i))
    && (sent ==> forall i | 0 <= i < |fs| ::
          fs[i].downloadedAt.Some? && (fs[i].localPath == s.uploads[i].path || fs[i].localPath in paths))
  }

  ghost predicate Holds(t: Tables, s: Send, sent: bool, paths: set<string>) {
    && Shows(t, s.discordId)
    && FilesKept(FilesOf(t.attachments, t.discordIndex[s.discordId]), s, sent, paths)
  }

  ghost predicate Stands(t: Tables, s: Send, seen: bool, sent: bool, paths: set<string>) {
    if seen then Holds(t, s, sent, paths) else s.discordId !in t.discordIndex && !sent
  }

  // ---------------------------------------------------------------- what no transaction changes

  predicate SameRooms(t: Tables, t1: Tables) {
    t1.accounts == t.accounts && t1.rooms == t.rooms && t1.channelIndex == t.channelIndex
  }

  lemma StepKeepsRooms(t: Tables, op: Op)
    requires Indexed(t)
    ensures SameRooms(t, Apply(t, op))
  {
    if Delivers(op) {
      StepKeepsDirectory(t, op);
    }
  }

  lemma SendStillCommits(t0: Tables, t: Tables, s: Send)
    requires Ready(t0, s) && SameRooms(t0, t) && Grows(t0, t) && Indexed(t)
    ensures SendTx(t, s) == Ok(Sent(t, s))
  {
    forall a ensures HasAccount(t, a) <==> HasAccount(t0, a) {
    }
    assert SendRefs(t, s);
  }

  lemma EchoStillCommits(t0: Tables, t: Tables, s: Send, e: Event)
    requires Ready(t0, s) && SameRooms(t0, t) && Indexed(t) && Faithful(t0, s, e)
    ensures Faithful(t, s, e) && e.channel in t.channelIndex && IngestTx(t, e) == Ok(Ingested(t, e))
  {
    ChannelRoom(t, s, e);
  }

  // ---------------------------------------------------------------- one transaction

  lemma SendGivesFiles(t: Tables, s: Send, seen: bool, sent: bool, paths: set<string>)
    requires Keyed(t) && s.id !in t.messages && Stands(t, s, seen, sent, paths)
    ensures Holds(Sent(t, s), s, true, paths)
  {
    if seen {
      SendMergesFiles(t, s, false);
    } else {
      SendInsertsFiles(t, s);
    }
  }

  lemma EchoKeepsFiles(t: Tables, s: Send, e: Event, seen: bool, sent: bool, paths: set<string>)
    requires Keyed(t) && e.id !in t.messages && Faithful(t, s, e) && Stands(t, s, seen, sent, paths)
    requires e.channel in t.channelIndex
    ensures Holds(Ingested(t, e), s, sent, paths)
  {
    if seen {
      assert Ingested(t, e).attachments == t.attachments;
    } else {
      EchoInsertsFiles(t, s, e);
      assert Ingested(t, e).attachments == t.attachments + Placeholders(e.id, e.files, t.nextFile);
    }
  }

  /** A download fills in or overwrites a path. */
  lemma DownloadKeepsFiles(t: Tables, s: Send, id: nat, path: string, at: int, sent: bool, paths: set<string>)
    requires Holds(t, s, sent, paths)
    ensures Holds(t.(attachments := MarkRow(t.attachments, id, path, at)), s, sent, paths + {path})
  {
    FilesOfMark(t.attachments, id, path, at, t.discordIndex[s.discordId]);
  }

  lemma OwnFiles(t0: Tables, t: Tables, s: Send, op: Op, seen: bool, sent: bool, paths: set<string>)
    requires Ready(t0, s) && SameRooms(t0, t) && Grows(t0, t) && Keyed(t) && Legal(t, op)
    requires Permitted(t0, s, op) && About(op, s.discordId) && Stands(t, s, seen, sent, paths)
    ensures Holds(Apply(t, op), s, sent || op.DoSend?, paths)
  {
    if op.DoSend? {
      SendStillCommits(t0, t, s);
      SendGivesFiles(t, s, seen, sent, paths);
    } else {
      EchoStillCommits(t0, t, s, op.e);
      EchoKeepsFiles(t, s, op.e, seen, sent, paths);
    }
  }

  lemma OtherFiles(t: Tables, s: Send, op: Op, seen: bool, sent: bool, paths: set<string>)
    requires Keyed(t) && Legal(t, op) && !About(op, s.discordId) && Stands(t, s, seen, sent, paths)
    ensures Stands(Apply(t, op), s, seen, sent, paths + if op.DoDownload? then {op.path} else {})
  {
    if Delivers(op) {
      OtherStep(t, s, op);
    } else if op.DoDownload? && seen {
      DownloadKeepsFiles(t, s, op.id, op.path, op.at, sent, paths);
    }
  }

  // ---------------------------------------------------------------- all runs

  lemma PathsGrow(ops: seq<Op>, op: Op)
    ensures DownloadPaths(ops + [op]) == DownloadPaths(ops) + if op.DoDownload? then {op.path} else {}
  {
    forall o ensures o in ops + [op] <==> o in ops || o == op {
    }
  }

  lemma {:induction false} FilesProgress(t0: Tables, s: Send, ops: seq<Op>)
    requires Ready(t0, s) && History(t0, s, ops)
    ensures SameRooms(t0, Final(t0, ops))
    ensures Stands(Final(t0, ops), s, Seen(ops, s.discordId), DoSend(s) in ops, DownloadPaths(ops))
  {
    if ops != [] {
      var n := |ops| - 1;
      var (before, op, d) := (ops[..n], ops[n], s.discordId);
      assert ops == before + [op];
      forall i | 0 <= i < n ensures Permitted(t0, s, before[i]) {
        assert before[i] == ops[i];
      }
      FilesProgress(t0, s, before);
      RunKeepsKeyed(t0, before);
      MergesNeverTakeBack(t0, before);
      StepKeepsRooms(Final(t0, before), op);
      Accumulate(s, ops);
      PathsGrow(before, op);
      if About(op, d) {
        OwnFiles(t0, Final(t0, before), s, op, Seen(before, d), DoSend(s) in before, DownloadPaths(before));
      } else {
        OtherFiles(Final(t0, before), s, op, Seen(before, d), DoSend(s) in before, DownloadPaths(before));
      }
    }
  }

  /**
   After every run that holds the send, whatever is downloaded, read or undone in
   between: one downloaded row per upload, under the provider's name and url, at the
   upload's path or at one that a download wrote.
   */
  lemma SentFilesAreDownloaded(t0: Tables, s: Send, ops: seq<Op>)
    requires Ready(t0, s) && History(t0, s, ops) && DoSend(s) in ops
    ensures var (t, d) := (Final(t0, ops), s.discordId);
            && Shows(t, d)
            && var fs := FilesOf(t.attachments, t.discordIndex[d]);
            && |fs| == |s.uploads|
            && forall i | 0 <= i < |fs| ::
                 && fs[i].filename == FileName(s, i) && fs[i].url == FileUrl(s, i) && fs[i].downloadedAt.Some?
                 && (fs[i].localPath == s.uploads[i].path || fs[i].localPath in DownloadPaths(ops))
  {
    FilesProgress(t0, s, ops);
    var i :| 0 <= i < |ops| && ops[i] == DoSend(s);
    assert About(ops[i], s.discordId);
  }
}
