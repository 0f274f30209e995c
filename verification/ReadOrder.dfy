/**
 When ReadRoom's answer (internal/api/v1/messages.go) is one list from oldest to newest.
 The context band holds the newest read messages and the unread band the newest unread
 ones; nothing in the code makes the first end before the second begins.
 */
module ReadOrder {
  import opened Wrappers
  import opened Lists
  import opened Store
  import opened Pages
  import opened ReadRoom
  import C = Convergence

  /** The two bands of a default read. */
  lemma BandsAscend(t: Tables, a: string, room: nat, limit: nat)
    ensures var ctx := Reversed(ListReadHistory(t, a, room, Clamp(limit, false)));
            var unread := Reversed(ListUnread(t, a, room, UNREAD_CAP));
            && Ascending(t.messages, ctx) && Ascending(t.messages, unread) && Bands(t, a, room, limit) == ctx + unread
            && Elems(ctx) <= ReadOf(t, a, room) && Elems(unread) == MarkedBy(t, a, room)
            && (ReadOf(t, a, room) != {} ==> ctx != [])
            && forall r, c | r in ReadOf(t, a, room) - Elems(ctx) && c in ctx :: Newer(t.messages, c, r)
  {
    var read := ListReadHistory(t, a, room, Clamp(limit, false));
    ReadMarksTheNewest(t, a, room);
    NewestIsTop(t.messages, ReadOf(t, a, room), Clamp(limit, false));
    ReversedAscends(t.messages, read);
    ReversedAscends(t.messages, ListUnread(t, a, room, UNREAD_CAP));
    forall c | c in Reversed(read) ensures c in read {
      assert c in Elems(Reversed(read));
    }
  }

  lemma AscendingParts(ms: map<nat, Message>, s: seq<nat>, u: seq<nat>)
    requires Ascending(ms, s) && Ascending(ms, u) && (forall x | x in s + u :: x in ms)
    ensures Ascending(ms, s + u) <==> forall x, y | x in s && y in u :: Newer(ms, y, x)
  {
    var all := s + u;
    if Ascending(ms, all) {
      forall x, y | x in s && y in u ensures Newer(ms, y, x) {
        var i :| 0 <= i < |s| && s[i] == x;
        var j :| 0 <= j < |u| && u[j] == y;
        assert all[i] == x && all[|s| + j] == y;
      }
    }
    if forall x, y | x in s && y in u :: Newer(ms, y, x) {
      forall i, j | 0 <= i < j < |all| ensures all[i] in ms && all[j] in ms && Newer(ms, all[j], all[i]) {
        assert all[i] in all && all[j] in all;
        if i < |s| <= j {
          assert all[i] in s && all[j] in u;
        }
      }
    }
  }

  /** Every message the read marks is newer than every message already read. */
  ghost predicate UnreadIsNewer(t: Tables, a: string, room: nat) {
    forall r, u | r in ReadOf(t, a, room) && u in MarkedBy(t, a, room) ::
      u in t.messages && Newer(t.messages, u, r)
  }

  /**
   The answer runs from oldest to newest exactly if every message it marks is newer than
   every message of the room that the reader has already read, whatever the limit.
   */
  lemma AnswerSortedIff(t: Tables, a: string, room: nat, limit: nat)
    ensures Ascending(t.messages, Bands(t, a, room, limit)) <==> UnreadIsNewer(t, a, room)
  {
    var ctx := Reversed(ListReadHistory(t, a, room, Clamp(limit, false)));
    var unread := Reversed(ListUnread(t, a, room, UNREAD_CAP));
    BandsAscend(t, a, room, limit);
    ReadMarksTheNewest(t, a, room);
    forall x | x in ctx + unread ensures x in t.messages {
      assert x in Elems(ctx) || x in Elems(unread);
    }
    AscendingParts(t.messages, ctx, unread);
    if Ascending(t.messages, ctx + unread) {
      forall r, u | r in ReadOf(t, a, room) && u in MarkedBy(t, a, room) ensures Newer(t.messages, u, r) {
        assert u in Elems(unread);
        if r in Elems(ctx) {
          assert r in ctx && u in unread;
        } else {
          assert r in ReadOf(t, a, room) - Elems(ctx) && ctx[0] in ctx;
          assert Newer(t.messages, u, ctx[0]) && Newer(t.messages, ctx[0], r);
        }
      }
    }
    if UnreadIsNewer(t, a, room) {
      forall x, y | x in ctx && y in unread ensures Newer(t.messages, y, x) {
        assert x in Elems(ctx) && y in Elems(unread);
      }
    }
  }

  /** A backlog is read from its new end, so the second read of one is never in order. */
  lemma SecondReadSortedIff(t: Tables, a: string, room: nat, now: int, limit: nat)
    ensures Ascending(t.messages, Bands(AfterRead(t, a, room, now), a, room, limit))
            <==> |UnreadOf(t, a, room)| <= UNREAD_CAP
  {
    var t1 := AfterRead(t, a, room, now);
    AnswerSortedIff(t1, a, room, limit);
    ReadMarksTheNewest(t1, a, room);
    OneReadDrains(t, a, room, now);
    if |UnreadOf(t, a, room)| > UNREAD_CAP {
      BacklogIsOlder(t, a, room, now);
    } else {
      assert MarkedBy(t1, a, room) == {};
    }
  }

  /** What a full read leaves is older than what it marked. */
  lemma BacklogIsOlder(t: Tables, a: string, room: nat, now: int)
    requires |UnreadOf(t, a, room)| > UNREAD_CAP
    ensures !UnreadIsNewer(AfterRead(t, a, room, now), a, room)
  {
    var t1 := AfterRead(t, a, room, now);
    FullReadMarks(t, a, room);
    BacklogStays(t, a, room, now);
    var r :| r in MarkedBy(t, a, room);
    var u :| u in MarkedBy(t1, a, room);
    MarkedIsRead(t, a, room, now, r);
    LeftIsOlder(t, a, room, r, u);
  }

  lemma FullReadMarks(t: Tables, a: string, room: nat)
    requires UnreadOf(t, a, room) != {}
    ensures MarkedBy(t, a, room) != {}
  {
    ReadMarksTheNewest(t, a, room);
    assert |UnreadOf(t, a, room)| > 0;
  }

  lemma BacklogStays(t: Tables, a: string, room: nat, now: int)
    requires |UnreadOf(t, a, room)| > UNREAD_CAP
    ensures var t1 := AfterRead(t, a, room, now);
            MarkedBy(t1, a, room) != {} && MarkedBy(t1, a, room) <= UnreadOf(t, a, room) - MarkedBy(t, a, room)
  {
    var t1 := AfterRead(t, a, room, now);
    OneReadDrains(t, a, room, now);
    FullReadMarks(t1, a, room);
    ReadMarksTheNewest(t1, a, room);
    SetsAfterRead(t, a, room, now);
  }

  lemma MarkedIsRead(t: Tables, a: string, room: nat, now: int, r: nat)
    requires r in MarkedBy(t, a, room)
    ensures r in ReadOf(AfterRead(t, a, room, now), a, room)
  {
    ReadMarksTheNewest(t, a, room);
    assert r in UnreadOf(t, a, room);
    StateAfterRead(t, a, room, now, (r, a));
  }

  lemma LeftIsOlder(t: Tables, a: string, room: nat, r: nat, u: nat)
    requires r in MarkedBy(t, a, room) && u in UnreadOf(t, a, room) - MarkedBy(t, a, room)
    ensures r in t.messages && u in t.messages && Newer(t.messages, r, u)
  {
    ReadMarksTheNewest(t, a, room);
  }

  // ---------------------------------------------------------------- sending before reading

  /** The message about to be sent is newer than everything its sender has not read in the room. */
  predicate SendsLast(t: Tables, s: C.Send) {
    forall u | u in UnreadOf(t, s.actor, s.room) ::
      t.messages[u].createdAt < s.createdAt || (t.messages[u].createdAt == s.createdAt && u < s.id)
  }

  lemma SentTables(t: Tables, s: C.Send)
    requires Indexed(t) && s.discordId !in t.discordIndex
    ensures var t1 := C.Sent(t, s);
            && t1.messages == t.messages[s.id := C.SentRow(s)]
            && t1.states == C.FanOut(t.states, s.id, Members(t, s.room) + {s.actor}, Some(s.actor), s.now)
  {
  }

  lemma SenderHasRead(t: Tables, s: C.Send, m: nat)
    requires (s.id, s.actor) !in t.states
    ensures var (before, k) := (t.states, (m, s.actor));
            var after := C.FanOut(before, s.id, Members(t, s.room) + {s.actor}, Some(s.actor), s.now);
            if m == s.id then k in after && after[k] == Some(s.now)
            else (k in after <==> k in before) && (k in before ==> after[k] == before[k])
  {
    assert (m, s.actor) in Cells(s.id, Members(t, s.room) + {s.actor}) <==> m == s.id;
  }

  /** A committed send of a new message adds it to what its sender has read, and nothing to what they have not. */
  lemma SendIsRead(t: Tables, s: C.Send)
    requires Indexed(t) && s.discordId !in t.discordIndex && s.id !in t.messages && (s.id, s.actor) !in t.states
    ensures var t1 := C.Sent(t, s);
            && t1.messages == t.messages[s.id := C.SentRow(s)]
            && UnreadOf(t1, s.actor, s.room) == UnreadOf(t, s.actor, s.room)
            && s.id in ReadOf(t1, s.actor, s.room)
  {
    var t1 := C.Sent(t, s);
    SentTables(t, s);
    SenderHasRead(t, s, s.id);
    forall m ensures m in UnreadOf(t1, s.actor, s.room) <==> m in UnreadOf(t, s.actor, s.room) {
      SenderHasRead(t, s, m);
    }
  }

  /**
   Whoever sends the newest message of a room before reading it gets an answer out of
   order exactly if something was still unread: their own message is already read.
   */
  lemma OwnSendSortedIff(t: Tables, s: C.Send, limit: nat)
    requires Keyed(t) && C.SendTx(t, s).Ok? && s.discordId !in t.discordIndex && s.id !in t.messages
    requires SendsLast(t, s)
    ensures var t1 := C.SendTx(t, s).value;
            Ascending(t1.messages, Bands(t1, s.actor, s.room, limit)) <==> UnreadOf(t, s.actor, s.room) == {}
  {
    var t1 := C.Sent(t, s);
    assert (s.id, s.actor) !in t.states;
    SendIsRead(t, s);
    AnswerSortedIff(t1, s.actor, s.room, limit);
    NewestIsRead(t1, s.actor, s.room, s.id);
  }

  /** Once a message newer than everything unread has been read. */
  lemma NewestIsRead(t: Tables, a: string, room: nat, own: nat)
    requires own in ReadOf(t, a, room) && forall u | u in UnreadOf(t, a, room) :: Newer(t.messages, own, u)
    ensures UnreadIsNewer(t, a, room) <==> UnreadOf(t, a, room) == {}
  {
    ReadMarksTheNewest(t, a, room);
    if UnreadOf(t, a, room) != {} {
      FullReadMarks(t, a, room);
      var u :| u in MarkedBy(t, a, room);
      assert !Newer(t.messages, u, own);
    }
  }

  /** A room of two members in which one message is unread. */
  function OneUnread(): Tables {
    Tables([Account("a", "", false), Account("b", "", false)],
           map[0 := Room("c", "r", false)], map["c" := 0],
           map[("a", 0) := Membership(true, 0), ("b", 0) := Membership(true, 0)],
           map[0 := Message(0, Some("b"), "d", "hi", None, Normal, 1, Hash("hi"), false)], map["d" := 0],
           map[(0, "a") := None], {}, [], 0, [])
  }

  function Reply(): C.Send {
    C.Send(1, 0, "a", "e", "hello", None, Normal, 2, false, [], [], [], 2)
  }

  lemma OneUnreadIsIndexed()
    ensures Indexed(OneUnread()) && FilesOrdered(OneUnread())
  {
  }

  lemma OneUnreadIsClosed()
    ensures Closed(OneUnread())
  {
    var t := OneUnread();
    assert t.accounts[0].id == "a" && t.accounts[1].id == "b";
  }

  lemma OneUnreadWaits()
    ensures var (t, s) := (OneUnread(), Reply());
            && HasAccount(t, s.actor) && 0 in UnreadOf(t, s.actor, s.room) && SendsLast(t, s)
            && s.discordId !in t.discordIndex && s.id !in t.messages && s.room in t.rooms
  {
    assert OneUnread().accounts[0].id == "a";
  }

  /** A plain message commits. */
  lemma PlainSendCommits(t: Tables, s: C.Send)
    requires s.discordId !in t.discordIndex && s.room in t.rooms && HasAccount(t, s.actor)
    requires s.replyTo.None? && s.mentioned == [] && s.uploads == []
    ensures C.SendTx(t, s).Ok?
  {
    assert Named(s.mentioned) == {};
  }

  /** A new message commits that is newer than everything its sender has not read, `u` among it. */
  ghost predicate Overtakes(t: Tables, s: C.Send, u: nat) {
    && Keyed(t) && s.discordId !in t.discordIndex && s.id !in t.messages && C.SendTx(t, s).Ok?
    && SendsLast(t, s) && u in UnreadOf(t, s.actor, s.room)
  }

  lemma OvertakingUnsorts(t: Tables, s: C.Send, u: nat, limit: nat)
    requires Overtakes(t, s, u)
    ensures !Ascending(C.SendTx(t, s).value.messages, Bands(C.SendTx(t, s).value, s.actor, s.room, limit))
  {
    OwnSendSortedIff(t, s, limit);
  }

  lemma PlainOvertakes(t: Tables, s: C.Send, u: nat)
    requires Keyed(t) && s.discordId !in t.discordIndex && s.id !in t.messages
    requires s.room in t.rooms && HasAccount(t, s.actor) && s.replyTo.None? && s.mentioned == [] && s.uploads == []
    requires SendsLast(t, s) && u in UnreadOf(t, s.actor, s.room)
    ensures Overtakes(t, s, u)
  {
    PlainSendCommits(t, s);
  }

  lemma ReplyOvertakes()
    ensures Overtakes(OneUnread(), Reply(), 0)
  {
    OneUnreadIsIndexed();
    OneUnreadIsClosed();
    OneUnreadWaits();
    PlainOvertakes(OneUnread(), Reply(), 0);
  }

  /** The reader's own message comes first in the answer, before the older one it follows. */
  lemma OwnReplyComesFirst(limit: nat)
    ensures Overtakes(OneUnread(), Reply(), 0)
    ensures var t1 := C.SendTx(OneUnread(), Reply()).value;
            !Ascending(t1.messages, Bands(t1, Reply().actor, Reply().room, limit))
  {
    ReplyOvertakes();
    OvertakingUnsorts(OneUnread(), Reply(), 0, limit);
  }
}
