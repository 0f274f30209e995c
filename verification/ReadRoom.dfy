/**
 ReadRoom (internal/api/v1/messages.go): the default mode lists unread and context,
 marks the unread rows in the same transaction, and answers oldest first per band;
 the before mode only pages through history.
 */
module ReadRoom {
  import opened Wrappers
  import opened Lists
  import opened Store
  import opened Pages
  import opened Aggregates

  const UNREAD_CAP := 200

  // ---------------------------------------------------------------- the two bands

  function UnreadOf(t: Tables, a: string, room: nat): (ids: set<nat>)
    ensures ids <= t.messages.Keys
  {
    set m | m in t.messages && t.messages[m].room == room && (m, a) in t.states && t.states[(m, a)].None?
  }

  function ReadOf(t: Tables, a: string, room: nat): (ids: set<nat>)
    ensures ids <= t.messages.Keys
  {
    set m | m in t.messages && t.messages[m].room == room && (m, a) in t.states && t.states[(m, a)].Some?
  }

  /** ListUnreadForAccountInRoom falls back to 200. */
  function ListUnread(t: Tables, a: string, room: nat, limit: int): seq<nat> {
    Newest(t.messages, UnreadOf(t, a, room), if limit <= 0 || limit > 200 then 200 else limit)
  }

  /** ListReadHistoryForAccountInRoom falls back to 10. */
  function ListReadHistory(t: Tables, a: string, room: nat, limit: int): seq<nat> {
    Newest(t.messages, ReadOf(t, a, room), if limit <= 0 || limit > 200 then 10 else limit)
  }

  function Reversed(s: seq<nat>): seq<nat> {
    seq(|s|, i requires 0 <= i < |s| => s[|s| - 1 - i])
  }

  // ---------------------------------------------------------------- the handler as a function

  datatype Page = Page(messages: seq<nat>, marked: seq<nat>, subscribed: bool, more: bool)

  /** Why the transaction refuses, if it does. */
  function Refusal(t: Tables, a: string, room: nat, limit: int): Option<DbError> {
    if limit < 0 then Some(InvalidArgument)
    else if room !in t.rooms then Some(NotFound)
    else if !HasAccount(t, a) then Some(NotFound)
    else if !IsAdmin(t, a) && (a, room) !in t.memberships then Some(PermDenied)
    else None
  }

  function SubscribedIn(t: Tables, a: string, room: nat): bool {
    (a, room) in t.memberships && t.memberships[(a, room)].subscribed
  }

  function Bands(t: Tables, a: string, room: nat, limit: nat): seq<nat> {
    Reversed(ListReadHistory(t, a, room, Clamp(limit, false))) + Reversed(ListUnread(t, a, room, UNREAD_CAP))
  }

  /** `accepted` is whether the audit rows are written. */
  function Answer(t: Tables, a: string, room: nat, limit: int, before: Option<nat>,
                  accepted: bool): Result<Page, DbError> {
    if Refusal(t, a, room, limit).Some? then Err(Refusal(t, a, room, limit).value)
    else if before.Some? then
      var rows := List(t, room, before, Clamp(limit, true));
      Ok(Page(rows, [], SubscribedIn(t, a, room), |rows| == Clamp(limit, true)))
    else
      var unread := ListUnread(t, a, room, UNREAD_CAP);
      if unread != [] && !accepted then Err(Internal)
      else Ok(Page(Bands(t, a, room, limit), unread, SubscribedIn(t, a, room), |unread| == UNREAD_CAP))
  }

  // ---------------------------------------------------------------- the handler as code

  lemma MarkOneMore(states: map<(nat, string), Option<int>>, a: string, marked: set<nat>, m: nat, now: int)
    ensures var s := Marked(states, a, marked, now);
            Marked(states, a, marked + {m}, now) == s[(m, a) := Coalesce(s, (m, a), Some(now))]
  {
    var s := Marked(states, a, marked, now);
    assert (set x | x in marked + {m} :: (x, a)) == (set x | x in marked :: (x, a)) + {(m, a)};
  }

  lemma ReadsGrow(t: Tables, a: string, unread: seq<nat>, i: nat, now: int)
    requires i < |unread|
    ensures var (t1, k) := (WithReads(t, a, unread[..i], now), (unread[i], a));
            WithReads(t, a, unread[..i + 1], now)
              == t1.(states := t1.states[k := Coalesce(t1.states, k, Some(now))],
                     audit := t1.audit + [MessageRead(a, unread[i])])
  {
    assert unread[..i + 1] == unread[..i] + [unread[i]];
    assert Elems(unread[..i + 1]) == Elems(unread[..i]) + {unread[i]};
    MarkOneMore(t.states, a, Elems(unread[..i]), unread[i], now);
    assert ReadRows(a, unread[..i + 1]) == ReadRows(a, unread[..i]) + [MessageRead(a, unread[i])];
  }

  /** Upsert and audit one row after the other. */
  method MarkRead(db: Db, a: string, unread: seq<nat>, now: int, accepted: bool) returns (r: Result<(), DbError>)
    requires HasAccount(db.t, a) && forall m | m in unread :: m in db.t.messages
    modifies db
    ensures r == if unread == [] || accepted then Ok(()) else Err(Internal)
    ensures r.Ok? ==> db.t == WithReads(old(db.t), a, unread, now)
  {
    ghost var start := db.t;
    var i := 0;
    assert WithReads(start, a, unread[..0], now) == start;
    while i < |unread|
      invariant 0 <= i <= |unread|
      invariant i > 0 ==> accepted
      invariant db.t == WithReads(start, a, unread[..i], now)
    {
      ReadsGrow(start, a, unread, i, now);
      assert HasAccount(start, a);
      var u := db.UpsertState((unread[i], a), Some(now));
      var c := db.Record(MessageRead(a, unread[i]), accepted);
      if c.Err? {
        return c;
      }
      i := i + 1;
    }
    assert unread[..i] == unread;
    return Ok(());
  }

  /** The two loops that turn newest-first lists around while appending them. */
  method JoinBands(ctx: seq<nat>, unread: seq<nat>) returns (messages: seq<nat>)
    ensures messages == Reversed(ctx) + Reversed(unread)
  {
    messages := [];
    var i := |ctx|;
    while i > 0
      invariant 0 <= i <= |ctx|
      invariant messages == Reversed(ctx)[..|ctx| - i]
    {
      i := i - 1;
      messages := messages + [ctx[i]];
    }
    i := |unread|;
    while i > 0
      invariant 0 <= i <= |unread|
      invariant messages == Reversed(ctx) + Reversed(unread)[..|unread| - i]
    {
      i := i - 1;
      messages := messages + [unread[i]];
    }
  }

  // ---------------------------------------------------------------- what the answer is, told by the tables

  /** The room's messages that come before the message `c` in (created_at, id) order. */
  function OlderThan(t: Tables, room: nat, c: nat): (ids: set<nat>)
    ensures ids <= t.messages.Keys
  {
    set m | m in t.messages && c in t.messages && t.messages[m].room == room
      && (t.messages[m].createdAt < t.messages[c].createdAt
          || (t.messages[m].createdAt == t.messages[c].createdAt && m < c))
  }

  /** 0 is the mode's default, 200 a ceiling. */
  function Wanted(limit: nat, standard: nat): nat {
    if limit == 0 then standard else if limit > 200 then 200 else limit
  }

  /** A page of history: the newest messages before the cursor, nothing marked, and more only if the page is full. */
  ghost predicate HistoryPage(t: Tables, a: string, room: nat, limit: nat, c: nat, page: Page) {
    && IsTop(t.messages, OlderThan(t, room, c), Wanted(limit, 50), page.messages)
    && page.marked == []
    && (page.subscribed <==> (a, room) in t.memberships && t.memberships[(a, room)].subscribed)
    && (page.more <==> |page.messages| == Wanted(limit, 50))
    && (!page.more ==> forall m | m in OlderThan(t, room, c) :: m in page.messages)
  }

  lemma HistoryAnswer(t: Tables, a: string, room: nat, limit: nat, c: nat, accepted: bool)
    requires Refusal(t, a, room, limit).None?
    ensures Answer(t, a, room, limit, Some(c), accepted).Ok?
    ensures HistoryPage(t, a, room, limit, c, Answer(t, a, room, limit, Some(c), accepted).value)
  {
    assert OlderThan(t, room, c) == Older(t, room, Some(c));
    ClampIsEffective(t, room, Some(c), limit, true);
    var page := Answer(t, a, room, limit, Some(c), accepted).value.messages;
    NewestIsTop(t.messages, OlderThan(t, room, c), Wanted(limit, 50));
    if |page| < Wanted(limit, 50) {
      AllOfThem(t.messages, OlderThan(t, room, c), page);
    }
  }

  lemma AllOfThem(ms: map<nat, Message>, ids: set<nat>, page: seq<nat>)
    requires ids <= ms.Keys && Descending(ms, page) && Elems(page) <= ids && |page| == |ids|
    ensures forall m | m in ids :: m in page
  {
    DistinctSize(ms, page);
    SizeAfter(ids, page);
    forall m | m in ids ensures m in page {
      assert m in Elems(page) || m in ids - Elems(page);
    }
  }

  /**
   A default read: the newest read messages and then the newest unread ones, each oldest
   first; exactly the latter are marked, each with its audit row.
   */
  ghost predicate DefaultRead(t: Tables, t1: Tables, a: string, room: nat, limit: nat, now: int, page: Page) {
    var n := |page.messages| - |page.marked|;
    && IsTop(t.messages, UnreadOf(t, a, room), 200, page.marked)
    && n >= 0 && IsTop(t.messages, ReadOf(t, a, room), Wanted(limit, 10), Reversed(page.messages[..n]))
    && page.messages[n..] == Reversed(page.marked)
    && (page.subscribed <==> (a, room) in t.memberships && t.memberships[(a, room)].subscribed)
    && (page.more <==> |page.marked| == 200)
    && Reads(t, t1, a, now, page.marked)
  }

  /** The marked messages' states are read now, with one audit row each in order; nothing else differs. */
  ghost predicate Reads(t: Tables, t1: Tables, a: string, now: int, marked: seq<nat>) {
    && t1 == t.(states := t1.states, audit := t1.audit)
    && t1.states.Keys == t.states.Keys
    && (forall k | k in t.states :: t1.states[k] == if k.1 == a && k.0 in marked then Some(now) else t.states[k])
    && |t1.audit| == |t.audit| + |marked| && t.audit <= t1.audit
    && (forall i | 0 <= i < |marked| :: t1.audit[|t.audit| + i] == MessageRead(a, marked[i]))
  }

  lemma ReversedTwice(s: seq<nat>)
    ensures Reversed(Reversed(s)) == s
  {
  }

  lemma MarkedUnread(t: Tables, a: string, room: nat, now: int, marked: seq<nat>)
    requires Elems(marked) <= UnreadOf(t, a, room)
    ensures Reads(t, WithReads(t, a, marked, now), a, now, marked)
  {
    forall m | m in marked ensures (m, a) in t.states && t.states[(m, a)].None? {
      assert m in Elems(marked) && m in UnreadOf(t, a, room);
    }
    assert forall m :: m in Elems(marked) <==> m in marked;
  }

  lemma DefaultAnswer(t: Tables, a: string, room: nat, limit: nat, now: int, accepted: bool)
    requires Answer(t, a, room, limit, None, accepted).Ok?
    ensures var page := Answer(t, a, room, limit, None, accepted).value;
            DefaultRead(t, WithReads(t, a, page.marked, now), a, room, limit, now, page)
  {
    var read := ListReadHistory(t, a, room, Clamp(limit, false));
    NewestIsTop(t.messages, ReadOf(t, a, room), Wanted(limit, 10));
    NewestIsTop(t.messages, UnreadOf(t, a, room), 200);
    ReversedTwice(read);
    MarkedUnread(t, a, room, now, ListUnread(t, a, room, UNREAD_CAP));
  }

  /** Whom the handler lets in, and how it refuses the others. */
  ghost predicate Admits(t: Tables, a: string, room: nat) {
    && room in t.rooms && (exists i :: 0 <= i < |t.accounts| && t.accounts[i].id == a)
    && ((a, room) in t.memberships || exists i :: 0 <= i < |t.accounts| && t.accounts[i].id == a && t.accounts[i].admin)
  }

  lemma RefusalIs(t: Tables, a: string, room: nat, limit: int)
    ensures Refusal(t, a, room, limit).None? <==> limit >= 0 && Admits(t, a, room)
    ensures limit < 0 ==> Refusal(t, a, room, limit) == Some(InvalidArgument)
    ensures limit >= 0 && (room !in t.rooms || !(exists i :: 0 <= i < |t.accounts| && t.accounts[i].id == a)) ==>
              Refusal(t, a, room, limit) == Some(NotFound)
    ensures limit >= 0 && room in t.rooms && (exists i :: 0 <= i < |t.accounts| && t.accounts[i].id == a) ==>
              !Admits(t, a, room) ==> Refusal(t, a, room, limit) == Some(PermDenied)
  {
  }

  /** The default mode, once the caller is let in. */
  method ReadBands(db: Db, a: string, room: nat, limit: nat, ctxLimit: nat, now: int, accepted: bool)
    returns (r: Result<Page, DbError>)
    requires Refusal(db.t, a, room, limit).None? && ctxLimit == Clamp(limit, false)
    modifies db
    ensures r == Answer(old(db.t), a, room, limit, None, accepted)
    ensures db.t == if r.Ok? then WithReads(old(db.t), a, r.value.marked, now) else old(db.t)
  {
    var subscribed := SubscribedIn(db.t, a, room);
    var saved := db.t;
    var unread := ListUnread(db.t, a, room, UNREAD_CAP);
    var ctx := ListReadHistory(db.t, a, room, ctxLimit);
    NewestElems(db.t.messages, UnreadOf(db.t, a, room), UNREAD_CAP);
    assert forall m | m in unread :: m in Elems(unread);
    var m := MarkRead(db, a, unread, now, accepted);
    if m.Err? {
      db.t := saved;
      return Err(m.error);
    }
    var messages := JoinBands(ctx, unread);
    return Ok(Page(messages, unread, subscribed, |unread| == UNREAD_CAP));
  }

  method ReadRoomTx(db: Db, a: string, room: nat, limit: int, before: Option<nat>, now: int, accepted: bool)
    returns (r: Result<Page, DbError>)
    modifies db
    ensures r == Answer(old(db.t), a, room, limit, before, accepted)
    ensures r.Ok? ==> limit >= 0 && Admits(old(db.t), a, room)
    ensures db.t == if r.Ok? then WithReads(old(db.t), a, r.value.marked, now) else old(db.t)
    ensures r.Ok? ==> if before.Some?
                      then HistoryPage(old(db.t), a, room, limit, before.value, r.value) && db.t == old(db.t)
                      else DefaultRead(old(db.t), db.t, a, room, limit, now, r.value)
  {
    if limit < 0 {
      return Err(InvalidArgument);
    }
    var ctxLimit := limit;
    if ctxLimit == 0 {
      ctxLimit := if before.Some? then 50 else 10;
    }
    if ctxLimit > 200 {
      ctxLimit := 200;
    }
    var g := db.GetRoom(room);
    if g.Err? {
      return Err(g.error);
    }
    if !HasAccount(db.t, a) {
      return Err(NotFound);
    }
    if !IsAdmin(db.t, a) && (a, room) !in db.t.memberships {
      return Err(PermDenied);
    }
    RefusalIs(db.t, a, room, limit);
    if before.Some? {
      var rows := List(db.t, room, before, ctxLimit);
      assert WithReads(db.t, a, [], now) == db.t;
      HistoryAnswer(db.t, a, room, limit, before.value, accepted);
      return Ok(Page(rows, [], SubscribedIn(db.t, a, room), |rows| == ctxLimit));
    }
    ghost var saved := db.t;
    r := ReadBands(db, a, room, limit, ctxLimit, now, accepted);
    if r.Ok? {
      DefaultAnswer(saved, a, room, limit, now, accepted);
    }
  }

  // ---------------------------------------------------------------- paging back with the handler

  /** A client's loop: ask again from the last message of each answer while there is more. */
  ghost function HistoryOf(t: Tables, a: string, room: nat, limit: nat, c: nat): seq<nat>
    requires Refusal(t, a, room, limit).None?
    decreases |OlderThan(t, room, c)|
  {
    HistoryAnswer(t, a, room, limit, c, true);
    var page := Answer(t, a, room, limit, Some(c), true).value;
    if !page.more then page.messages
    else
      FullPageShrinks(t, a, room, limit, c, page);
      page.messages + HistoryOf(t, a, room, limit, page.messages[|page.messages| - 1])
  }

  /** What is before the last message of a page is what the page left out. */
  lemma LastIsCursor(t: Tables, room: nat, c: nat, n: nat, page: seq<nat>)
    requires IsTop(t.messages, OlderThan(t, room, c), n, page) && page != []
    ensures OlderThan(t, room, page[|page| - 1]) == OlderThan(t, room, c) - Elems(page)
  {
    var last := page[|page| - 1];
    assert last in Elems(page);
    forall m ensures m in OlderThan(t, room, last) <==> m in OlderThan(t, room, c) - Elems(page) {
      if m in page {
        var i :| 0 <= i < |page| && page[i] == m;
        assert i == |page| - 1 || Newer(t.messages, page[i], page[|page| - 1]);
      } else if m in OlderThan(t, room, c) {
        assert Newer(t.messages, page[|page| - 1], m);
      }
    }
  }

  lemma FullPageShrinks(t: Tables, a: string, room: nat, limit: nat, c: nat, page: Page)
    requires HistoryPage(t, a, room, limit, c, page) && page.more
    ensures page.messages != []
    ensures |OlderThan(t, room, page.messages[|page.messages| - 1])| < |OlderThan(t, room, c)|
  {
    var ids := OlderThan(t, room, c);
    LastIsCursor(t, room, c, Wanted(limit, 50), page.messages);
    assert page.messages[0] in Elems(page.messages);
    StrictSubset(ids - Elems(page.messages), ids, page.messages[0]);
  }

  lemma JoinDescending(t: Tables, room: nat, c: nat, n: nat, page: seq<nat>, rest: seq<nat>)
    requires IsTop(t.messages, OlderThan(t, room, c), n, page) && page != []
    requires Descending(t.messages, rest) && Elems(rest) == OlderThan(t, room, page[|page| - 1])
    ensures Descending(t.messages, page + rest) && Elems(page + rest) == OlderThan(t, room, c)
  {
    var all := page + rest;
    LastIsCursor(t, room, c, n, page);
    forall x ensures x in all <==> x in page || x in rest {
    }
    assert Elems(all) == Elems(page) + Elems(rest);
    forall i, j | 0 <= i < j < |all|
      ensures all[i] in t.messages && all[j] in t.messages && Newer(t.messages, all[i], all[j])
    {
      if i < |page| <= j {
        assert all[j] in Elems(rest) && page[i] in Elems(page);
      }
    }
  }

  /**
   Iterating the handler's own answers gives the messages before the cursor, all of them,
   each once, newest first.
   */
  lemma {:induction false} HandlerHistoryIsExact(t: Tables, a: string, room: nat, limit: nat, c: nat)
    requires Refusal(t, a, room, limit).None?
    ensures var all := HistoryOf(t, a, room, limit, c);
            && Descending(t.messages, all) && Elems(all) == OlderThan(t, room, c) && |all| == |OlderThan(t, room, c)|
    decreases |OlderThan(t, room, c)|
  {
    HistoryAnswer(t, a, room, limit, c, true);
    var page := Answer(t, a, room, limit, Some(c), true).value;
    if page.more {
      FullPageShrinks(t, a, room, limit, c, page);
      var last := page.messages[|page.messages| - 1];
      HandlerHistoryIsExact(t, a, room, limit, last);
      JoinDescending(t, room, c, Wanted(limit, 50), page.messages, HistoryOf(t, a, room, limit, last));
    } else {
      assert forall m | m in OlderThan(t, room, c) :: m in Elems(page.messages);
    }
    DistinctSize(t.messages, HistoryOf(t, a, room, limit, c));
  }

  // ---------------------------------------------------------------- conservation

  /** The tables after a default read by `a`. */
  function AfterRead(t: Tables, a: string, room: nat, now: int): Tables {
    WithReads(t, a, ListUnread(t, a, room, UNREAD_CAP), now)
  }

  function MarkedBy(t: Tables, a: string, room: nat): set<nat> {
    Elems(ListUnread(t, a, room, UNREAD_CAP))
  }

  /** A read marks exactly the min(200, unread) newest unread messages of the room. */
  lemma ReadMarksTheNewest(t: Tables, a: string, room: nat)
    ensures IsTop(t.messages, UnreadOf(t, a, room), UNREAD_CAP, ListUnread(t, a, room, UNREAD_CAP))
    ensures MarkedBy(t, a, room) <= UnreadOf(t, a, room)
    ensures |MarkedBy(t, a, room)| == |ListUnread(t, a, room, UNREAD_CAP)| == Min(UNREAD_CAP, |UnreadOf(t, a, room)|)
  {
    NewestIsTop(t.messages, UnreadOf(t, a, room), UNREAD_CAP);
    DistinctSize(t.messages, ListUnread(t, a, room, UNREAD_CAP));
  }

  /** After the read a state is unread exactly if it was and is not among the marked ones. */
  lemma StateAfterRead(t: Tables, a: string, room: nat, now: int, k: (nat, string))
    ensures k in AfterRead(t, a, room, now).states <==> k in t.states
    ensures k in t.states ==>
              var s := AfterRead(t, a, room, now).states;
              s[k].None? <==> t.states[k].None? && !(k.1 == a && k.0 in MarkedBy(t, a, room))
  {
    ReadMarksTheNewest(t, a, room);
    if k.1 == a && k.0 in MarkedBy(t, a, room) {
      assert k.0 in UnreadOf(t, a, room);
    }
    forall m | m in MarkedBy(t, a, room) ensures (m, a) in t.states {
      assert m in UnreadOf(t, a, room);
    }
  }

  lemma StatesAfterRead(t: Tables, a: string, room: nat, now: int)
    ensures var s := AfterRead(t, a, room, now).states;
            (forall k :: k in s <==> k in t.states)
            && (forall k | k in t.states ::
                  s[k].None? <==> t.states[k].None? && !(k.1 == a && k.0 in MarkedBy(t, a, room)))
  {
    forall k ensures k in AfterRead(t, a, room, now).states <==> k in t.states {
      StateAfterRead(t, a, room, now, k);
    }
    forall k | k in t.states
      ensures AfterRead(t, a, room, now).states[k].None?
              <==> t.states[k].None? && !(k.1 == a && k.0 in MarkedBy(t, a, room))
    {
      StateAfterRead(t, a, room, now, k);
    }
  }

  /** What a read leaves unread, in the room and in the snapshot sets. */
  lemma SetsAfterRead(t: Tables, a: string, room: nat, now: int)
    ensures var t1 := AfterRead(t, a, room, now);
            var gone := MarkedBy(t, a, room);
            && UnreadOf(t1, a, room) == UnreadOf(t, a, room) - gone
            && UnreadSet(t1, a) == UnreadSet(t, a) - gone
            && MentionSet(t1, a) == MentionSet(t, a) - gone
            && PrioritySet(t1, a) == PrioritySet(t, a) - gone
  {
    StatesAfterRead(t, a, room, now);
  }

  lemma SizeWithout(s: set<nat>, gone: set<nat>)
    ensures |s - gone| == |s| - |s * gone|
  {
    assert s == (s - gone) + (s * gone);
  }

  /**
   A default read lowers the reader's Totals.Unread by exactly the number of rows it
   marks when they subscribe to the room and it is not archived, and not at all otherwise.
   */
  lemma ReadConservesUnread(t: Tables, a: string, room: nat, now: int)
    ensures CountUnread(AfterRead(t, a, room, now), a)
         == CountUnread(t, a) - (if Primary(t, a, room) then Min(UNREAD_CAP, |UnreadOf(t, a, room)|) else 0)
  {
    SetsAfterRead(t, a, room, now);
    ReadMarksTheNewest(t, a, room);
    UnreadRowsAreMessages(t, a);
    UnreadRowsAreMessages(AfterRead(t, a, room, now), a);
    SizeWithout(UnreadSet(t, a), MarkedBy(t, a, room));
    MarkedInUnread(t, a, room);
  }

  /** The mention total falls by the marked rows it counted, */
  lemma ReadConservesMentions(t: Tables, a: string, room: nat, now: int)
    ensures CountMentions(AfterRead(t, a, room, now), a)
            == CountMentions(t, a) - |MentionSet(t, a) * MarkedBy(t, a, room)|
  {
    SetsAfterRead(t, a, room, now);
    MentionRowsAreMessages(t, a);
    MentionRowsAreMessages(AfterRead(t, a, room, now), a);
    SizeWithout(MentionSet(t, a), MarkedBy(t, a, room));
  }

  /** and so does the priority total. */
  lemma ReadConservesPriority(t: Tables, a: string, room: nat, now: int)
    ensures CountPriority(AfterRead(t, a, room, now), a)
            == CountPriority(t, a) - |PrioritySet(t, a) * MarkedBy(t, a, room)|
  {
    SetsAfterRead(t, a, room, now);
    PriorityRowsAreMessages(t, a);
    PriorityRowsAreMessages(AfterRead(t, a, room, now), a);
    SizeWithout(PrioritySet(t, a), MarkedBy(t, a, room));
  }

  lemma MarkedInUnread(t: Tables, a: string, room: nat)
    ensures UnreadSet(t, a) * MarkedBy(t, a, room) == if Primary(t, a, room) then MarkedBy(t, a, room) else {}
  {
    ReadMarksTheNewest(t, a, room);
    forall m | m in MarkedBy(t, a, room) ensures m in UnreadSet(t, a) <==> Primary(t, a, room) {
      assert m in UnreadOf(t, a, room);
    }
  }

  /** No other account's sets change, and none of the reader's other rooms. */
  lemma ReadTouchesNothingElse(t: Tables, a: string, room: nat, now: int, b: string, other: nat)
    ensures var t1 := AfterRead(t, a, room, now);
            && (b != a ==> UnreadSet(t1, b) == UnreadSet(t, b))
            && (b != a ==> MentionSet(t1, b) == MentionSet(t, b) && PrioritySet(t1, b) == PrioritySet(t, b))
            && (b != a ==> UnreadOf(t1, b, other) == UnreadOf(t, b, other))
            && (other != room
               ==> UnreadOf(t1, a, other) == UnreadOf(t, a, other) && UnreadIn(t1, a, other) == UnreadIn(t, a, other))
  {
    StatesAfterRead(t, a, room, now);
    ReadMarksTheNewest(t, a, room);
    forall m | m in MarkedBy(t, a, room) ensures m in t.messages && t.messages[m].room == room {
      assert m in UnreadOf(t, a, room);
    }
    OthersKeepSets(t, AfterRead(t, a, room, now), a, b, MarkedBy(t, a, room));
  }

  lemma OthersKeepSets(t: Tables, t1: Tables, a: string, b: string, gone: set<nat>)
    requires t1 == t.(states := t1.states, audit := t1.audit)
    requires forall k :: k in t1.states <==> k in t.states
    requires forall k | k in t.states :: t1.states[k].None? <==> t.states[k].None? && !(k.1 == a && k.0 in gone)
    ensures b != a ==> UnreadSet(t1, b) == UnreadSet(t, b)
    ensures b != a ==> MentionSet(t1, b) == MentionSet(t, b) && PrioritySet(t1, b) == PrioritySet(t, b)
  {
  }

  // ---------------------------------------------------------------- the answer

  ghost predicate Ascending(ms: map<nat, Message>, s: seq<nat>) {
    forall i, j | 0 <= i < j < |s| :: s[i] in ms && s[j] in ms && Newer(ms, s[j], s[i])
  }

  lemma ReversedAscends(ms: map<nat, Message>, s: seq<nat>)
    requires Descending(ms, s)
    ensures Ascending(ms, Reversed(s)) && Elems(Reversed(s)) == Elems(s)
  {
    var r := Reversed(s);
    forall x ensures x in r <==> x in s {
      if x in s {
        var i :| 0 <= i < |s| && s[i] == x;
        assert r[|s| - 1 - i] == x;
      }
    }
    forall i, j | 0 <= i < j < |r| ensures r[i] in ms && r[j] in ms && Newer(ms, r[j], r[i]) {
      assert r[i] == s[|s| - 1 - i] && r[j] == s[|s| - 1 - j];
    }
  }

  /**
   The answer is a context band of already read messages followed by an unread band:
   each ascending, disjoint, the newest of its kind.
   */
  lemma AnswerIsTwoBands(t: Tables, a: string, room: nat, limit: nat) returns (ctx: seq<nat>, unread: seq<nat>)
    requires Refusal(t, a, room, limit).None?
    ensures Answer(t, a, room, limit, None, true).Ok?
            && Answer(t, a, room, limit, None, true).value.messages == ctx + unread
    ensures Ascending(t.messages, ctx) && Ascending(t.messages, unread)
    ensures Elems(ctx) <= ReadOf(t, a, room) && |ctx| == Min(Clamp(limit, false), |ReadOf(t, a, room)|)
    ensures Elems(unread) == MarkedBy(t, a, room) && Elems(ctx) !! Elems(unread)
  {
    var read := ListReadHistory(t, a, room, Clamp(limit, false));
    ReadMarksTheNewest(t, a, room);
    NewestIsTop(t.messages, ReadOf(t, a, room), Clamp(limit, false));
    ReversedAscends(t.messages, read);
    ReversedAscends(t.messages, ListUnread(t, a, room, UNREAD_CAP));
    assert ReadOf(t, a, room) !! UnreadOf(t, a, room);
    ctx, unread := Reversed(read), Reversed(ListUnread(t, a, room, UNREAD_CAP));
  }

  /** `more` is set exactly when the room held at least 200 unread messages. */
  lemma MoreMeansFullBand(t: Tables, a: string, room: nat, limit: nat)
    requires Refusal(t, a, room, limit).None?
    ensures var p := Answer(t, a, room, limit, None, true);
            p.Ok? && (p.value.more <==> |UnreadOf(t, a, room)| >= UNREAD_CAP)
  {
    ReadMarksTheNewest(t, a, room);
  }

  // ---------------------------------------------------------------- draining

  /** The tables after `k` default reads in a row, with nothing new arriving. */
  function AfterReads(t: Tables, a: string, room: nat, now: int, k: nat): Tables
    decreases k
  {
    if k == 0 then t else AfterReads(AfterRead(t, a, room, now), a, room, now, k - 1)
  }

  lemma OneReadDrains(t: Tables, a: string, room: nat, now: int)
    ensures |UnreadOf(AfterRead(t, a, room, now), a, room)|
            == |UnreadOf(t, a, room)| - Min(UNREAD_CAP, |UnreadOf(t, a, room)|)
  {
    SetsAfterRead(t, a, room, now);
    ReadMarksTheNewest(t, a, room);
    SizeWithout(UnreadOf(t, a, room), MarkedBy(t, a, room));
    assert UnreadOf(t, a, room) * MarkedBy(t, a, room) == MarkedBy(t, a, room);
  }

  function Left(n: nat, k: nat): nat {
    if n >= UNREAD_CAP * k then n - UNREAD_CAP * k else 0
  }

  lemma LeftStep(n: nat, k: nat)
    requires k > 0
    ensures Left(n - Min(UNREAD_CAP, n), k - 1) == Left(n, k)
  {
  }

  /** After k reads n - 200k unread messages are left, or none. */
  lemma {:induction false} ReadsDrain(t: Tables, a: string, room: nat, now: int, k: nat)
    ensures |UnreadOf(AfterReads(t, a, room, now, k), a, room)| == Left(|UnreadOf(t, a, room)|, k)
    decreases k
  {
    if k > 0 {
      OneReadDrains(t, a, room, now);
      LeftStep(|UnreadOf(t, a, room)|, k);
      ReadsDrain(AfterRead(t, a, room, now), a, room, now, k - 1);
    }
  }

  /** n unread messages take exactly ceil(n / 200) reads. */
  lemma DrainTakesCeiling(t: Tables, a: string, room: nat, now: int, k: nat)
    ensures UnreadOf(AfterReads(t, a, room, now, k), a, room) == {}
            <==> k >= (|UnreadOf(t, a, room)| + UNREAD_CAP - 1) / UNREAD_CAP
  {
    ReadsDrain(t, a, room, now, k);
    var left := UnreadOf(AfterReads(t, a, room, now, k), a, room);
    assert left == {} <==> |left| == 0;
  }
}
