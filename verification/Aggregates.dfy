/**
 The per-account snapshot (internal/state/aggregator.go) over the counting and listing
 queries of internal/store/sqlite/message_state_repo.go, on one fixed database state.
 */
module Aggregates {
  import opened Wrappers
  import opened Lists
  import opened Store
  import opened Pages

  // ---------------------------------------------------------------- the joined rows

  /** A row of message_states JOIN messages JOIN memberships JOIN rooms: the keys it joins. */
  datatype JoinRow = JoinRow(state: (nat, string), member: (string, nat), room: nat)

  /** The rows for one account whose read_at is NULL and whose room is not archived. */
  function Joins(t: Tables, a: string): set<JoinRow> {
    set s, mb, r | s in t.states && mb in t.memberships && r in t.rooms
      && s.0 in t.messages && mb.0 == s.1 && mb.1 == t.messages[s.0].room && r == t.messages[s.0].room
      && s.1 == a && t.states[s].None? && !t.rooms[r].archived
      :: JoinRow(s, mb, r)
  }

  predicate IsSubscribed(t: Tables, row: JoinRow) {
    row.member in t.memberships && t.memberships[row.member].subscribed
  }

  predicate IsMention(t: Tables, row: JoinRow) {
    row.state.0 in t.messages
    && (t.messages[row.state.0].everyone || (IsSubscribed(t, row) && row.state in t.mentions))
  }

  predicate IsPriority(t: Tables, row: JoinRow) {
    row.state.0 in t.messages && IsSubscribed(t, row) && t.messages[row.state.0].priority in {Urgent, System}
  }

  function UnreadRows(t: Tables, a: string): set<JoinRow> {
    set j | j in Joins(t, a) && IsSubscribed(t, j)
  }

  function MentionRows(t: Tables, a: string): set<JoinRow> {
    set j | j in Joins(t, a) && IsMention(t, j)
  }

  function PriorityRows(t: Tables, a: string): set<JoinRow> {
    set j | j in Joins(t, a) && IsPriority(t, j)
  }

  function RoomRows(t: Tables, a: string, room: nat): set<JoinRow> {
    set j | j in UnreadRows(t, a) && j.room == room
  }

  /** SELECT COUNT(*): the joined rows, not the distinct messages. */
  function CountUnread(t: Tables, a: string): nat {
    |UnreadRows(t, a)|
  }

  function CountMentions(t: Tables, a: string): nat {
    |MentionRows(t, a)|
  }

  function CountPriority(t: Tables, a: string): nat {
    |PriorityRows(t, a)|
  }

  /** SELECT room_id, COUNT(*) .. GROUP BY room_id */
  function UnreadByRoom(t: Tables, a: string): map<nat, nat> {
    map r | r in (set j | j in UnreadRows(t, a) :: j.room) :: |RoomRows(t, a, r)|
  }

  // ---------------------------------------------------------------- what the counts mean

  /** `m` is unread for `a` in a room of theirs that is not archived. */
  predicate Pending(t: Tables, a: string, m: nat) {
    && m in t.messages && (m, a) in t.states && t.states[(m, a)].None?
    && var r := t.messages[m].room;
    && (a, r) in t.memberships && r in t.rooms && !t.rooms[r].archived
  }

  function UnreadSet(t: Tables, a: string): set<nat> {
    set m | m in t.messages && Pending(t, a, m) && t.memberships[(a, t.messages[m].room)].subscribed
  }

  /** @everyone reaches every member, a mention by name only subscribed ones. */
  function MentionSet(t: Tables, a: string): set<nat> {
    set m | m in t.messages && Pending(t, a, m)
      && (t.messages[m].everyone || (t.memberships[(a, t.messages[m].room)].subscribed && (m, a) in t.mentions))
  }

  function PrioritySet(t: Tables, a: string): set<nat> {
    set m | m in UnreadSet(t, a) && t.messages[m].priority in {Urgent, System}
  }

  function UnreadIn(t: Tables, a: string, room: nat): set<nat> {
    set m | m in UnreadSet(t, a) && t.messages[m].room == room
  }

  /** The one joined row of a pending message. */
  function RowOf(t: Tables, a: string, m: nat): JoinRow
    requires m in t.messages
  {
    JoinRow((m, a), (a, t.messages[m].room), t.messages[m].room)
  }

  lemma JoinsArePending(t: Tables, a: string, j: JoinRow)
    ensures j in Joins(t, a) <==> j.state.0 in t.messages && Pending(t, a, j.state.0) && j == RowOf(t, a, j.state.0)
  {
    if j.state.0 in t.messages && Pending(t, a, j.state.0) && j == RowOf(t, a, j.state.0) {
      assert j.state in t.states && j.member in t.memberships && j.room in t.rooms;
    }
  }

  /** Primary keys make the join one row per message, so counting rows counts messages. */
  lemma {:induction false} RowsAreMessages(t: Tables, a: string, rows: set<JoinRow>, ms: set<nat>)
    requires rows <= Joins(t, a)
    requires forall m | m in ms :: m in t.messages && RowOf(t, a, m) in rows
    requires forall j | j in rows :: j.state.0 in ms
    ensures |rows| == |ms|
    decreases rows
  {
    if rows == {} {
      assert ms == {};
    } else {
      var j :| j in rows;
      JoinsArePending(t, a, j);
      var m := j.state.0;
      forall k | k in rows - {j} ensures k.state.0 in ms - {m} {
        JoinsArePending(t, a, k);
      }
      RowsAreMessages(t, a, rows - {j}, ms - {m});
    }
  }

  lemma AllJoinsArePending(t: Tables, a: string)
    ensures forall j ::
              j in Joins(t, a) <==> j.state.0 in t.messages && Pending(t, a, j.state.0) && j == RowOf(t, a, j.state.0)
  {
    forall j
      ensures j in Joins(t, a) <==> j.state.0 in t.messages && Pending(t, a, j.state.0) && j == RowOf(t, a, j.state.0)
    {
      JoinsArePending(t, a, j);
    }
  }

  lemma UnreadRowsAreMessages(t: Tables, a: string)
    ensures |UnreadRows(t, a)| == |UnreadSet(t, a)|
  {
    AllJoinsArePending(t, a);
    RowsAreMessages(t, a, UnreadRows(t, a), UnreadSet(t, a));
  }

  lemma MentionRowsAreMessages(t: Tables, a: string)
    ensures |MentionRows(t, a)| == |MentionSet(t, a)|
  {
    AllJoinsArePending(t, a);
    RowsAreMessages(t, a, MentionRows(t, a), MentionSet(t, a));
  }

  lemma PriorityRowsAreMessages(t: Tables, a: string)
    ensures |PriorityRows(t, a)| == |PrioritySet(t, a)|
  {
    AllJoinsArePending(t, a);
    RowsAreMessages(t, a, PriorityRows(t, a), PrioritySet(t, a));
  }

  /** The grouped count of a room, 0 for a room with no group. */
  function RoomCount(counts: map<nat, nat>, room: nat): nat {
    if room in counts then counts[room] else 0
  }

  lemma RoomCountIsSize(t: Tables, a: string, room: nat)
    ensures RoomCount(UnreadByRoom(t, a), room) == |UnreadIn(t, a, room)|
  {
    AllJoinsArePending(t, a);
    RowsAreMessages(t, a, RoomRows(t, a, room), UnreadIn(t, a, room));
    if room !in UnreadByRoom(t, a) {
      assert RoomRows(t, a, room) == {};
    }
  }

  // ---------------------------------------------------------------- sort.Slice

  /** The order a less function must give for sort.Slice to be defined. */
  ghost predicate StrictWeakOrder<T(!new)>(before: (T, T) -> bool) {
    && (forall x :: !before(x, x))
    && (forall x, y, z :: before(x, y) && before(y, z) ==> before(x, z))
    && (forall x, y, z ::
          !before(x, y) && !before(y, x) && !before(y, z) && !before(z, y) ==> !before(x, z) && !before(z, x))
  }

  ghost predicate Sorted<T(!new)>(s: seq<T>, before: (T, T) -> bool) {
    forall i, j | 0 <= i < j < |s| :: !before(s[j], s[i])
  }

  /** Any sorted permutation is what sort.Slice may leave; insertion is one way to get one. */
  method SortSlice<T(!new)>(s: seq<T>, before: (T, T) -> bool) returns (r: seq<T>)
    requires StrictWeakOrder(before)
    ensures multiset(r) == multiset(s) && |r| == |s|
    ensures Sorted(r, before)
  {
    r := [];
    var i := 0;
    while i < |s|
      invariant 0 <= i <= |s| && |r| == i
      invariant multiset(r) == multiset(s[..i])
      invariant Sorted(r, before)
    {
      assert s[..i + 1] == s[..i] + [s[i]];
      r := Insert(r, s[i], before);
      i := i + 1;
    }
    assert s[..i] == s;
  }

  method Insert<T(!new)>(s: seq<T>, x: T, before: (T, T) -> bool) returns (r: seq<T>)
    requires StrictWeakOrder(before) && Sorted(s, before)
    ensures multiset(r) == multiset(s + [x]) && |r| == |s| + 1
    ensures Sorted(r, before)
  {
    var k := |s|;
    while k > 0 && before(x, s[k - 1])
      invariant 0 <= k <= |s|
      invariant forall i | k <= i < |s| :: before(x, s[i])
    {
      k := k - 1;
    }
    r := s[..k] + [x] + s[k..];
    InsertSorted(s, x, k, before);
    InsertPermutes(s, x, k);
  }

  lemma InsertPermutes<T>(s: seq<T>, x: T, k: nat)
    requires k <= |s|
    ensures multiset(s[..k] + [x] + s[k..]) == multiset(s + [x])
  {
    assert s == s[..k] + s[k..];
  }

  lemma NotBefore<T(!new)>(x: T, y: T, z: T, before: (T, T) -> bool)
    requires StrictWeakOrder(before) && !before(z, y) && !before(y, x)
    ensures !before(z, x)
  {
  }

  lemma InsertSorted<T(!new)>(s: seq<T>, x: T, k: nat, before: (T, T) -> bool)
    requires StrictWeakOrder(before) && Sorted(s, before) && k <= |s|
    requires forall i | k <= i < |s| :: before(x, s[i])
    requires k > 0 ==> !before(x, s[k - 1])
    ensures Sorted(s[..k] + [x] + s[k..], before)
  {
    var r := s[..k] + [x] + s[k..];
    forall i, j | 0 <= i < j < |r| ensures !before(r[j], r[i]) {
      if j == k {
        if i < k - 1 {
          NotBefore(s[i], s[k - 1], x, before);
        }
      } else if i == k {
        assert before(x, s[j - 1]);
      } else {
        var p, q := if i < k then i else i - 1, if j < k then j else j - 1;
        assert r[i] == s[p] && r[j] == s[q] && p < q;
      }
    }
  }

  // ---------------------------------------------------------------- the per-room unread list

  datatype RoomUnread = RoomUnread(room: nat, name: string, unread: nat)

  /** ListByAccountWithRooms: every membership of the account once, in some order. */
  ghost predicate ListsRooms(t: Tables, a: string, joined: seq<nat>) {
    && (forall i, j | 0 <= i < j < |joined| :: joined[i] != joined[j])
    && (forall r | r in joined :: (a, r) in t.memberships && r in t.rooms)
    && (forall k | k in t.memberships && k.0 == a && k.1 in t.rooms :: k.1 in joined)
  }

  predicate Primary(t: Tables, a: string, room: nat) {
    (a, room) in t.memberships && t.memberships[(a, room)].subscribed && room in t.rooms && !t.rooms[room].archived
  }

  function Listed(t: Tables, a: string, joined: seq<nat>): seq<RoomUnread> {
    if joined == [] then []
    else
      var n := |joined| - 1;
      var r := joined[n];
      Listed(t, a, joined[..n])
        + if Primary(t, a, r) then [RoomUnread(r, t.rooms[r].name, RoomCount(UnreadByRoom(t, a), r))] else []
  }

  function Total(rooms: seq<RoomUnread>): nat {
    if rooms == [] then 0 else Total(rooms[..|rooms| - 1]) + rooms[|rooms| - 1].unread
  }

  /** Byte order of names. */
  predicate NameLess(x: string, y: string) {
    if y == "" then false
    else if x == "" then true
    else if x[0] != y[0] then x[0] < y[0]
    else NameLess(x[1..], y[1..])
  }

  /** The texts agree before k, and there x ends or has the smaller character. */
  ghost predicate LessAt(x: string, y: string, k: nat) {
    k <= |x| && k < |y| && x[..k] == y[..k] && (k == |x| || x[k] < y[k])
  }

  lemma LessHead(x: string, y: string, k: nat)
    requires LessAt(x, y, k)
    ensures k > 0 ==> x != "" && x[0] == y[0]
  {
    if k > 0 {
      assert x[..k][0] == y[..k][0];
    }
  }

  lemma {:induction false} NameLessIff(x: string, y: string)
    ensures NameLess(x, y) <==> exists k: nat :: LessAt(x, y, k)
  {
    if x != "" && y != "" && x[0] == y[0] {
      NameLessIff(x[1..], y[1..]);
      if k: nat :| LessAt(x[1..], y[1..], k) {
        assert x[..k + 1] == [x[0]] + x[1..][..k] && y[..k + 1] == [y[0]] + y[1..][..k];
        assert LessAt(x, y, k + 1);
      }
      if k: nat :| LessAt(x, y, k) {
        assert k > 0;
        assert x[1..][..k - 1] == x[..k][1..] && y[1..][..k - 1] == y[..k][1..];
        assert LessAt(x[1..], y[1..], k - 1);
      }
    } else if y != "" && NameLess(x, y) {
      assert LessAt(x, y, 0);
    } else if k: nat :| LessAt(x, y, k) {
      LessHead(x, y, k);
    }
  }

  lemma {:induction false} NameLessTrans(x: string, y: string, z: string)
    requires NameLess(x, y) && NameLess(y, z)
    ensures NameLess(x, z)
  {
    if x != "" && x[0] == y[0] && y[0] == z[0] {
      NameLessTrans(x[1..], y[1..], z[1..]);
    }
  }

  lemma {:induction false} NameLessTotal(x: string, y: string)
    ensures NameLess(x, y) && NameLess(y, x) ==> false
    ensures !NameLess(x, y) && !NameLess(y, x) <==> x == y
  {
    if x != "" && y != "" && x[0] == y[0] {
      NameLessTotal(x[1..], y[1..]);
      assert x == [x[0]] + x[1..] && y == [y[0]] + y[1..];
    }
  }

  lemma NamesAreOrdered()
    ensures StrictWeakOrder((x: RoomUnread, y: RoomUnread) => NameLess(x.name, y.name))
  {
    forall x: RoomUnread, y: RoomUnread, z: RoomUnread
      ensures NameLess(x.name, y.name) && NameLess(y.name, z.name) ==> NameLess(x.name, z.name)
    {
      if NameLess(x.name, y.name) && NameLess(y.name, z.name) {
        NameLessTrans(x.name, y.name, z.name);
      }
    }
    forall x: RoomUnread, y: RoomUnread
      ensures !NameLess(x.name, y.name) && !NameLess(y.name, x.name) <==> x.name == y.name
    {
      NameLessTotal(x.name, y.name);
    }
  }

  lemma {:induction false} TotalAppend(xs: seq<RoomUnread>, ys: seq<RoomUnread>)
    ensures Total(xs + ys) == Total(xs) + Total(ys)
  {
    if ys == [] {
      assert xs + ys == xs;
    } else {
      var n := |ys| - 1;
      TotalAppend(xs, ys[..n]);
      assert (xs + ys)[..|xs| + n] == xs + ys[..n];
    }
  }

  lemma RemoveOne(ys: seq<RoomUnread>, k: nat)
    requires k < |ys|
    ensures multiset(ys[..k] + ys[k + 1..]) == multiset(ys) - multiset{ys[k]}
  {
    assert ys == ys[..k] + ([ys[k]] + ys[k + 1..]);
  }

  lemma TotalSplice(left: seq<RoomUnread>, x: RoomUnread, right: seq<RoomUnread>)
    ensures Total((left + [x]) + right) == Total(left + right) + x.unread
  {
    TotalAppend(left + [x], right);
    TotalAppend(left, right);
    assert (left + [x])[..|left|] == left;
  }

  lemma TotalsMatch(init: seq<RoomUnread>, left: seq<RoomUnread>, x: RoomUnread, right: seq<RoomUnread>)
    requires Total(init) == Total(left + right)
    ensures Total(init + [x]) == Total((left + [x]) + right)
  {
    TotalSplice(left, x, right);
    assert (init + [x])[..|init|] == init;
  }

  /** A total does not depend on the order. */
  lemma {:induction false} TotalOfPermutation(xs: seq<RoomUnread>, ys: seq<RoomUnread>)
    requires multiset(xs) == multiset(ys)
    ensures Total(xs) == Total(ys)
  {
    if xs == [] {
      assert |multiset(ys)| == |ys|;
      assert |multiset(xs)| == 0;
    } else {
      var init, x := xs[..|xs| - 1], xs[|xs| - 1];
      assert x in multiset(ys);
      var k :| 0 <= k < |ys| && ys[k] == x;
      var left, right := ys[..k], ys[k + 1..];
      assert xs == init + [x];
      assert ys == (left + [x]) + right;
      RemoveOne(ys, k);
      TotalOfPermutation(init, left + right);
      TotalsMatch(init, left, x, right);
    }
  }

  function UnreadAmong(t: Tables, a: string, joined: seq<nat>): set<nat> {
    set m | m in UnreadSet(t, a) && t.messages[m].room in joined
  }

  /** The unread messages split over the rooms listed. */
  lemma AmongOneMore(t: Tables, a: string, joined: seq<nat>, r: nat)
    requires r !in joined
    ensures UnreadAmong(t, a, joined + [r]) == UnreadAmong(t, a, joined) + UnreadIn(t, a, r)
    ensures UnreadAmong(t, a, joined) !! UnreadIn(t, a, r)
  {
    assert forall x :: x in joined + [r] <==> x in joined || x == r;
  }

  lemma ListedOneMore(t: Tables, a: string, joined: seq<nat>, r: nat)
    ensures Listed(t, a, joined + [r])
         == Listed(t, a, joined) + if Primary(t, a, r)
            then [RoomUnread(r, t.rooms[r].name, RoomCount(UnreadByRoom(t, a), r))] else []
  {
    assert (joined + [r])[..|joined|] == joined;
  }

  lemma ListedStep(t: Tables, a: string, joined: seq<nat>, r: nat)
    requires r !in joined && Total(Listed(t, a, joined)) == |UnreadAmong(t, a, joined)|
    ensures Total(Listed(t, a, joined + [r])) == |UnreadAmong(t, a, joined + [r])|
  {
    RoomCountIsSize(t, a, r);
    AmongOneMore(t, a, joined, r);
    ListedOneMore(t, a, joined, r);
    if Primary(t, a, r) {
      var last := RoomUnread(r, t.rooms[r].name, RoomCount(UnreadByRoom(t, a), r));
      TotalAppend(Listed(t, a, joined), [last]);
      assert Total([last]) == last.unread;
    } else {
      assert UnreadIn(t, a, r) == {};
      assert UnreadAmong(t, a, joined + [r]) == UnreadAmong(t, a, joined);
      assert Listed(t, a, joined) + [] == Listed(t, a, joined);
    }
  }

  lemma {:induction false} ListedTotal(t: Tables, a: string, joined: seq<nat>)
    requires forall i, j | 0 <= i < j < |joined| :: joined[i] != joined[j]
    ensures Total(Listed(t, a, joined)) == |UnreadAmong(t, a, joined)|
  {
    if joined == [] {
      assert UnreadAmong(t, a, joined) == {};
    } else {
      var n := |joined| - 1;
      ListedTotal(t, a, joined[..n]);
      ListedStep(t, a, joined[..n], joined[n]);
      assert joined == joined[..n] + [joined[n]];
    }
  }

  /** Totals.Unread is the sum of the per-room list, however the list is ordered. */
  lemma TotalsAgreeWithRooms(t: Tables, a: string, joined: seq<nat>, rooms: seq<RoomUnread>)
    requires ListsRooms(t, a, joined) && multiset(rooms) == multiset(Listed(t, a, joined))
    ensures Total(rooms) == CountUnread(t, a)
  {
    TotalOfPermutation(rooms, Listed(t, a, joined));
    ListedTotal(t, a, joined);
    UnreadRowsAreMessages(t, a);
    forall m | m in UnreadSet(t, a) ensures t.messages[m].room in joined {
      assert (a, t.messages[m].room) in t.memberships;
    }
    assert UnreadAmong(t, a, joined) == UnreadSet(t, a);
  }

  /** Dimension 2 of Build: subscribed rooms that are not archived, sorted by name. */
  method BuildRooms(t: Tables, a: string, joined: seq<nat>) returns (rooms: seq<RoomUnread>)
    requires ListsRooms(t, a, joined)
    ensures multiset(rooms) == multiset(Listed(t, a, joined))
    ensures Sorted(rooms, (x: RoomUnread, y: RoomUnread) => NameLess(x.name, y.name))
    ensures Total(rooms) == CountUnread(t, a)
  {
    var perRoom := UnreadByRoom(t, a);
    var list: seq<RoomUnread> := [];
    var i := 0;
    while i < |joined|
      invariant 0 <= i <= |joined|
      invariant list == Listed(t, a, joined[..i])
    {
      assert joined[..i + 1][..i] == joined[..i];
      var r := joined[i];
      if t.memberships[(a, r)].subscribed && !t.rooms[r].archived {
        list := list + [RoomUnread(r, t.rooms[r].name, RoomCount(perRoom, r))];
      }
      i := i + 1;
    }
    assert joined[..i] == joined;
    NamesAreOrdered();
    rooms := SortSlice(list, (x: RoomUnread, y: RoomUnread) => NameLess(x.name, y.name));
    TotalsAgreeWithRooms(t, a, joined, rooms);
  }

  // ---------------------------------------------------------------- the message feeds

  /** m.mention_everyone = 1 OR (mb.subscribed = 1 AND EXISTS (SELECT 1 FROM message_mentions ..)) */
  predicate Pings(t: Tables, m: nat, account: string, mb: (string, nat)) {
    m in t.messages && mb in t.memberships
    && (t.messages[m].everyone || (t.memberships[mb].subscribed && (m, account) in t.mentions))
  }

  /** FROM messages JOIN message_states JOIN memberships JOIN rooms, with the mention feed's own WHERE. */
  function MentionListRows(t: Tables, a: string): set<JoinRow> {
    set m, s, mb, r | m in t.messages && s in t.states && mb in t.memberships && r in t.rooms
      && s.0 == m && mb.0 == s.1 && mb.1 == t.messages[m].room && r == t.messages[m].room
      && s.1 == a && t.states[s].None? && !t.rooms[r].archived
      && Pings(t, m, s.1, mb)
      :: JoinRow(s, mb, r)
  }

  /** The same joins with the priority feed's WHERE. */
  function PriorityListRows(t: Tables, a: string): set<JoinRow> {
    set m, s, mb, r | m in t.messages && s in t.states && mb in t.memberships && r in t.rooms
      && s.0 == m && mb.0 == s.1 && mb.1 == t.messages[m].room && r == t.messages[m].room
      && s.1 == a && t.states[s].None? && t.memberships[mb].subscribed && !t.rooms[r].archived
      && (t.messages[m].priority == Urgent || t.messages[m].priority == System)
      :: JoinRow(s, mb, r)
  }

  /** ORDER BY m.created_at DESC, m.id DESC: nothing in `y` puts it before `x`. */
  predicate RowOrder(t: Tables, x: JoinRow, y: JoinRow) {
    x.state.0 in t.messages && y.state.0 in t.messages
    && (x.state.0 == y.state.0 || Newer(t.messages, x.state.0, y.state.0))
  }

  /** An answer to the query: `limit` of the rows, or all, ordered, and none left out that the order puts first. */
  ghost predicate IsAnswer(t: Tables, rows: set<JoinRow>, limit: nat, out: seq<JoinRow>) {
    && |out| == Min(limit, |rows|)
    && (forall i | 0 <= i < |out| :: out[i] in rows)
    && (forall i, j | 0 <= i < j < |out| :: out[i] != out[j] && RowOrder(t, out[i], out[j]))
    && (forall i, j | 0 <= i < |out| && j in rows && j !in out :: RowOrder(t, out[i], j))
  }

  function MessagesOf(out: seq<JoinRow>): seq<nat> {
    seq(|out|, i requires 0 <= i < |out| => out[i].state.0)
  }

  /** The rows are the joined rows of exactly the messages `ms`. */
  ghost predicate RowsOf(t: Tables, a: string, rows: set<JoinRow>, ms: set<nat>) {
    && ms <= t.messages.Keys
    && (forall m | m in ms :: RowOf(t, a, m) in rows)
    && (forall j | j in rows :: j.state.0 in ms && j == RowOf(t, a, j.state.0))
  }

  lemma {:induction false} RowsOfSize(t: Tables, a: string, rows: set<JoinRow>, ms: set<nat>)
    requires RowsOf(t, a, rows, ms)
    ensures |rows| == |ms|
    decreases rows
  {
    if rows == {} {
      assert ms == {};
    } else {
      var j :| j in rows;
      RowsOfSize(t, a, rows - {j}, ms - {j.state.0});
    }
  }

  lemma ListedMessages(out: seq<JoinRow>, j: JoinRow)
    ensures j in out ==> j.state.0 in MessagesOf(out)
  {
    forall k | 0 <= k < |out| ensures out[k].state.0 in MessagesOf(out) {
      assert MessagesOf(out)[k] == out[k].state.0;
    }
  }

  /** Whatever answer the database gives, its messages are the newest of `ms`, newest first. */
  lemma AnswerIsTop(t: Tables, a: string, rows: set<JoinRow>, ms: set<nat>, limit: nat, out: seq<JoinRow>)
    requires RowsOf(t, a, rows, ms) && IsAnswer(t, rows, limit, out)
    ensures IsTop(t.messages, ms, limit, MessagesOf(out))
  {
    var list := MessagesOf(out);
    RowsOfSize(t, a, rows, ms);
    forall i, j | 0 <= i < j < |list| ensures Newer(t.messages, list[i], list[j]) {
      assert out[i] == RowOf(t, a, list[i]) && out[j] == RowOf(t, a, list[j]);
      assert RowOrder(t, out[i], out[j]);
    }
    forall i, o | 0 <= i < |list| && o in ms && o !in list ensures Newer(t.messages, list[i], o) {
      assert RowOf(t, a, o) in rows;
      ListedMessages(out, RowOf(t, a, o));
      assert RowOrder(t, out[i], RowOf(t, a, o)) && list[i] in list;
    }
  }

  lemma MentionRowMeans(t: Tables, a: string, j: JoinRow)
    requires j in MentionListRows(t, a)
    ensures j.state.0 in MentionSet(t, a) && j == RowOf(t, a, j.state.0)
  {
    assert Pings(t, j.state.0, j.state.1, j.member);
  }

  lemma MentionIsListed(t: Tables, a: string, m: nat)
    requires m in MentionSet(t, a)
    ensures RowOf(t, a, m) in MentionListRows(t, a)
  {
    var j := RowOf(t, a, m);
    assert Pings(t, m, a, j.member);
    assert m in t.messages && j.state in t.states && j.member in t.memberships && j.room in t.rooms;
  }

  lemma MentionRowListed(t: Tables, a: string, j: JoinRow)
    ensures j in MentionListRows(t, a) <==> j.state.0 in MentionSet(t, a) && j == RowOf(t, a, j.state.0)
  {
    if j in MentionListRows(t, a) {
      MentionRowMeans(t, a, j);
    } else if j.state.0 in MentionSet(t, a) {
      MentionIsListed(t, a, j.state.0);
    }
  }

  lemma PriorityRowListed(t: Tables, a: string, j: JoinRow)
    ensures j in PriorityListRows(t, a) <==> j.state.0 in PrioritySet(t, a) && j == RowOf(t, a, j.state.0)
  {
    if j.state.0 in PrioritySet(t, a) && j == RowOf(t, a, j.state.0) {
      assert j.state.0 in t.messages && j.state in t.states && j.member in t.memberships && j.room in t.rooms;
    }
  }

  lemma ListedIsRowsOf(t: Tables, a: string, rows: set<JoinRow>, ms: set<nat>)
    requires ms <= t.messages.Keys
    requires forall j :: j in rows <==> j.state.0 in ms && j == RowOf(t, a, j.state.0)
    ensures RowsOf(t, a, rows, ms)
  {
    forall m | m in ms ensures RowOf(t, a, m) in rows {
      assert RowOf(t, a, m).state.0 == m;
    }
  }

  lemma MentionRowsListed(t: Tables, a: string)
    ensures RowsOf(t, a, MentionListRows(t, a), MentionSet(t, a))
  {
    forall j ensures j in MentionListRows(t, a) <==> j.state.0 in MentionSet(t, a) && j == RowOf(t, a, j.state.0) {
      MentionRowListed(t, a, j);
    }
    ListedIsRowsOf(t, a, MentionListRows(t, a), MentionSet(t, a));
  }

  lemma PriorityRowsListed(t: Tables, a: string)
    ensures RowsOf(t, a, PriorityListRows(t, a), PrioritySet(t, a))
  {
    forall j ensures j in PriorityListRows(t, a) <==> j.state.0 in PrioritySet(t, a) && j == RowOf(t, a, j.state.0) {
      PriorityRowListed(t, a, j);
    }
    ListedIsRowsOf(t, a, PriorityListRows(t, a), PrioritySet(t, a));
  }

  const FEED_LIMIT := 50

  /**
   The mention feed's query and the mention count's query agree: any answer to the one
   is the newest-first prefix, of length min(50, total), of the messages that the other counts.
   */
  lemma MentionFeedMatchesTotal(t: Tables, a: string, out: seq<JoinRow>)
    requires IsAnswer(t, MentionListRows(t, a), EffectiveLimit(FEED_LIMIT), out)
    ensures IsTop(t.messages, MentionSet(t, a), FEED_LIMIT, MessagesOf(out))
    ensures |out| == Min(FEED_LIMIT, CountMentions(t, a))
  {
    MentionRowsListed(t, a);
    AnswerIsTop(t, a, MentionListRows(t, a), MentionSet(t, a), FEED_LIMIT, out);
    MentionRowsAreMessages(t, a);
  }

  lemma PriorityFeedMatchesTotal(t: Tables, a: string, out: seq<JoinRow>)
    requires IsAnswer(t, PriorityListRows(t, a), EffectiveLimit(FEED_LIMIT), out)
    ensures IsTop(t.messages, PrioritySet(t, a), FEED_LIMIT, MessagesOf(out))
    ensures |out| == Min(FEED_LIMIT, CountPriority(t, a))
  {
    PriorityRowsListed(t, a);
    AnswerIsTop(t, a, PriorityListRows(t, a), PrioritySet(t, a), FEED_LIMIT, out);
    PriorityRowsAreMessages(t, a);
  }

  /** There is an answer: the rows of the newest messages in order. */
  lemma AnswerExists(t: Tables, a: string, rows: set<JoinRow>, ms: set<nat>, limit: nat) returns (out: seq<JoinRow>)
    requires RowsOf(t, a, rows, ms)
    ensures IsAnswer(t, rows, limit, out) && MessagesOf(out) == Newest(t.messages, ms, limit)
  {
    var list := Newest(t.messages, ms, limit);
    NewestIsTop(t.messages, ms, limit);
    RowsOfSize(t, a, rows, ms);
    forall i | 0 <= i < |list| ensures list[i] in ms {
      assert list[i] in Elems(list);
    }
    out := seq(|list|, i requires 0 <= i < |list| && list[i] in t.messages => RowOf(t, a, list[i]));
    assert MessagesOf(out) == list;
    forall i, j | 0 <= i < j < |out| ensures out[i] != out[j] && RowOrder(t, out[i], out[j]) {
      assert Newer(t.messages, list[i], list[j]);
    }
    forall i, j | 0 <= i < |out| && j in rows && j !in out ensures RowOrder(t, out[i], j) {
      assert j == RowOf(t, a, j.state.0);
      OnlyThoseRows(t, a, out, list, j);
    }
  }

  lemma OnlyThoseRows(t: Tables, a: string, out: seq<JoinRow>, list: seq<nat>, j: JoinRow)
    requires |out| == |list| && j.state.0 in t.messages && j == RowOf(t, a, j.state.0)
    requires forall i | 0 <= i < |list| :: list[i] in t.messages && out[i] == RowOf(t, a, list[i])
    ensures j.state.0 in list ==> j in out
  {
  }

  // ---------------------------------------------------------------- latest per room

  /** The rows numbered 1 in their room's partition: nothing in the room is newer. */
  function RankedFirst(t: Tables, a: string): set<nat> {
    set m | m in t.messages && (a, t.messages[m].room) in t.memberships
      && t.messages[m].room in t.rooms && !t.rooms[t.messages[m].room].archived
      && forall o | o in InRoom(t, t.messages[m].room) && o != m :: Newer(t.messages, m, o)
  }

  /** The map the scan loop of LatestPerRoomForMember fills. */
  ghost predicate IsLatestPerRoom(t: Tables, a: string, latest: map<nat, nat>) {
    && (forall r | r in latest :: latest[r] in RankedFirst(t, a) && t.messages[latest[r]].room == r)
    && (forall m | m in RankedFirst(t, a) :: t.messages[m].room in latest)
  }

  method LatestPerRoom(t: Tables, a: string) returns (latest: map<nat, nat>)
    ensures IsLatestPerRoom(t, a, latest)
  {
    latest := map[];
    var rest := RankedFirst(t, a);
    while rest != {}
      invariant rest <= RankedFirst(t, a)
      invariant forall r | r in latest :: latest[r] in RankedFirst(t, a) && t.messages[latest[r]].room == r
      invariant forall m | m in RankedFirst(t, a) && m !in rest :: t.messages[m].room in latest
      decreases rest
    {
      var m :| m in rest;
      latest := latest[t.messages[m].room := m];
      rest := rest - {m};
    }
  }

  /**
   The windowed query finds exactly the member rooms that are not archived and have
   messages, and for each the head of List.
   */
  lemma LatestIsHeadOfList(t: Tables, a: string, latest: map<nat, nat>, room: nat, limit: int)
    requires IsLatestPerRoom(t, a, latest)
    ensures room in latest
            <==> (a, room) in t.memberships && room in t.rooms && !t.rooms[room].archived && InRoom(t, room) != {}
    ensures room in latest ==> |List(t, room, None, limit)| > 0 && latest[room] == List(t, room, None, limit)[0]
  {
    var ids := InRoom(t, room);
    if room in latest {
      assert latest[room] in ids;
    }
    if ids != {} && (a, room) in t.memberships && room in t.rooms && !t.rooms[room].archived {
      var m := Latest(t.messages, ids);
      assert m in RankedFirst(t, a);
      assert latest[room] == m;
      assert List(t, room, None, limit)[0] == m;
    }
  }

  // ---------------------------------------------------------------- the room feeds

  datatype RoomEntry = RoomEntry(room: nat, name: string, subscribed: bool, joinedAt: int, lastAt: Option<int>,
                                 lastId: Option<nat>)

  function Entry(t: Tables, a: string, latest: map<nat, nat>, r: nat): RoomEntry
    requires (a, r) in t.memberships && r in t.rooms && (r in latest ==> latest[r] in t.messages)
  {
    var mb := t.memberships[(a, r)];
    RoomEntry(r, t.rooms[r].name, mb.subscribed, mb.joinedAt,
              if r in latest then Some(t.messages[latest[r]].createdAt) else None,
              if r in latest then Some(latest[r]) else None)
  }

  /** The feed's comparator: latest message first, rooms without one last, by join time. */
  predicate MoreRecent(x: RoomEntry, y: RoomEntry) {
    if x.lastAt.Some? && y.lastAt.Some? then x.lastAt.value > y.lastAt.value
    else if x.lastAt.Some? then true
    else if y.lastAt.Some? then false
    else x.joinedAt > y.joinedAt
  }

  /** sort.Slice is handed a strict weak order. */
  lemma MoreRecentIsWeakOrder()
    ensures StrictWeakOrder(MoreRecent)
  {
  }

  lemma JoinedLaterIsWeakOrder()
    ensures StrictWeakOrder((x: RoomEntry, y: RoomEntry) => x.joinedAt > y.joinedAt)
  {
  }

  const NEW_ROOMS_LIMIT := 5
  const RECENT_LIMIT := 20

  /** The entries of the rooms that are not archived, in the order they are listed. */
  function Entries(t: Tables, a: string, latest: map<nat, nat>, joined: seq<nat>): seq<RoomEntry>
    requires forall r | r in joined :: (a, r) in t.memberships && r in t.rooms
    requires forall r | r in latest :: latest[r] in t.messages
  {
    if joined == [] then []
    else
      var n := |joined| - 1;
      Entries(t, a, latest, joined[..n]) + if t.rooms[joined[n]].archived then [] else [Entry(t, a, latest, joined[n])]
  }

  function OnlySubscribed(es: seq<RoomEntry>): seq<RoomEntry> {
    if es == [] then []
    else OnlySubscribed(es[..|es| - 1]) + if es[|es| - 1].subscribed then [es[|es| - 1]] else []
  }

  function JoinedAfter(es: seq<RoomEntry>, cutoff: int): seq<RoomEntry> {
    if es == [] then []
    else
      var e := es[|es| - 1];
      JoinedAfter(es[..|es| - 1], cutoff) + if e.subscribed && e.joinedAt > cutoff then [e] else []
  }

  /** `feed` and `omitted` together are `all`; the feed is full or nothing is omitted. */
  ghost predicate TopFeed(all: seq<RoomEntry>, feed: seq<RoomEntry>, omitted: seq<RoomEntry>, limit: nat,
                          before: (RoomEntry, RoomEntry) -> bool) {
    && multiset(feed + omitted) == multiset(all)
    && |feed| == Min(limit, |all|)
    && Sorted(feed, before)
    && forall i, j | 0 <= i < |feed| && 0 <= j < |omitted| :: !before(omitted[j], feed[i])
  }

  ghost predicate IsTopFeed(all: seq<RoomEntry>, feed: seq<RoomEntry>, limit: nat,
                            before: (RoomEntry, RoomEntry) -> bool) {
    exists omitted :: TopFeed(all, feed, omitted, limit, before)
  }

  /** Sort, then truncate: no omitted entry ranks strictly before an included one. */
  method SortAndCap(all: seq<RoomEntry>, limit: nat, before: (RoomEntry, RoomEntry) -> bool)
    returns (feed: seq<RoomEntry>)
    requires StrictWeakOrder(before)
    ensures IsTopFeed(all, feed, limit, before)
  {
    var sorted := SortSlice(all, before);
    feed := sorted;
    ghost var omitted: seq<RoomEntry> := [];
    if |feed| > limit {
      omitted := sorted[limit..];
      feed := feed[..limit];
    }
    assert feed + omitted == sorted;
    forall i, j | 0 <= i < |feed| && 0 <= j < |omitted| ensures !before(omitted[j], feed[i]) {
      assert omitted[j] == sorted[|feed| + j] && feed[i] == sorted[i];
    }
    assert TopFeed(all, feed, omitted, limit, before);
  }

  method CollectEntries(t: Tables, a: string, joined: seq<nat>, latest: map<nat, nat>) returns (all: seq<RoomEntry>)
    requires ListsRooms(t, a, joined) && IsLatestPerRoom(t, a, latest)
    ensures all == Entries(t, a, latest, joined)
  {
    all := [];
    var i := 0;
    while i < |joined|
      invariant 0 <= i <= |joined|
      invariant all == Entries(t, a, latest, joined[..i])
    {
      assert joined[..i + 1][..i] == joined[..i];
      if !t.rooms[joined[i]].archived {
        all := all + [Entry(t, a, latest, joined[i])];
      }
      i := i + 1;
    }
    assert joined[..i] == joined;
  }

  method PickSubscribed(all: seq<RoomEntry>) returns (picked: seq<RoomEntry>)
    ensures picked == OnlySubscribed(all)
  {
    picked := [];
    var i := 0;
    while i < |all|
      invariant 0 <= i <= |all|
      invariant picked == OnlySubscribed(all[..i])
    {
      assert all[..i + 1][..i] == all[..i];
      if all[i].subscribed {
        picked := picked + [all[i]];
      }
      i := i + 1;
    }
    assert all[..i] == all;
  }

  method PickNew(all: seq<RoomEntry>, cutoff: int) returns (picked: seq<RoomEntry>)
    ensures picked == JoinedAfter(all, cutoff)
  {
    picked := [];
    var i := 0;
    while i < |all|
      invariant 0 <= i <= |all|
      invariant picked == JoinedAfter(all[..i], cutoff)
    {
      assert all[..i + 1][..i] == all[..i];
      if all[i].subscribed && all[i].joinedAt > cutoff {
        picked := picked + [all[i]];
      }
      i := i + 1;
    }
    assert all[..i] == all;
  }

  /** buildRoomFeeds: subscribed rooms joined within the window, and the most recently active ones. */
  method BuildRoomFeeds(t: Tables, a: string, joined: seq<nat>, latest: map<nat, nat>, cutoff: int)
    returns (newRooms: seq<RoomEntry>, recent: seq<RoomEntry>)
    requires ListsRooms(t, a, joined) && IsLatestPerRoom(t, a, latest)
    ensures IsTopFeed(JoinedAfter(Entries(t, a, latest, joined), cutoff), newRooms, NEW_ROOMS_LIMIT,
                      (x: RoomEntry, y: RoomEntry) => x.joinedAt > y.joinedAt)
    ensures IsTopFeed(OnlySubscribed(Entries(t, a, latest, joined)), recent, RECENT_LIMIT, MoreRecent)
    ensures RecentFeed(t, a, recent) && NewFeed(t, a, cutoff, newRooms)
  {
    var all := CollectEntries(t, a, joined, latest);
    newRooms := PickNew(all, cutoff);
    JoinedLaterIsWeakOrder();
    newRooms := SortAndCap(newRooms, NEW_ROOMS_LIMIT, (x: RoomEntry, y: RoomEntry) => x.joinedAt > y.joinedAt);
    recent := PickSubscribed(all);
    MoreRecentIsWeakOrder();
    recent := SortAndCap(recent, RECENT_LIMIT, MoreRecent);
    RecentFeedHolds(t, a, joined, latest, recent);
    NewFeedHolds(t, a, joined, latest, newRooms, cutoff);
  }

  // ---------------------------------------------------------------- what the feed covers

  lemma OnlySubscribedAppend(es: seq<RoomEntry>, e: RoomEntry)
    ensures OnlySubscribed(es + [e]) == OnlySubscribed(es) + if e.subscribed then [e] else []
  {
    assert (es + [e])[..|es|] == es;
  }

  lemma {:induction false} EntriesCover(t: Tables, a: string, latest: map<nat, nat>, joined: seq<nat>, e: RoomEntry)
    requires forall r | r in joined :: (a, r) in t.memberships && r in t.rooms
    requires forall r | r in latest :: latest[r] in t.messages
    ensures e in OnlySubscribed(Entries(t, a, latest, joined))
       <==> e.room in joined && Primary(t, a, e.room) && e == Entry(t, a, latest, e.room)
  {
    if joined != [] {
      var n := |joined| - 1;
      assert joined == joined[..n] + [joined[n]];
      EntriesCover(t, a, latest, joined[..n], e);
      var before := Entries(t, a, latest, joined[..n]);
      if t.rooms[joined[n]].archived {
        assert before + [] == before;
      } else {
        OnlySubscribedAppend(before, Entry(t, a, latest, joined[n]));
      }
    }
  }

  /**
   The recent feed holds entries of subscribed rooms that are not archived only, most
   recent first; it leaves such a room out only when it is full, and then the room ranks
   strictly before none that is in.
   */
  lemma RecentFeedIsTop(t: Tables, a: string, joined: seq<nat>, latest: map<nat, nat>, recent: seq<RoomEntry>,
                        room: nat)
    requires ListsRooms(t, a, joined) && IsLatestPerRoom(t, a, latest)
    requires IsTopFeed(OnlySubscribed(Entries(t, a, latest, joined)), recent, RECENT_LIMIT, MoreRecent)
    ensures |recent| <= RECENT_LIMIT && Sorted(recent, MoreRecent)
    ensures forall e | e in recent :: Primary(t, a, e.room) && e == Entry(t, a, latest, e.room)
    ensures Primary(t, a, room) && Entry(t, a, latest, room) !in recent ==>
              |recent| == RECENT_LIMIT && forall e | e in recent :: !MoreRecent(Entry(t, a, latest, room), e)
  {
    var all := OnlySubscribed(Entries(t, a, latest, joined));
    var omitted :| TopFeed(all, recent, omitted, RECENT_LIMIT, MoreRecent);
    SplitElems(all, recent, omitted);
    forall e | e in recent ensures Primary(t, a, e.room) && e == Entry(t, a, latest, e.room) {
      EntriesCover(t, a, latest, joined, e);
    }
    if Primary(t, a, room) {
      EntriesCover(t, a, latest, joined, Entry(t, a, latest, room));
      assert (a, room) in t.memberships;
    }
  }

  /** A subscribed room that is not archived as the feeds show it: with the time of its newest message. */
  ghost predicate Shows(t: Tables, a: string, e: RoomEntry) {
    && (a, e.room) in t.memberships && t.memberships[(a, e.room)] == Membership(true, e.joinedAt) && e.subscribed
    && e.room in t.rooms && t.rooms[e.room] == Room(t.rooms[e.room].channel, e.name, false)
    && (e.lastId.None? ==> e.lastAt.None? && forall m | m in t.messages :: t.messages[m].room != e.room)
    && (e.lastId.Some? ==>
          && e.lastId.value in t.messages && t.messages[e.lastId.value].room == e.room
          && e.lastAt == Some(t.messages[e.lastId.value].createdAt)
          && forall m | m in t.messages && t.messages[m].room == e.room :: t.messages[m].createdAt <= e.lastAt.value)
  }

  /** Rooms with messages first and by their newest one, the others by join time, each latest first. */
  ghost predicate NotBehind(x: RoomEntry, y: RoomEntry) {
    && (y.lastAt.Some? ==> x.lastAt.Some? && x.lastAt.value >= y.lastAt.value)
    && (x.lastAt.None? && y.lastAt.None? ==> x.joinedAt >= y.joinedAt)
  }

  /** The most recently active subscribed rooms: up to 20, and all of them if fewer. */
  ghost predicate RecentFeed(t: Tables, a: string, recent: seq<RoomEntry>) {
    && |recent| <= 20
    && (forall i | 0 <= i < |recent| :: Shows(t, a, recent[i]))
    && (forall i, j | 0 <= i < j < |recent| :: NotBehind(recent[i], recent[j]))
    && (forall room: nat | Primary(t, a, room) ::
          exists x :: Shows(t, a, x) && x.room == room
                      && (x in recent || (|recent| == 20 && forall i | 0 <= i < |recent| :: NotBehind(recent[i], x))))
  }

  /** The subscribed rooms joined after the cutoff, latest first: up to 5, and all of them if fewer. */
  ghost predicate NewFeed(t: Tables, a: string, cutoff: int, news: seq<RoomEntry>) {
    && |news| <= 5
    && (forall i | 0 <= i < |news| :: Shows(t, a, news[i]) && news[i].joinedAt > cutoff)
    && (forall i, j | 0 <= i < j < |news| :: news[i].joinedAt >= news[j].joinedAt)
    && (forall room: nat | Primary(t, a, room) && t.memberships[(a, room)].joinedAt > cutoff ::
          exists x :: Shows(t, a, x) && x.room == room
                      && (x in news || (|news| == 5 && forall i | 0 <= i < |news| :: news[i].joinedAt >= x.joinedAt)))
  }

  lemma EntryShows(t: Tables, a: string, latest: map<nat, nat>, room: nat)
    requires IsLatestPerRoom(t, a, latest) && Primary(t, a, room)
    ensures Shows(t, a, Entry(t, a, latest, room))
  {
    LatestIsHeadOfList(t, a, latest, room, 1);
    if room in latest {
      forall m | m in t.messages && t.messages[m].room == room
        ensures t.messages[m].createdAt <= t.messages[latest[room]].createdAt
      {
        assert m in InRoom(t, room);
      }
    } else {
      forall m | m in t.messages ensures t.messages[m].room != room {
        assert m !in InRoom(t, room);
      }
    }
  }

  lemma RecentFeedHolds(t: Tables, a: string, joined: seq<nat>, latest: map<nat, nat>, recent: seq<RoomEntry>)
    requires ListsRooms(t, a, joined) && IsLatestPerRoom(t, a, latest)
    requires IsTopFeed(OnlySubscribed(Entries(t, a, latest, joined)), recent, RECENT_LIMIT, MoreRecent)
    ensures RecentFeed(t, a, recent)
  {
    RecentFeedIsTop(t, a, joined, latest, recent, 0);
    forall i | 0 <= i < |recent| ensures Shows(t, a, recent[i]) {
      assert recent[i] in recent;
      EntryShows(t, a, latest, recent[i].room);
    }
    forall i, j | 0 <= i < j < |recent| ensures NotBehind(recent[i], recent[j]) {
      assert !MoreRecent(recent[j], recent[i]);
    }
    forall room: nat | Primary(t, a, room)
      ensures exists x :: Shows(t, a, x) && x.room == room
                && (x in recent || (|recent| == 20 && forall i | 0 <= i < |recent| :: NotBehind(recent[i], x)))
    {
      RecentFeedIsTop(t, a, joined, latest, recent, room);
      EntryShows(t, a, latest, room);
      var x := Entry(t, a, latest, room);
      if x !in recent {
        forall i | 0 <= i < |recent| ensures NotBehind(recent[i], x) {
          assert recent[i] in recent;
        }
      }
      assert Shows(t, a, x) && x.room == room;
    }
  }

  lemma {:induction false} JoinedAfterIs(es: seq<RoomEntry>, cutoff: int, e: RoomEntry)
    ensures e in JoinedAfter(es, cutoff) <==> e in OnlySubscribed(es) && e.joinedAt > cutoff
  {
    if es != [] {
      JoinedAfterIs(es[..|es| - 1], cutoff, e);
    }
  }

  lemma NewFeedHolds(t: Tables, a: string, joined: seq<nat>, latest: map<nat, nat>, news: seq<RoomEntry>, cutoff: int)
    requires ListsRooms(t, a, joined) && IsLatestPerRoom(t, a, latest)
    requires IsTopFeed(JoinedAfter(Entries(t, a, latest, joined), cutoff), news, NEW_ROOMS_LIMIT,
                       (x: RoomEntry, y: RoomEntry) => x.joinedAt > y.joinedAt)
    ensures NewFeed(t, a, cutoff, news)
  {
    var all := JoinedAfter(Entries(t, a, latest, joined), cutoff);
    var omitted :| TopFeed(all, news, omitted, NEW_ROOMS_LIMIT,
                           (x: RoomEntry, y: RoomEntry) => x.joinedAt > y.joinedAt);
    SplitElems(all, news, omitted);
    forall i | 0 <= i < |news| ensures Shows(t, a, news[i]) && news[i].joinedAt > cutoff {
      assert news[i] in all;
      JoinedAfterIs(Entries(t, a, latest, joined), cutoff, news[i]);
      EntriesCover(t, a, latest, joined, news[i]);
      EntryShows(t, a, latest, news[i].room);
    }
    forall room: nat | Primary(t, a, room) && t.memberships[(a, room)].joinedAt > cutoff
      ensures exists x :: Shows(t, a, x) && x.room == room
                && (x in news || (|news| == 5 && forall i | 0 <= i < |news| :: news[i].joinedAt >= x.joinedAt))
    {
      var x := Entry(t, a, latest, room);
      assert (a, room) in t.memberships;
      JoinedAfterIs(Entries(t, a, latest, joined), cutoff, x);
      EntriesCover(t, a, latest, joined, x);
      EntryShows(t, a, latest, room);
      assert x in news || x in omitted;
      assert Shows(t, a, x) && x.room == room;
    }
  }

  lemma SplitElems(all: seq<RoomEntry>, recent: seq<RoomEntry>, omitted: seq<RoomEntry>)
    requires multiset(recent + omitted) == multiset(all)
    ensures forall e :: e in all <==> e in recent || e in omitted
    ensures |all| == |recent| + |omitted|
  {
    forall e: RoomEntry ensures e in all <==> e in recent || e in omitted {
      assert e in recent + omitted <==> e in multiset(recent + omitted);
      assert e in all <==> e in multiset(all);
    }
    assert |multiset(recent + omitted)| == |recent| + |omitted|;
    assert |multiset(all)| == |all|;
  }
}
