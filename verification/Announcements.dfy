/**
 Room announcements (internal/api/v1/announcements.go over
 internal/store/sqlite/announcement_repo.go): versions are numbered per room inside the
 posting transaction, only the latest version counts as unread, and an
 acknowledgement is a row of announcement_reads.
 */
module Announcements {
  import opened Wrappers
  import opened Store
  import R = Rooms

  datatype Announcement = Announcement(room: nat, content: string, version: nat, createdBy: string, createdAt: int)

  /** The tables with announcements and announcement_reads beside them. */
  datatype Board = Board(t: Tables, anns: Posts, acks: map<(nat, string), int>)

  // ---------------------------------------------------------------- the queries

  type Posts = map<nat, Announcement>

  function OnBoard(anns: Posts, room: nat): set<nat> {
    set i | i in anns && anns[i].room == room
  }

  function Versions(anns: Posts, room: nat): set<nat> {
    set i | i in OnBoard(anns, room) :: anns[i].version
  }

  lemma MaxExists(vs: set<nat>)
    requires vs != {}
    ensures exists v :: v in vs && forall w | w in vs :: w <= v
  {
    var x :| x in vs;
    if vs - {x} != {} {
      MaxExists(vs - {x});
      var v :| v in vs - {x} && forall w | w in vs - {x} :: w <= v;
      var top := if x <= v then v else x;
      forall w | w in vs ensures w <= top {
        assert w == x || w in vs - {x};
      }
      assert top in vs;
    } else {
      assert vs == {x};
    }
  }

  /** MAX(version), 0 standing for NULL. */
  function MaxVersion(vs: set<nat>): (v: nat)
    ensures vs == {} ==> v == 0
    ensures vs != {} ==> v in vs && forall w | w in vs :: w <= v
  {
    if vs == {} then 0
    else
      MaxExists(vs);
      var v :| v in vs && forall w | w in vs :: w <= v;
      v
  }

  function NextVersion(anns: Posts, room: nat): nat {
    MaxVersion(Versions(anns, room)) + 1
  }

  /** WITH latest AS (.. (room_id, version) IN (SELECT room_id, MAX(version) ..)) */
  function LatestOnes(anns: Posts): set<nat> {
    set i | i in anns && anns[i].version == MaxVersion(Versions(anns, anns[i].room))
  }

  /** The account is a member of the announcement's room and has no read row for it. */
  predicate Open(b: Board, a: string, i: nat) {
    i in b.anns && (a, b.anns[i].room) in b.t.memberships && (i, a) !in b.acks
  }

  /** The latest announcements of the account's rooms that it has not acknowledged. */
  function Unread(b: Board, a: string): set<nat> {
    set i | i in LatestOnes(b.anns) && Open(b, a, i)
  }

  function CountUnread(b: Board, a: string): nat {
    |Unread(b, a)|
  }

  // ---------------------------------------------------------------- the transactions as functions

  /** Why an actor may not touch a room's board: unknown accounts and non-members, except admins. */
  function Gate(t: Tables, actor: string, room: nat): Option<DbError> {
    if !HasAccount(t, actor) then Some(NotFound)
    else if !IsAdmin(t, actor) && (actor, room) !in t.memberships then Some(PermDenied)
    else None
  }

  function PostRefusal(b: Board, actor: string, room: nat, content: string): Option<DbError> {
    if content == "" then Some(InvalidArgument)
    else if room !in b.t.rooms then Some(NotFound)
    else if b.t.rooms[room].archived then Some(Conflict)
    else Gate(b.t, actor, room)
  }

  function Posted(b: Board, actor: string, id: nat, room: nat, content: string, now: int): Board {
    var v := NextVersion(b.anns, room);
    b.(anns := b.anns[id := Announcement(room, content, v, actor, now)],
       t := b.t.(audit := b.t.audit + [AnnouncementCreate(actor, id, room, v)]))
  }

  function AckRefusal(b: Board, actor: string, id: nat): Option<DbError> {
    if id !in b.anns then Some(NotFound) else Gate(b.t, actor, b.anns[id].room)
  }

  /** A second acknowledgement overwrites the time of the first. */
  function Acked(b: Board, actor: string, id: nat, now: int): Board
    requires id in b.anns
  {
    b.(acks := b.acks[(id, actor) := now],
       t := b.t.(audit := b.t.audit + [AnnouncementRead(actor, id, b.anns[id].room)]))
  }

  // ---------------------------------------------------------------- who is let in

  ghost predicate Known(t: Tables, actor: string) {
    exists i :: 0 <= i < |t.accounts| && t.accounts[i].id == actor
  }

  /** A member of the room, or an account with the admin flag. */
  ghost predicate Trusted(t: Tables, actor: string, room: nat) {
    || (actor, room) in t.memberships
    || exists i :: 0 <= i < |t.accounts| && t.accounts[i].id == actor && t.accounts[i].admin
  }

  /** Checks in this order: content, room, archived, account, membership. */
  lemma PostRefusalIs(b: Board, actor: string, room: nat, content: string)
    ensures var no := PostRefusal(b, actor, room, content);
            && (no.None? <==> content != "" && room in b.t.rooms && !b.t.rooms[room].archived && Known(b.t, actor)
                              && Trusted(b.t, actor, room))
            && (no == Some(InvalidArgument) <==> content == "")
            && (no == Some(Conflict) <==> content != "" && room in b.t.rooms && b.t.rooms[room].archived)
            && (no == Some(NotFound) <==>
                  content != "" && (room !in b.t.rooms || (!b.t.rooms[room].archived && !Known(b.t, actor))))
            && (no == Some(PermDenied) <==>
                  content != "" && room in b.t.rooms && !b.t.rooms[room].archived && Known(b.t, actor)
                  && !Trusted(b.t, actor, room))
  {
  }

  lemma AckRefusalIs(b: Board, actor: string, id: nat)
    ensures var no := AckRefusal(b, actor, id);
            && (no.None? <==> id in b.anns && Known(b.t, actor) && Trusted(b.t, actor, b.anns[id].room))
            && (no == Some(NotFound) <==> id !in b.anns || !Known(b.t, actor))
            && (no == Some(PermDenied) <==>
                  id in b.anns && Known(b.t, actor) && !Trusted(b.t, actor, b.anns[id].room))
  {
  }

  /** One above all versions of the room, and above one of them by one, or 1. */
  ghost predicate IsNext(anns: Posts, room: nat, v: nat) {
    && (forall i | i in anns && anns[i].room == room :: anns[i].version < v)
    && (v == 1 || exists i :: i in anns && anns[i].room == room && anns[i].version + 1 == v)
  }

  lemma NextIs(anns: Posts, room: nat)
    ensures IsNext(anns, room, NextVersion(anns, room))
  {
    forall i | i in anns && anns[i].room == room ensures anns[i].version < NextVersion(anns, room) {
      assert anns[i].version in Versions(anns, room);
    }
    if NextVersion(anns, room) != 1 {
      assert MaxVersion(Versions(anns, room)) in Versions(anns, room);
    }
  }

  // ---------------------------------------------------------------- the transactions as code

  class BoardDb {
    var b: Board

    constructor (b: Board)
      ensures this.b == b
    {
      this.b := b;
    }

    /** SELECT MAX(version) .. scanned row by row. */
    method ScanVersion(room: nat) returns (v: nat)
      ensures v == NextVersion(b.anns, room)
    {
      var anns := b.anns;
      var rest := OnBoard(anns, room);
      var max := 0;
      ghost var seen: set<nat> := {};
      while rest != {}
        invariant rest <= OnBoard(anns, room)
        invariant seen == (set i | i in OnBoard(anns, room) - rest :: anns[i].version)
        invariant max == MaxVersion(seen)
        decreases rest
      {
        var i :| i in rest;
        rest := rest - {i};
        assert OnBoard(anns, room) - rest == (OnBoard(anns, room) - (rest + {i})) + {i};
        seen := seen + {anns[i].version};
        if anns[i].version > max {
          max := anns[i].version;
        }
      }
      assert OnBoard(anns, room) - rest == OnBoard(anns, room);
      assert seen == Versions(anns, room);
      return max + 1;
    }

    /** CreateAnnouncement's transaction; `accepted` is whether the audit row is written. */
    method Post(actor: string, id: nat, room: nat, content: string, now: int, accepted: bool)
      returns (r: Result<nat, DbError>)
      requires id !in b.anns
      modifies this
      ensures var no := PostRefusal(old(b), actor, room, content);
              r == if no.Some? then Err(no.value) else if accepted then Ok(NextVersion(old(b).anns, room))
                else Err(Internal)
      ensures b == if r.Ok? then Posted(old(b), actor, id, room, content, now) else old(b)
      ensures r.Ok? <==> accepted && content != "" && room in old(b).t.rooms && !old(b).t.rooms[room].archived
                         && Known(old(b).t, actor) && Trusted(old(b).t, actor, room)
      ensures r.Ok? ==> IsNext(old(b).anns, room, r.value)
      ensures r.Ok? ==>
                && b.anns == old(b).anns[id := Announcement(room, content, r.value, actor, now)]
                && b.acks == old(b).acks
                && b.t == old(b).t.(audit := old(b).t.audit + [AnnouncementCreate(actor, id, room, r.value)])
    {
      PostRefusalIs(b, actor, room, content);
      NextIs(b.anns, room);
      if content == "" {
        return Err(InvalidArgument);
      }
      if room !in b.t.rooms {
        return Err(NotFound);
      }
      if b.t.rooms[room].archived {
        return Err(Conflict);
      }
      var gate := Gate(b.t, actor, room);
      if gate.Some? {
        return Err(gate.value);
      }
      var saved := b;
      var v := ScanVersion(room);
      b := b.(anns := b.anns[id := Announcement(room, content, v, actor, now)]);
      if !accepted {
        b := saved;
        return Err(Internal);
      }
      b := b.(t := b.t.(audit := b.t.audit + [AnnouncementCreate(actor, id, room, v)]));
      return Ok(v);
    }

    /** MarkAnnouncementRead's transaction. */
    method Ack(actor: string, id: nat, now: int, accepted: bool) returns (r: Result<(), DbError>)
      modifies this
      ensures var no := AckRefusal(old(b), actor, id);
              r == if no.Some? then Err(no.value) else if accepted then Ok(()) else Err(Internal)
      ensures b == if r.Ok? && id in old(b).anns then Acked(old(b), actor, id, now) else old(b)
      ensures r.Ok? <==> accepted && id in old(b).anns && Known(old(b).t, actor)
                         && Trusted(old(b).t, actor, old(b).anns[id].room)
      ensures r.Ok? && id in old(b).anns ==>
                && b.anns == old(b).anns && b.acks == old(b).acks[(id, actor) := now]
                && b.t == old(b).t.(audit :=
                     old(b).t.audit + [AnnouncementRead(actor, id, old(b).anns[id].room)])
    {
      AckRefusalIs(b, actor, id);
      if id !in b.anns {
        return Err(NotFound);
      }
      var room := b.anns[id].room;
      var gate := Gate(b.t, actor, room);
      if gate.Some? {
        return Err(gate.value);
      }
      var saved := b;
      b := b.(acks := b.acks[(id, actor) := now]);
      if !accepted {
        b := saved;
        return Err(Internal);
      }
      b := b.(t := b.t.(audit := b.t.audit + [AnnouncementRead(actor, id, room)]));
      return Ok(());
    }
  }

  // ---------------------------------------------------------------- runs

  /** A post, an acknowledgement, or a room, message or account transaction, whose deletions cascade to the board. */
  datatype Step =
    | Post(actor: string, id: nat, room: nat, content: string, now: int, accepted: bool)
    | Ack(actor: string, id: nat, now: int, accepted: bool)
    | Other(s: R.Step)

  predicate AccountLost(t: Tables, t1: Tables, a: string) {
    HasAccount(t, a) && !HasAccount(t1, a)
  }

  /** ON DELETE SET NULL: the author reads as the empty string once the account is gone. */
  function Orphaned(t: Tables, t1: Tables, ann: Announcement): Announcement {
    if AccountLost(t, t1, ann.createdBy) then ann.(createdBy := "") else ann
  }

  /** ON DELETE CASCADE from rooms to announcements, and from both them and accounts to announcement_reads. */
  function Cascaded(b: Board, t: Tables): Board {
    var anns := map i | i in b.anns && b.anns[i].room in t.rooms :: Orphaned(b.t, t, b.anns[i]);
    Board(t, anns, map k | k in b.acks && k.0 in anns && !AccountLost(b.t, t, k.1) :: b.acks[k])
  }

  /**
   What another transaction leaves of the boards: the announcements of the rooms that are
   still there, unchanged but for the author of a deleted account, and their read rows but
   for those of deleted accounts.
   */
  lemma CascadeIs(b: Board, t1: Tables)
    ensures var b1 := Cascaded(b, t1);
            && b1.t == t1
            && (forall i :: i in b1.anns <==> i in b.anns && b.anns[i].room in t1.rooms)
            && (forall i | i in b1.anns ::
                  b1.anns[i] == b.anns[i].(createdBy :=
                    if Known(b.t, b.anns[i].createdBy) && !Known(t1, b.anns[i].createdBy) then ""
                    else b.anns[i].createdBy))
            && (forall k :: k in b1.acks <==>
                  k in b.acks && k.0 in b.anns && b.anns[k.0].room in t1.rooms
                  && (Known(b.t, k.1) ==> Known(t1, k.1)))
            && (forall k | k in b1.acks :: b1.acks[k] == b.acks[k])
  {
  }

  ghost function Apply(b: Board, s: Step): Board
    requires Indexed(b.t)
  {
    match s
    case Post(actor, id, room, content, now, accepted) =>
      if accepted && PostRefusal(b, actor, room, content).None? then Posted(b, actor, id, room, content, now) else b
    case Ack(actor, id, now, accepted) =>
      if accepted && AckRefusal(b, actor, id).None? then Acked(b, actor, id, now) else b
    case Other(s) => Cascaded(b, R.Apply(b.t, s))
  }

  ghost predicate Legal(b: Board, s: Step) {
    match s
    case Post(actor, id, room, content, now, accepted) => id !in b.anns && forall k | k in b.acks :: k.0 != id
    case Ack(actor, id, now, accepted) => true
    case Other(s) => R.Legal(b.t, s)
  }

  ghost predicate Takes(b: Board, s: Step, b1: Board) {
    Indexed(b.t) && Legal(b, s) && b1 == Apply(b, s)
  }

  ghost predicate StepAt(bs: seq<Board>, steps: seq<Step>, i: int)
    requires |bs| == |steps| + 1 && 0 <= i < |steps|
  {
    Takes(bs[i], steps[i], bs[i + 1])
  }

  /** The boards of a run, one more than it has steps; each is indexed (BoardRunReproduces). */
  ghost predicate Run(bs: seq<Board>, steps: seq<Step>) {
    |bs| == |steps| + 1 && forall i | 0 <= i < |steps| :: StepAt(bs, steps, i)
  }

  /** Accounts and nothing else. */
  function Empty(accounts: seq<Account>): Board {
    Board(R.Empty(accounts), map[], map[])
  }

  // ---------------------------------------------------------------- versions are 1..n

  predicate IsVersion(v: nat, n: nat) {
    1 <= v <= n
  }

  function UpTo(n: nat): set<nat> {
    set v | 0 <= v <= n && IsVersion(v, n)
  }

  /** The versions of a room are 1..n, n being how many announcements it has, each once. */
  ghost predicate NumberedIn(anns: Posts, room: nat) {
    && Versions(anns, room) == UpTo(|OnBoard(anns, room)|)
    && OneEach(anns, room)
  }

  ghost predicate OneEach(anns: Posts, room: nat) {
    forall i, j | i in OnBoard(anns, room) && j in OnBoard(anns, room) && anns[i].version == anns[j].version :: i == j
  }

  ghost predicate Numbered(anns: Posts) {
    forall room: nat :: NumberedIn(anns, room)
  }

  /** Numbered, and every row has its parent. */
  ghost predicate Sound(b: Board) {
    && Numbered(b.anns)
    && (forall i | i in b.anns :: b.anns[i].room in b.t.rooms)
    && (forall k | k in b.acks :: k.0 in b.anns)
  }

  lemma MaxOfUpTo(vs: set<nat>, n: nat)
    requires vs == UpTo(n)
    ensures MaxVersion(vs) == n
  {
    if n > 0 {
      assert n in UpTo(n);
    } else {
      assert UpTo(0) == {};
    }
  }

  lemma NextIsOneMore(anns: Posts, room: nat)
    requires NumberedIn(anns, room)
    ensures NextVersion(anns, room) == |OnBoard(anns, room)| + 1
    ensures forall i | i in OnBoard(anns, room) :: anns[i].version <= |OnBoard(anns, room)|
  {
    MaxOfUpTo(Versions(anns, room), |OnBoard(anns, room)|);
    forall i | i in OnBoard(anns, room) ensures anns[i].version <= |OnBoard(anns, room)| {
      assert anns[i].version in Versions(anns, room);
    }
  }

  lemma PostAddsVersion(anns: Posts, id: nat, ann: Announcement)
    requires id !in anns
    ensures OnBoard(anns[id := ann], ann.room) == OnBoard(anns, ann.room) + {id}
    ensures Versions(anns[id := ann], ann.room) == Versions(anns, ann.room) + {ann.version}
  {
    var anns1 := anns[id := ann];
    assert OnBoard(anns1, ann.room) == OnBoard(anns, ann.room) + {id};
    forall v ensures v in Versions(anns1, ann.room) <==> v in Versions(anns, ann.room) + {ann.version} {
      if v in Versions(anns, ann.room) {
        var i :| i in OnBoard(anns, ann.room) && anns[i].version == v;
        assert i in OnBoard(anns1, ann.room) && anns1[i].version == v;
      }
      if v == ann.version {
        assert id in OnBoard(anns1, ann.room) && anns1[id].version == v;
      }
    }
  }

  lemma PostKeepsOneEach(anns: Posts, id: nat, ann: Announcement)
    requires OneEach(anns, ann.room) && id !in anns
    requires forall i | i in OnBoard(anns, ann.room) :: anns[i].version < ann.version
    ensures OneEach(anns[id := ann], ann.room)
  {
    var anns1 := anns[id := ann];
    forall i, j | i in OnBoard(anns1, ann.room) && j in OnBoard(anns1, ann.room) && anns1[i].version == anns1[j].version
      ensures i == j
    {
      assert i == id || i in OnBoard(anns, ann.room);
      assert j == id || j in OnBoard(anns, ann.room);
    }
  }

  lemma UpToGrows(n: nat)
    ensures UpTo(n) + {n + 1} == UpTo(n + 1)
  {
    assert IsVersion(n + 1, n + 1);
    forall v: nat ensures IsVersion(v, n + 1) <==> IsVersion(v, n) || v == n + 1 {
    }
  }

  lemma PostNumbers(anns: Posts, id: nat, ann: Announcement)
    requires NumberedIn(anns, ann.room) && id !in anns && ann.version == NextVersion(anns, ann.room)
    ensures NumberedIn(anns[id := ann], ann.room)
  {
    NextIsOneMore(anns, ann.room);
    PostAddsVersion(anns, id, ann);
    UpToGrows(|OnBoard(anns, ann.room)|);
    PostKeepsOneEach(anns, id, ann);
  }

  lemma SameBoard(anns: Posts, anns1: Posts, room: nat)
    requires OnBoard(anns1, room) == OnBoard(anns, room)
    requires forall i | i in OnBoard(anns, room) :: anns1[i].version == anns[i].version
    ensures Versions(anns1, room) == Versions(anns, room)
    ensures NumberedIn(anns, room) ==> NumberedIn(anns1, room)
  {
    assert Versions(anns1, room) == Versions(anns, room);
  }

  lemma PostKeepsNumbered(anns: Posts, id: nat, ann: Announcement)
    requires Numbered(anns) && id !in anns && ann.version == NextVersion(anns, ann.room)
    ensures Numbered(anns[id := ann])
  {
    var anns1 := anns[id := ann];
    forall room: nat ensures NumberedIn(anns1, room) {
      assert NumberedIn(anns, room);
      if room == ann.room {
        PostNumbers(anns, id, ann);
      } else {
        assert OnBoard(anns1, room) == OnBoard(anns, room);
        SameBoard(anns, anns1, room);
      }
    }
  }

  /** Deleting rooms empties their boards and leaves the others alone, whoever wrote what is on them. */
  lemma CascadeKeepsNumbered(anns: Posts, anns1: Posts, rooms: set<nat>)
    requires Numbered(anns)
    requires forall i :: i in anns1 <==> i in anns && anns[i].room in rooms
    requires forall i | i in anns1 :: anns1[i].room == anns[i].room && anns1[i].version == anns[i].version
    ensures Numbered(anns1)
  {
    forall room: nat ensures NumberedIn(anns1, room) {
      assert NumberedIn(anns, room);
      if room in rooms {
        assert OnBoard(anns1, room) == OnBoard(anns, room);
        SameBoard(anns, anns1, room);
      } else {
        assert OnBoard(anns1, room) == {};
        assert Versions(anns1, room) == {};
        assert UpTo(0) == {};
      }
    }
  }

  lemma StepKeepsSound(b: Board, s: Step)
    requires Sound(b) && Indexed(b.t) && Legal(b, s)
    ensures Sound(Apply(b, s))
  {
    if s.Post? {
      PostKeepsNumbered(b.anns, s.id, Announcement(s.room, s.content, NextVersion(b.anns, s.room), s.actor, s.now));
    } else if s.Other? {
      CascadeKeepsSound(b, R.Apply(b.t, s.s));
    }
  }

  lemma CascadeKeepsSound(b: Board, t1: Tables)
    requires Numbered(b.anns)
    ensures Sound(Cascaded(b, t1))
  {
    CascadeKeepsNumbered(b.anns, Cascaded(b, t1).anns, t1.rooms.Keys);
  }

  lemma EmptyIsSound(accounts: seq<Account>)
    ensures Sound(Empty(accounts))
  {
    forall room: nat ensures NumberedIn(map[], room) {
      assert OnBoard(map[], room) == {};
      assert Versions(map[], room) == {};
      assert UpTo(0) == {};
    }
  }

  lemma {:induction false} RunKeepsSound(bs: seq<Board>, steps: seq<Step>, i: nat)
    requires Run(bs, steps) && i <= |steps| && Sound(bs[0])
    ensures Sound(bs[i])
  {
    if i > 0 {
      RunKeepsSound(bs, steps, i - 1);
      assert StepAt(bs, steps, i - 1);
      StepKeepsSound(bs[i - 1], steps[i - 1]);
    }
  }

  /**
   On every run that starts with nothing on the board, through room deletions and
   refused transactions: each room's versions are exactly 1..n, each given to one announcement.
   */
  lemma VersionsAreConsecutive(accounts: seq<Account>, bs: seq<Board>, steps: seq<Step>, i: nat, room: nat)
    requires Run(bs, steps) && i <= |steps| && bs[0] == Empty(accounts)
    ensures Versions(bs[i].anns, room) == UpTo(|OnBoard(bs[i].anns, room)|) && OneEach(bs[i].anns, room)
  {
    EmptyIsSound(accounts);
    RunKeepsSound(bs, steps, i);
    assert NumberedIn(bs[i].anns, room);
  }

  // ---------------------------------------------------------------- the log over such runs

  lemma BoardRowReproduces(t: Tables, a: Audit)
    requires Keyed(t) && R.Reproduces(t) && (a.AnnouncementCreate? || a.AnnouncementRead?)
    ensures Keyed(t.(audit := t.audit + [a])) && R.Reproduces(t.(audit := t.audit + [a]))
  {
    var t1 := t.(audit := t.audit + [a]);
    assert t1.audit[|t.audit|..] == [a];
    R.MessageReproduces(t, t1);
    forall x ensures HasAccount(t1, x) <==> HasAccount(t, x) {
    }
  }

  lemma StepReproduces(b: Board, s: Step)
    requires Keyed(b.t) && R.Reproduces(b.t) && Legal(b, s)
    ensures Keyed(Apply(b, s).t) && R.Reproduces(Apply(b, s).t)
  {
    match s
    case Post(actor, id, room, content, now, accepted) =>
      BoardRowReproduces(b.t, AnnouncementCreate(actor, id, room, NextVersion(b.anns, room)));
    case Ack(actor, id, now, accepted) =>
      if id in b.anns {
        BoardRowReproduces(b.t, AnnouncementRead(actor, id, b.anns[id].room));
      }
    case Other(s) => R.StepReproduces(b.t, s);
  }

  lemma RunStepReproduces(bs: seq<Board>, steps: seq<Step>, i: nat)
    requires Run(bs, steps) && i < |steps| && Keyed(bs[i].t) && R.Reproduces(bs[i].t)
    ensures Keyed(bs[i + 1].t) && R.Reproduces(bs[i + 1].t)
  {
    assert StepAt(bs, steps, i);
    StepReproduces(bs[i], steps[i]);
  }

  lemma {:induction false} BoardRunReproduces(bs: seq<Board>, steps: seq<Step>, i: nat)
    requires Run(bs, steps) && i <= |steps|
    requires Keyed(bs[0].t) && R.Reproduces(bs[0].t)
    ensures Keyed(bs[i].t) && R.Reproduces(bs[i].t)
  {
    if i > 0 {
      BoardRunReproduces(bs, steps, i - 1);
      RunStepReproduces(bs, steps, i - 1);
    }
  }

  /**
   With announcements among the transactions too, the audit log replayed in commit order
   yields after every step the rooms and memberships there are.
   */
  lemma AuditReproducesWithBoards(accounts: seq<Account>, bs: seq<Board>, steps: seq<Step>, i: nat)
    requires forall k | 0 <= k < |accounts| :: accounts[k].id != ""
    requires Run(bs, steps) && bs[0] == Empty(accounts) && i <= |steps|
    ensures R.Replay(bs[i].t.audit) == R.DirectoryOf(bs[i].t)
  {
    R.EmptyReproduces(accounts);
    BoardRunReproduces(bs, steps, i);
    assert R.Reproduces(bs[i].t);
  }

  /** So every room with announcements has one latest: the one whose version is their number. */
  lemma LatestIsUnique(anns: Posts, room: nat)
    requires Numbered(anns) && OnBoard(anns, room) != {}
    ensures exists i :: i in OnBoard(anns, room) && i in LatestOnes(anns) && anns[i].version == |OnBoard(anns, room)|
                    && forall j | j in OnBoard(anns, room) && j in LatestOnes(anns) :: j == i
  {
    assert NumberedIn(anns, room);
    var n := |OnBoard(anns, room)|;
    MaxOfUpTo(Versions(anns, room), n);
    assert IsVersion(n, n);
    assert n in UpTo(n);
    var i :| i in OnBoard(anns, room) && anns[i].version == n;
    assert i in LatestOnes(anns);
  }

  // ---------------------------------------------------------------- what a post makes unread

  /** The unread rows of a room: its latest announcement, or nothing. */
  function UnreadIn(b: Board, a: string, room: nat): set<nat> {
    Unread(b, a) * OnBoard(b.anns, room)
  }

  /** An announcement of another room is latest there as before. */
  lemma LatestElsewhere(anns: Posts, id: nat, ann: Announcement, i: nat)
    requires id !in anns && i in anns && anns[i].room != ann.room
    ensures i in LatestOnes(anns[id := ann]) <==> i in LatestOnes(anns)
  {
    var anns1 := anns[id := ann];
    assert OnBoard(anns1, anns[i].room) == OnBoard(anns, anns[i].room);
    SameBoard(anns, anns1, anns[i].room);
  }

  /** In its own room the post is the only latest. */
  lemma LatestHere(anns: Posts, id: nat, ann: Announcement, i: nat)
    requires NumberedIn(anns, ann.room) && id !in anns && ann.version == NextVersion(anns, ann.room)
    requires i == id || i in OnBoard(anns, ann.room)
    ensures i in LatestOnes(anns[id := ann]) <==> i == id
  {
    NextIsOneMore(anns, ann.room);
    PostIsMax(anns, id, ann);
  }

  lemma PostIsMax(anns: Posts, id: nat, ann: Announcement)
    requires NumberedIn(anns, ann.room) && id !in anns && ann.version == NextVersion(anns, ann.room)
    ensures MaxVersion(Versions(anns[id := ann], ann.room)) == ann.version
  {
    var n := |OnBoard(anns, ann.room)|;
    NextIsOneMore(anns, ann.room);
    PostAddsVersion(anns, id, ann);
    UpToGrows(n);
    MaxOfUpTo(Versions(anns[id := ann], ann.room), n + 1);
  }

  lemma PostReplacesLatest(anns: Posts, id: nat, ann: Announcement)
    requires Numbered(anns) && id !in anns && ann.version == NextVersion(anns, ann.room)
    ensures LatestOnes(anns[id := ann]) == (LatestOnes(anns) - OnBoard(anns, ann.room)) + {id}
  {
    assert NumberedIn(anns, ann.room);
    forall i ensures i in LatestOnes(anns[id := ann]) <==> i in (LatestOnes(anns) - OnBoard(anns, ann.room)) + {id} {
      if i == id || i in OnBoard(anns, ann.room) {
        LatestHere(anns, id, ann, i);
      } else if i in anns {
        LatestElsewhere(anns, id, ann, i);
      }
    }
  }

  lemma PostReplacesUnread(b: Board, actor: string, id: nat, room: nat, content: string, now: int, a: string)
    requires Sound(b) && id !in b.anns
    ensures Unread(Posted(b, actor, id, room, content, now), a)
         == (Unread(b, a) - UnreadIn(b, a, room)) + (if (a, room) in b.t.memberships then {id} else {})
  {
    var ann := Announcement(room, content, NextVersion(b.anns, room), actor, now);
    PostReplacesLatest(b.anns, id, ann);
    assert (id, a) !in b.acks;
  }

  /**
   A new post makes every current member unread for that room, whatever they had
   acknowledged: for a member it takes the place of the room's old latest, so the count
   rises by one unless that was unread; nobody else's count moves.
   */
  lemma PostMakesMembersUnread(b: Board, actor: string, id: nat, room: nat, content: string, now: int, a: string)
    requires Sound(b) && id !in b.anns
    ensures var b1 := Posted(b, actor, id, room, content, now);
            var member := (a, room) in b.t.memberships;
            && (member ==> UnreadIn(b1, a, room) == {id})
            && (!member ==> Unread(b1, a) == Unread(b, a))
            && CountUnread(b1, a) == CountUnread(b, a) + (if member && UnreadIn(b, a, room) == {} then 1 else 0)
  {
    var b1 := Posted(b, actor, id, room, content, now);
    PostReplacesUnread(b, actor, id, room, content, now, a);
    NonMembersSeeNothing(b, a, room);
    if (a, room) in b.t.memberships {
      OneUnreadPerRoom(b, a, room);
      NewIsNotUnread(b, a, id);
      Replace(Unread(b, a), UnreadIn(b, a, room), id);
      PostOnBoard(b, actor, id, room, content, now, a);
    } else {
      assert Unread(b1, a) == Unread(b, a);
    }
  }

  lemma NewIsNotUnread(b: Board, a: string, id: nat)
    requires id !in b.anns
    ensures id !in Unread(b, a)
  {
  }

  lemma NonMembersSeeNothing(b: Board, a: string, room: nat)
    ensures (a, room) !in b.t.memberships ==> UnreadIn(b, a, room) == {}
  {
  }

  lemma PostOnBoard(b: Board, actor: string, id: nat, room: nat, content: string, now: int, a: string)
    requires id !in b.anns
    requires Unread(Posted(b, actor, id, room, content, now), a) == (Unread(b, a) - UnreadIn(b, a, room)) + {id}
    ensures UnreadIn(Posted(b, actor, id, room, content, now), a, room) == {id}
  {
    assert OnBoard(Posted(b, actor, id, room, content, now).anns, room) == OnBoard(b.anns, room) + {id};
  }

  lemma Replace(all: set<nat>, former: set<nat>, id: nat)
    requires former <= all && id !in all && |former| <= 1
    ensures |(all - former) + {id}| == |all| + (if former == {} then 1 else 0)
  {
    assert all == (all - former) + former;
    assert former == {} <==> |former| == 0;
  }

  lemma OneUnreadPerRoom(b: Board, a: string, room: nat)
    requires Sound(b)
    ensures |UnreadIn(b, a, room)| <= 1
  {
    var here := UnreadIn(b, a, room);
    if here != {} {
      assert NumberedIn(b.anns, room);
      var i :| i in here;
      forall j | j in here ensures j == i {
        assert i in OnBoard(b.anns, room) && j in OnBoard(b.anns, room);
      }
      assert here == {i};
    }
  }

  // ---------------------------------------------------------------- what an acknowledgement takes away

  lemma AckRemoves(b: Board, actor: string, id: nat, now: int, a: string)
    requires id in b.anns
    ensures Unread(Acked(b, actor, id, now), a) == if a == actor then Unread(b, a) - {id} else Unread(b, a)
  {
    var b1 := Acked(b, actor, id, now);
    forall i ensures Open(b1, a, i) <==> Open(b, a, i) && !(a == actor && i == id) {
    }
  }

  lemma WithoutOne(all: set<nat>, id: nat)
    ensures |all - {id}| == |all| - if id in all then 1 else 0
  {
    if id in all {
      assert all == (all - {id}) + {id};
    } else {
      assert all - {id} == all;
    }
  }

  /**
   Acknowledging lowers the account's count by exactly one when the announcement is the
   room's latest, unacknowledged, and the account a member; a superseded or already
   acknowledged version leaves it unchanged, and so does every other account's count.
   */
  lemma AckLowersByOne(b: Board, actor: string, id: nat, now: int, a: string)
    requires id in b.anns
    ensures var b1 := Acked(b, actor, id, now);
            && Unread(b1, a) == (if a == actor then Unread(b, a) - {id} else Unread(b, a))
            && CountUnread(b1, a) == CountUnread(b, a) - (if a == actor && id in Unread(b, a) then 1 else 0)
    ensures id in Unread(b, actor)
            <==> id in LatestOnes(b.anns) && (actor, b.anns[id].room) in b.t.memberships && (id, actor) !in b.acks
  {
    AckRemoves(b, actor, id, now, a);
    WithoutOne(Unread(b, a), id);
  }
}
