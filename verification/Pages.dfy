/**
 Message listings (internal/store/sqlite/message_repo.go): ORDER BY created_at DESC,
 id DESC with a LIMIT, the keyset cursor of List, and history paging.
 */
module Pages {
  import opened Wrappers
  import opened Lists
  import opened Store

  // ---------------------------------------------------------------- newest first

  /** (created_at, id) of `a` is greater than that of `b`. */
  predicate Newer(ms: map<nat, Message>, a: nat, b: nat)
    requires a in ms && b in ms
  {
    ms[a].createdAt > ms[b].createdAt || (ms[a].createdAt == ms[b].createdAt && a > b)
  }

  predicate IsLatest(ms: map<nat, Message>, ids: set<nat>, m: nat)
    requires ids <= ms.Keys
  {
    m in ids && forall o | o in ids && o != m :: Newer(ms, m, o)
  }

  lemma LatestExists(ms: map<nat, Message>, ids: set<nat>)
    requires ids <= ms.Keys && ids != {}
    ensures exists m :: IsLatest(ms, ids, m)
    decreases ids
  {
    var x :| x in ids;
    if ids - {x} == {} {
      assert ids == {x};
      assert IsLatest(ms, ids, x);
    } else {
      LatestExists(ms, ids - {x});
      var m :| IsLatest(ms, ids - {x}, m);
      if Newer(ms, x, m) {
        forall o | o in ids && o != x ensures Newer(ms, x, o) {
          assert o in ids - {x};
        }
        assert IsLatest(ms, ids, x);
      } else {
        forall o | o in ids && o != m ensures Newer(ms, m, o) {
          assert o == x || o in ids - {x};
        }
        assert IsLatest(ms, ids, m);
      }
    }
  }

  /** The row a query with LIMIT 1 returns. */
  function Latest(ms: map<nat, Message>, ids: set<nat>): (m: nat)
    requires ids <= ms.Keys && ids != {}
    ensures IsLatest(ms, ids, m)
  {
    LatestExists(ms, ids);
    var m :| m in ids && IsLatest(ms, ids, m);
    m
  }

  /** ORDER BY created_at DESC, id DESC LIMIT n */
  function Newest(ms: map<nat, Message>, ids: set<nat>, n: nat): seq<nat>
    requires ids <= ms.Keys
  {
    if n == 0 || ids == {} then []
    else
      var m := Latest(ms, ids);
      [m] + Newest(ms, ids - {m}, n - 1)
  }

  ghost predicate Descending(ms: map<nat, Message>, s: seq<nat>) {
    && Elems(s) <= ms.Keys
    && forall i, j | 0 <= i < j < |s| :: s[i] in ms && s[j] in ms && Newer(ms, s[i], s[j])
  }

  /** `s` holds the n newest of `ids`, newest first, and everything left out is older. */
  ghost predicate IsTop(ms: map<nat, Message>, ids: set<nat>, n: nat, s: seq<nat>)
    requires ids <= ms.Keys
  {
    && |s| == Min(n, |ids|)
    && Elems(s) <= ids
    && Descending(ms, s)
    && forall i, o | 0 <= i < |s| && o in ids && o !in s :: s[i] in ms && Newer(ms, s[i], o)
  }

  lemma ElemsCons(m: nat, s: seq<nat>)
    ensures Elems([m] + s) == {m} + Elems(s)
  {
  }

  lemma {:induction false} NewestElems(ms: map<nat, Message>, ids: set<nat>, n: nat)
    requires ids <= ms.Keys
    ensures Elems(Newest(ms, ids, n)) <= ids && |Newest(ms, ids, n)| == Min(n, |ids|)
    decreases n
  {
    if n > 0 && ids != {} {
      var m := Latest(ms, ids);
      NewestElems(ms, ids - {m}, n - 1);
      ElemsCons(m, Newest(ms, ids - {m}, n - 1));
    }
  }

  lemma DescendingCons(ms: map<nat, Message>, m: nat, s: seq<nat>)
    requires m in ms && Descending(ms, s) && forall o | o in s :: o in ms && Newer(ms, m, o)
    ensures Descending(ms, [m] + s)
  {
    var all := [m] + s;
    forall i, j | 0 <= i < j < |all| ensures all[i] in ms && all[j] in ms && Newer(ms, all[i], all[j]) {
      assert all[j] == s[j - 1];
      if i > 0 {
        assert all[i] == s[i - 1];
      }
    }
  }

  lemma {:induction false} NewestDescends(ms: map<nat, Message>, ids: set<nat>, n: nat)
    requires ids <= ms.Keys
    ensures Descending(ms, Newest(ms, ids, n))
    decreases n
  {
    if n > 0 && ids != {} {
      var m := Latest(ms, ids);
      var rest := Newest(ms, ids - {m}, n - 1);
      NewestDescends(ms, ids - {m}, n - 1);
      NewestElems(ms, ids - {m}, n - 1);
      forall o | o in rest ensures o in ms && Newer(ms, m, o) {
        assert o in Elems(rest);
      }
      DescendingCons(ms, m, rest);
    }
  }

  lemma {:induction false} OmittedOlder(ms: map<nat, Message>, ids: set<nat>, n: nat, x: nat, o: nat)
    requires ids <= ms.Keys && x in Newest(ms, ids, n) && o in ids && o !in Newest(ms, ids, n)
    ensures x in ms && Newer(ms, x, o)
    decreases n
  {
    var m := Latest(ms, ids);
    if x != m {
      OmittedOlder(ms, ids - {m}, n - 1, x, o);
    }
  }

  /** `o` stands below `x` in a listing: earlier, or at the same time with the smaller id. */
  ghost predicate BelowIn(ms: map<nat, Message>, x: nat, o: nat) {
    && x in ms && o in ms && ms[o].createdAt <= ms[x].createdAt
    && (ms[o].createdAt == ms[x].createdAt ==> o < x)
  }

  lemma NewestIsTop(ms: map<nat, Message>, ids: set<nat>, n: nat)
    requires ids <= ms.Keys
    ensures IsTop(ms, ids, n, Newest(ms, ids, n))
    ensures forall i, j | 0 <= i < j < |Newest(ms, ids, n)| :: BelowIn(ms, Newest(ms, ids, n)[i], Newest(ms, ids, n)[j])
    ensures forall x, o | x in Newest(ms, ids, n) && o in ids && o !in Newest(ms, ids, n) :: BelowIn(ms, x, o)
  {
    var s := Newest(ms, ids, n);
    NewestElems(ms, ids, n);
    NewestDescends(ms, ids, n);
    forall i, o | 0 <= i < |s| && o in ids && o !in s ensures s[i] in ms && Newer(ms, s[i], o) {
      OmittedOlder(ms, ids, n, s[i], o);
    }
  }

  lemma NewestCons(ms: map<nat, Message>, ids: set<nat>, n: nat)
    requires ids <= ms.Keys && ids != {} && n > 0
    ensures Newest(ms, ids, n) == [Latest(ms, ids)] + Newest(ms, ids - {Latest(ms, ids)}, n - 1)
  {
  }

  /** The first n+k rows are the first n, then the first k of what is left. */
  lemma {:induction false} NewestSplit(ms: map<nat, Message>, ids: set<nat>, n: nat, k: nat)
    requires ids <= ms.Keys
    ensures Newest(ms, ids, n + k) == Newest(ms, ids, n) + Newest(ms, ids - Elems(Newest(ms, ids, n)), k)
    decreases n
  {
    if n == 0 {
      assert ids - Elems([]) == ids;
    } else if ids != {} {
      var m := Latest(ms, ids);
      var rest := Newest(ms, ids - {m}, n - 1);
      NewestSplit(ms, ids - {m}, n - 1, k);
      SplitCons(ms, ids, n, k, m, rest, Newest(ms, (ids - {m}) - Elems(rest), k));
    }
  }

  lemma SplitCons(ms: map<nat, Message>, ids: set<nat>, n: nat, k: nat, m: nat, rest: seq<nat>, tail: seq<nat>)
    requires ids <= ms.Keys && ids != {} && n > 0 && m == Latest(ms, ids)
    requires rest == Newest(ms, ids - {m}, n - 1) && tail == Newest(ms, (ids - {m}) - Elems(rest), k)
    requires Newest(ms, ids - {m}, n - 1 + k) == rest + tail
    ensures Newest(ms, ids, n + k) == Newest(ms, ids, n) + Newest(ms, ids - Elems(Newest(ms, ids, n)), k)
  {
    NewestCons(ms, ids, n);
    NewestCons(ms, ids, n + k);
    assert ids - Elems([m] + rest) == (ids - {m}) - Elems(rest);
    assert [m] + (rest + tail) == ([m] + rest) + tail;
  }

  // ---------------------------------------------------------------- List

  function InRoom(t: Tables, room: nat): set<nat> {
    set m | m in t.messages && t.messages[m].room == room
  }

  /** The rows the cursor admits; an unknown cursor compares with NULL and admits none. */
  function Older(t: Tables, room: nat, before: Option<nat>): (ids: set<nat>)
    ensures ids <= t.messages.Keys
  {
    if before.None? then InRoom(t, room)
    else if before.value !in t.messages then {}
    else set m | m in InRoom(t, room) && Newer(t.messages, before.value, m)
  }

  function EffectiveLimit(limit: int): (n: nat) {
    if limit <= 0 || limit > 200 then 50 else limit
  }

  function List(t: Tables, room: nat, before: Option<nat>, limit: int): seq<nat> {
    Newest(t.messages, Older(t, room, before), EffectiveLimit(limit))
  }

  /** What ReadRoom makes of the requested limit: 0 is a default, 200 a ceiling. */
  function Clamp(limit: nat, paging: bool): nat {
    var n := if limit == 0 then (if paging then 50 else 10) else limit;
    if n > 200 then 200 else n
  }

  /** The clamp never triggers List's own fallback, so a page holds exactly the rows asked for. */
  lemma ClampIsEffective(t: Tables, room: nat, before: Option<nat>, limit: nat, paging: bool)
    ensures EffectiveLimit(Clamp(limit, paging)) == Clamp(limit, paging) && 1 <= Clamp(limit, paging) <= 200
    ensures |List(t, room, before, Clamp(limit, paging))| == Min(Clamp(limit, paging), |Older(t, room, before)|)
  {
    NewestIsTop(t.messages, Older(t, room, before), Clamp(limit, paging));
  }

  // ---------------------------------------------------------------- paging back through a room

  lemma CursorAt(t: Tables, room: nat, before: Option<nat>, n: nat, m: nat)
    requires Newest(t.messages, Older(t, room, before), n) != []
    ensures var page := Newest(t.messages, Older(t, room, before), n);
            m in Older(t, room, Some(page[|page| - 1])) <==> m in Older(t, room, before) && m !in page
  {
    var ids := Older(t, room, before);
    var page := Newest(t.messages, ids, n);
    var last := page[|page| - 1];
    NewestElems(t.messages, ids, n);
    NewestDescends(t.messages, ids, n);
    assert last in Elems(page);
    if m in page {
      var i :| 0 <= i < |page| && page[i] == m;
      assert i == |page| - 1 || Newer(t.messages, page[i], page[|page| - 1]);
    } else if m in ids {
      OmittedOlder(t.messages, ids, n, last, m);
    }
  }

  /** What is older than the last row of a page is what the page left out. */
  lemma CursorAdvances(t: Tables, room: nat, before: Option<nat>, n: nat)
    requires Newest(t.messages, Older(t, room, before), n) != []
    ensures var page := Newest(t.messages, Older(t, room, before), n);
            Older(t, room, Some(page[|page| - 1])) == Older(t, room, before) - Elems(page)
  {
    var page := Newest(t.messages, Older(t, room, before), n);
    forall m ensures m in Older(t, room, Some(page[|page| - 1])) <==> m in Older(t, room, before) - Elems(page) {
      CursorAt(t, room, before, n, m);
    }
  }

  /** A client's loop in before mode: ask again from the last id while pages come back full. */
  ghost function Paging(t: Tables, room: nat, before: Option<nat>, limit: int): seq<seq<nat>>
    decreases |Older(t, room, before)|
  {
    var page := List(t, room, before, limit);
    NewestElems(t.messages, Older(t, room, before), EffectiveLimit(limit));
    if |page| < EffectiveLimit(limit) then [page]
    else
      Shrinks(t, room, before, limit);
      [page] + Paging(t, room, Some(page[|page| - 1]), limit)
  }

  lemma Shrinks(t: Tables, room: nat, before: Option<nat>, limit: int)
    requires |List(t, room, before, limit)| == EffectiveLimit(limit)
    ensures var page := List(t, room, before, limit);
            page != [] && |Older(t, room, Some(page[|page| - 1]))| < |Older(t, room, before)|
  {
    var ids := Older(t, room, before);
    var page := List(t, room, before, limit);
    NewestIsTop(t.messages, ids, EffectiveLimit(limit));
    CursorAdvances(t, room, before, EffectiveLimit(limit));
    assert page[0] in Elems(page);
    StrictSubset(ids - Elems(page), ids, page[0]);
  }

  lemma StrictSubset(a: set<nat>, b: set<nat>, x: nat)
    requires a <= b && x in b && x !in a
    ensures |a| < |b|
  {
    var c := b - {x};
    assert b == c + {x};
    Subset(a, c);
  }

  lemma Subset(a: set<nat>, c: set<nat>)
    requires a <= c
    ensures |a| <= |c|
  {
    assert c == a + (c - a);
  }

  function Concat(pages: seq<seq<nat>>): seq<nat> {
    if pages == [] then [] else pages[0] + Concat(pages[1..])
  }

  /** The whole of `ids`, newest first, each once. */
  ghost predicate Enumerates(ms: map<nat, Message>, ids: set<nat>, all: seq<nat>)
    requires ids <= ms.Keys
  {
    all == Newest(ms, ids, |ids|) && Descending(ms, all) && Elems(all) == ids && |all| == |ids|
  }

  lemma WholeEnumerates(ms: map<nat, Message>, ids: set<nat>)
    requires ids <= ms.Keys
    ensures Enumerates(ms, ids, Newest(ms, ids, |ids|))
  {
    AllListed(ms, ids);
    NewestElems(ms, ids, |ids|);
    NewestDescends(ms, ids, |ids|);
  }

  lemma LastPage(ms: map<nat, Message>, ids: set<nat>, n: nat)
    requires ids <= ms.Keys && |ids| <= n
    ensures Newest(ms, ids, n) == Newest(ms, ids, |ids|)
  {
    AllListed(ms, ids);
    NewestSplit(ms, ids, |ids|, n - |ids|);
    assert ids - ids == {};
    assert Newest(ms, {}, n - |ids|) == [];
  }

  lemma JoinPages(ms: map<nat, Message>, ids: set<nat>, n: nat, left: set<nat>)
    requires ids <= ms.Keys && left == ids - Elems(Newest(ms, ids, n))
    ensures Newest(ms, ids, n) + Newest(ms, left, |left|) == Newest(ms, ids, n + |left|)
  {
    NewestSplit(ms, ids, n, |left|);
  }

  lemma PageSize(ms: map<nat, Message>, ids: set<nat>, n: nat)
    requires ids <= ms.Keys && n <= |ids|
    ensures n + |ids - Elems(Newest(ms, ids, n))| == |ids|
  {
    NewestElems(ms, ids, n);
    NewestDescends(ms, ids, n);
    DistinctSize(ms, Newest(ms, ids, n));
    SizeAfter(ids, Newest(ms, ids, n));
  }

  lemma FullPage(ms: map<nat, Message>, ids: set<nat>, n: nat, left: set<nat>)
    requires ids <= ms.Keys && n <= |ids| && left == ids - Elems(Newest(ms, ids, n))
    ensures Newest(ms, ids, n) + Newest(ms, left, |left|) == Newest(ms, ids, |ids|)
  {
    PageSize(ms, ids, n);
    JoinPages(ms, ids, n, left);
  }

  lemma PagesShort(t: Tables, room: nat, before: Option<nat>, limit: int)
    requires |List(t, room, before, limit)| < EffectiveLimit(limit)
    ensures Concat(Paging(t, room, before, limit)) == List(t, room, before, limit)
  {
    var page := List(t, room, before, limit);
    assert Paging(t, room, before, limit) == [page];
    assert Concat([page]) == page + Concat([]);
  }

  lemma PagesFull(t: Tables, room: nat, before: Option<nat>, limit: int)
    requires |List(t, room, before, limit)| == EffectiveLimit(limit)
    ensures var page := List(t, room, before, limit);
            && page != []
            && Concat(Paging(t, room, before, limit)) == page + Concat(Paging(t, room, Some(page[|page| - 1]), limit))
  {
    var page := List(t, room, before, limit);
    var rest := Paging(t, room, Some(page[|page| - 1]), limit);
    assert Paging(t, room, before, limit) == [page] + rest;
    assert ([page] + rest)[1..] == rest;
  }

  /** The pages together are the whole listing; the loop ends because each full page leaves less. */
  lemma {:induction false} PagesJoin(t: Tables, room: nat, before: Option<nat>, limit: int)
    ensures Concat(Paging(t, room, before, limit))
            == Newest(t.messages, Older(t, room, before), |Older(t, room, before)|)
    decreases |Older(t, room, before)|
  {
    var n := EffectiveLimit(limit);
    var page := List(t, room, before, limit);
    NewestElems(t.messages, Older(t, room, before), n);
    if |page| < n {
      LastPage(t.messages, Older(t, room, before), n);
      PagesShort(t, room, before, limit);
    } else {
      var next := Some(page[|page| - 1]);
      PagesFull(t, room, before, limit);
      Shrinks(t, room, before, limit);
      PagesJoin(t, room, next, limit);
      CursorAdvances(t, room, before, n);
      FullPage(t.messages, Older(t, room, before), n, Older(t, room, next));
    }
  }

  /**
   Keyset paging is exact: the pages, one after the other, are the older messages of
   the room, each once, in descending (created_at, id) order.
   */
  lemma PagingIsExact(t: Tables, room: nat, before: Option<nat>, limit: int)
    ensures Enumerates(t.messages, Older(t, room, before), Concat(Paging(t, room, before, limit)))
  {
    PagesJoin(t, room, before, limit);
    WholeEnumerates(t.messages, Older(t, room, before));
  }

  lemma AllListed(ms: map<nat, Message>, ids: set<nat>)
    requires ids <= ms.Keys
    ensures Elems(Newest(ms, ids, |ids|)) == ids
  {
    NewestIsTop(ms, ids, |ids|);
    var s := Newest(ms, ids, |ids|);
    DistinctSize(ms, s);
    if Elems(s) != ids {
      var x :| x in ids && x !in Elems(s);
      StrictSubset(Elems(s), ids, x);
    }
  }

  /** A descending list has no repetition. */
  lemma {:induction false} DistinctSize(ms: map<nat, Message>, s: seq<nat>)
    requires Descending(ms, s)
    ensures |Elems(s)| == |s|
  {
    if s != [] {
      var n := |s| - 1;
      assert s == s[..n] + [s[n]];
      assert Elems(s) == Elems(s[..n]) + {s[n]};
      DistinctSize(ms, s[..n]);
      assert s[n] !in s[..n];
    }
  }

  lemma SizeAfter(ids: set<nat>, page: seq<nat>)
    requires Elems(page) <= ids && |Elems(page)| == |page|
    ensures |ids - Elems(page)| == |ids| - |page|
  {
    assert ids == Elems(page) + (ids - Elems(page));
  }

  /** A page shorter than its limit means nothing older remains, so a false `more` can be trusted. */
  lemma ShortPageIsLast(t: Tables, room: nat, before: Option<nat>, limit: nat)
    requires |List(t, room, before, Clamp(limit, true))| < Clamp(limit, true)
    ensures var page := List(t, room, before, Clamp(limit, true));
            if page == [] then Older(t, room, before) == {} else Older(t, room, Some(page[|page| - 1])) == {}
  {
    var ids := Older(t, room, before);
    var n := Clamp(limit, true);
    var page := List(t, room, before, n);
    NewestIsTop(t.messages, ids, n);
    assert |page| == |ids|;
    DistinctSize(t.messages, page);
    SizeAfter(ids, page);
    if page != [] {
      CursorAdvances(t, room, before, n);
    }
  }
}
