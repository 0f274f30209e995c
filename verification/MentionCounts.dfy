/**
 The repository interface (internal/store/store.go) describes the mention count by
 content: unread messages of subscribed rooms holding the literal `<@id>`.  The query
 counts mention rows and @everyone instead.  Here is when the two counts agree.
 */
module MentionCounts {
  import opened Wrappers
  import opened Store
  import opened Mentions
  import opened Aggregates
  import C = Convergence

  // ---------------------------------------------------------------- the literal in a rewritten content

  function Tag(id: Text): Text {
    "<@" + id + ">"
  }

  predicate TagAt(s: Text, id: Text, i: int) {
    0 <= i <= |s| - |Tag(id)| && s[i..i + |Tag(id)|] == Tag(id)
  }

  ghost predicate HasTag(s: Text, id: Text) {
    exists i :: TagAt(s, id, i)
  }

  lemma TagIsSpan(s: Text, id: Text, i: nat)
    requires TagAt(s, id, i) && WordId(id)
    ensures IdSpan(s, i, i + 2, i + 2 + |id|) && s[i + 2..i + 2 + |id|] == id
  {
    var w := s[i..i + |Tag(id)|];
    assert forall k | 0 <= k < |w| :: w[k] == s[i + k];
    assert w[0] == '<' && w[1] == '@' && w[2 + |id|] == '>';
    assert forall k | 0 <= k < |id| :: w[2 + k] == id[k];
    forall k | i + 2 <= k < i + 2 + |id| ensures s[k] == id[k - i - 2] {
      assert w[k - i] == s[k];
    }
  }

  lemma TagBehind(a: Text, b: Text, id: Text)
    requires HasTag(b, id)
    ensures HasTag(a + b, id)
  {
    var i :| TagAt(b, id, i);
    assert (a + b)[|a| + i..|a| + i + |Tag(id)|] == b[i..i + |Tag(id)|];
    assert TagAt(a + b, id, |a| + i);
  }

  lemma TagInFront(id: Text, b: Text)
    ensures HasTag(Tag(id) + b, id)
  {
    assert (Tag(id) + b)[0..|Tag(id)|] == Tag(id);
    assert TagAt(Tag(id) + b, id, 0);
  }

  lemma {:induction false} ResolvedLeavesTag(members: seq<RoomMember>, ps: seq<Piece>, m: RoomMember)
    requires m in Resolved(members, ps)
    ensures HasTag(Rewrite(members, ps), m.botUserId)
  {
    if m in Resolved1(members, ps[0]) {
      TagInFront(m.botUserId, Rewrite(members, ps[1..]));
    } else {
      ResolvedLeavesTag(members, ps[1..], m);
      TagBehind(Render1(members, ps[0]), Rewrite(members, ps[1..]), m.botUserId);
    }
  }

  /** The rewritten form of an accepted content holds an id's literal exactly if a member with that id was resolved. */
  lemma TagIffResolved(raw: Text, members: seq<RoomMember>, id: Text)
    requires !HasRawMention(raw) && IdsAreWords(members, Pieces(raw)) && WordId(id)
    ensures HasTag(Rewrite(members, Pieces(raw)), id)
            <==> exists m :: m in Resolved(members, Pieces(raw)) && m.botUserId == id
  {
    var (ps, w) := (Pieces(raw), Rewrite(members, Pieces(raw)));
    if HasTag(w, id) {
      var i :| TagAt(w, id, i);
      TagIsSpan(w, id, i);
      var k := OnlyInsertedTokens(raw, members, i, i + 2, i + 2 + |id|);
      ResolvedMembers(members, ps, Target(members, ps[k].name).value);
      assert Mention(ps[k].name) in ps;
    }
    if m :| m in Resolved(members, ps) && m.botUserId == id {
      ResolvedLeavesTag(members, ps, m);
    }
  }

  // ---------------------------------------------------------------- the rows of a send

  /** The send carries what ParseMentions made of a content. */
  ghost predicate FromParse(s: C.Send, raw: Text, members: seq<RoomMember>) {
    && !HasRawMention(raw) && IdsAreWords(members, Pieces(raw))
    && s.content == Rewrite(members, Pieces(raw))
    && s.mentioned == FirstOccurrences(AccountIds(Resolved(members, Pieces(raw))))
  }

  /** Among the members mentioned, the account and the bot id name the same one. */
  ghost predicate Owns(raw: Text, members: seq<RoomMember>, a: string, id: Text) {
    forall m | m in Resolved(members, Pieces(raw)) :: m.accountId == a <==> m.botUserId == id
  }

  lemma NamedIffTagged(s: C.Send, raw: Text, members: seq<RoomMember>, a: string, id: Text)
    requires FromParse(s, raw, members) && Owns(raw, members, a, id) && WordId(id) && a != ""
    ensures a in Named(s.mentioned) <==> HasTag(s.content, id)
  {
    var rs := Resolved(members, Pieces(raw));
    TagIffResolved(raw, members, id);
    FirstOccurrencesCorrect(AccountIds(rs));
    AccountIdsOf(rs, a);
    assert a in Named(s.mentioned) <==> a in s.mentioned;
  }

  /** A sent message has a mention row for an account exactly if its stored content holds the account's literal. */
  lemma SentRowsFollowContent(t: Tables, s: C.Send, raw: Text, members: seq<RoomMember>, a: string, id: Text)
    requires Keyed(t) && s.discordId !in t.discordIndex && s.id !in t.messages
    requires FromParse(s, raw, members) && Owns(raw, members, a, id) && WordId(id) && a != ""
    ensures var t1 := C.Sent(t, s);
            s.id in t1.messages && ((s.id, a) in t1.mentions <==> HasTag(t1.messages[s.id].content, id))
  {
    NamedIffTagged(s, raw, members, a, id);
    assert (s.id, a) !in t.mentions;
    assert (s.id, a) in Cells(s.id, Named(s.mentioned)) <==> a in Named(s.mentioned);
  }

  // ---------------------------------------------------------------- the two counts

  /** What the interface describes. */
  ghost function TaggedSet(t: Tables, a: string, id: Text): set<nat> {
    set m | m in UnreadSet(t, a) && m in t.messages && HasTag(t.messages[m].content, id)
  }

  /** The unread messages have mention rows exactly where their contents have the literal. */
  ghost predicate RowsFollowContent(t: Tables, a: string, id: Text) {
    forall m | m in UnreadSet(t, a) :: m in t.messages && ((m, a) in t.mentions <==> HasTag(t.messages[m].content, id))
  }

  /** The pending messages that ping everyone. */
  function EveryoneSet(t: Tables, a: string): set<nat> {
    set m | m in t.messages && Pending(t, a, m) && t.messages[m].everyone
  }

  lemma SameSize(s: set<nat>, all: set<nat>)
    requires s <= all
    ensures |s| == |all| <==> s == all
  {
    assert all == s + (all - s);
  }

  /**
   Where the rows follow the contents, the counts agree exactly if every pending ping of
   everyone is in a subscribed room and names the account as well.
   */
  lemma MentionCountsAgreeIff(t: Tables, a: string, id: Text)
    requires RowsFollowContent(t, a, id)
    ensures CountMentions(t, a) == |TaggedSet(t, a, id)| <==> EveryoneSet(t, a) <= TaggedSet(t, a, id)
  {
    MentionRowsAreMessages(t, a);
    assert MentionSet(t, a) == TaggedSet(t, a, id) + EveryoneSet(t, a);
    SameSize(TaggedSet(t, a, id), MentionSet(t, a));
  }

  // ---------------------------------------------------------------- an instance

  /** One message that pings everyone, unread in a room that its member does not subscribe to. */
  function Unsubscribed(): Tables {
    Tables([Account("a", "u", false)], map[0 := Room("c", "r", false)], map["c" := 0],
           map[("a", 0) := Membership(false, 0)],
           map[0 := Message(0, None, "d", "hi", None, Normal, 1, Hash("hi"), true)], map["d" := 0],
           map[(0, "a") := None], {}, [], 0, [])
  }

  /** The query counts it; by content it would not be counted. */
  lemma EveryoneCountsUnsubscribed(id: Text)
    ensures CountMentions(Unsubscribed(), "a") == 1 && TaggedSet(Unsubscribed(), "a", id) == {}
  {
    var t := Unsubscribed();
    MentionRowsAreMessages(t, "a");
    assert UnreadSet(t, "a") == {};
    assert MentionSet(t, "a") == {0};
  }
}
