/** Whose snapshot two states of the tables tell apart (internal/state/aggregator.go). */
module SnapshotChanges {
  import opened Store
  import A = Aggregates

  /** A count of the account differs, or it has a state or mention row that was not there. */
  ghost predicate Affected(t: Tables, t1: Tables, a: string) {
    || A.CountUnread(t1, a) != A.CountUnread(t, a)
    || A.CountMentions(t1, a) != A.CountMentions(t, a)
    || A.CountPriority(t1, a) != A.CountPriority(t, a)
    || (exists m :: (m, a) in t1.states && (m, a) !in t.states)
    || (exists m :: (m, a) in t1.mentions && (m, a) !in t.mentions)
  }

  lemma SameSetsUnaffected(t: Tables, t1: Tables, a: string)
    requires A.UnreadSet(t1, a) == A.UnreadSet(t, a) && A.MentionSet(t1, a) == A.MentionSet(t, a)
    requires A.PrioritySet(t1, a) == A.PrioritySet(t, a)
    requires forall m :: (m, a) in t1.states ==> (m, a) in t.states
    requires forall m :: (m, a) in t1.mentions ==> (m, a) in t.mentions
    ensures !Affected(t, t1, a)
  {
    A.UnreadRowsAreMessages(t, a);
    A.UnreadRowsAreMessages(t1, a);
    A.MentionRowsAreMessages(t, a);
    A.MentionRowsAreMessages(t1, a);
    A.PriorityRowsAreMessages(t, a);
    A.PriorityRowsAreMessages(t1, a);
  }

  /** The account's rows are the same, and so is every message, except perhaps one in a room it is no member of. */
  ghost predicate SameFor(t: Tables, t1: Tables, a: string, mid: nat) {
    && t1.memberships == t.memberships && t1.rooms == t.rooms
    && (forall m | m != mid :: m in t1.messages <==> m in t.messages)
    && (forall m | m != mid && m in t.messages :: t1.messages[m] == t.messages[m])
    && (forall m :: (m, a) in t1.states <==> (m, a) in t.states)
    && (forall m | (m, a) in t.states :: t1.states[(m, a)] == t.states[(m, a)])
    && (forall m :: (m, a) in t1.mentions <==> (m, a) in t.mentions)
    && (mid in t.messages ==> (a, t.messages[mid].room) !in t.memberships)
    && (mid in t1.messages ==> (a, t1.messages[mid].room) !in t.memberships)
  }

  lemma SameForUnaffected(t: Tables, t1: Tables, a: string, mid: nat)
    requires SameFor(t, t1, a, mid)
    ensures !Affected(t, t1, a)
  {
    forall m ensures A.Pending(t1, a, m) <==> A.Pending(t, a, m) {
    }
    SameSetsUnaffected(t, t1, a);
  }

  lemma SameTablesUnaffected(t: Tables, t1: Tables, a: string)
    requires t1.messages == t.messages && t1.states == t.states && t1.mentions == t.mentions
    requires t1.memberships == t.memberships && t1.rooms == t.rooms
    ensures !Affected(t, t1, a)
  {
    SameSetsUnaffected(t, t1, a);
  }
}
