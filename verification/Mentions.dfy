/**
 The outbound mention rewriter (internal/bot/mentions.go) and the inbound
 renderer (renderDisplayContent in internal/api/v1/messages.go).

 Both regular expressions are modelled twice: as a left-to-right scanner, which
 is what the program runs, and as a statement about positions, which is what the
 pattern means.  The lemmas connect the two and show that rendering undoes
 rewriting.
 */
module Mentions {
  import opened Wrappers

  type Text = seq<char>

  // [a-zA-Z0-9._-]
  predicate NameChar(c: char) {
    WordChar(c) || c == '.'
  }

  // [\w-]
  predicate WordChar(c: char) {
    'a' <= c <= 'z' || 'A' <= c <= 'Z' || '0' <= c <= '9' || c == '_' || c == '-'
  }

  // \s
  predicate IsSpace(c: char) {
    c == ' ' || c == '\t' || c == '\n' || c == '\r' || c == '\U{000C}'
  }

  datatype RoomMember = RoomMember(accountId: string, name: Text, botUserId: Text)

  datatype Parsed = Parsed(
    rewritten: Text,
    botUserIds: seq<Text>,
    everyone: bool,
    mentionedAccountIds: seq<string>)

  datatype MentionError = RawMention

  // ---------------------------------------------------------------- raw mentions

  /** The pattern `<[@#][!&]?[^>\s]+>` matches s[i..j+1]; `body` is where the
      character class starts, after the optional sigil. */
  predicate RawMentionSpan(s: Text, i: nat, body: nat, j: nat) {
    && i + 2 <= body < j < |s|
    && s[i] == '<' && (s[i + 1] == '@' || s[i + 1] == '#')
    && (body == i + 2 || (body == i + 3 && (s[i + 2] == '!' || s[i + 2] == '&')))
    && (forall k | body <= k < j :: s[k] != '>' && !IsSpace(s[k]))
    && s[j] == '>'
  }

  predicate HasRawMention(s: Text) {
    exists i, body, j | 0 <= i < |s| && 0 <= body < |s| && 0 <= j < |s| :: RawMentionSpan(s, i, body, j)
  }

  lemma RawMentionInSuffix(s: Text, k: nat)
    requires k <= |s| && HasRawMention(s[k..])
    ensures HasRawMention(s)
  {
    var i, body, j :| 0 <= i < |s[k..]| && 0 <= body < |s[k..]| && 0 <= j < |s[k..]|
        && RawMentionSpan(s[k..], i, body, j);
    forall m | k + body <= m < k + j
      ensures s[m] != '>' && !IsSpace(s[m])
    {
      assert s[k..][m - k] == s[m];
    }
    assert RawMentionSpan(s, k + i, k + body, k + j);
  }

  // ---------------------------------------------------------------- name tokens

  /** A scanned content: single characters, and `@name` tokens (nameMentionRe). */
  datatype Piece = Plain(c: char) | Mention(name: Text)

  function NameRun(s: Text): (n: nat)
    ensures n <= |s|
  {
    if s == [] || !NameChar(s[0]) then 0 else 1 + NameRun(s[1..])
  }

  lemma {:induction false} NameRunIsMaximal(s: Text)
    ensures forall k | 0 <= k < NameRun(s) :: NameChar(s[k])
    ensures NameRun(s) < |s| ==> !NameChar(s[NameRun(s)])
  {
    if s != [] && NameChar(s[0]) {
      NameRunIsMaximal(s[1..]);
      assert forall k | 1 <= k < |s| :: s[k] == s[1..][k - 1];
    }
  }

  /** How much of a non-empty text its first piece takes. */
  function FirstLength(s: Text): (n: nat)
    requires s != []
    ensures 1 <= n <= |s|
  {
    if s[0] == '@' then 1 + NameRun(s[1..]) else 1
  }

  function FirstPiece(s: Text): Piece
    requires s != []
  {
    if FirstLength(s) > 1 then Mention(s[1..FirstLength(s)]) else Plain(s[0])
  }

  /** Leftmost, longest matches of nameMentionRe. */
  function Pieces(s: Text): (ps: seq<Piece>)
    decreases |s|
  {
    if s == [] then [] else [FirstPiece(s)] + Pieces(s[FirstLength(s)..])
  }

  /** A maximal name token: `@`, then a non-empty run of name characters that
      cannot be extended to the right. */
  ghost predicate TokenAt(s: Text, i: nat, name: Text) {
    && name != []
    && i + 1 + |name| <= |s|
    && s[i] == '@'
    && (forall m | i < m <= i + |name| :: s[m] == name[m - i - 1] && NameChar(s[m]))
    && (i + 1 + |name| < |s| ==> !NameChar(s[i + 1 + |name|]))
  }

  ghost predicate IsToken(s: Text, name: Text) {
    exists i: nat :: TokenAt(s, i, name)
  }

  lemma TokenShift(s: Text, k: nat, i: nat, name: Text)
    requires k <= |s|
    ensures TokenAt(s[k..], i, name) <==> TokenAt(s, k + i, name)
  {
    var u := s[k..];
    assert forall m | k <= m < |s| :: s[m] == u[m - k];
  }

  /** The token that starts where the text starts. */
  lemma TokenAtStart(s: Text, name: Text)
    requires s != []
    ensures TokenAt(s, 0, name) <==> FirstPiece(s) == Mention(name)
  {
    var u := s[1..];
    NameRunIsMaximal(u);
    assert forall m | 0 <= m < |u| :: u[m] == s[1 + m];
    assert forall m | 1 <= m < |s| :: s[m] == u[m - 1];
    if TokenAt(s, 0, name) {
      assert NameRun(u) == |name|;
      assert name == s[1..1 + |name|];
    }
  }

  /** No token starts inside the first piece. */
  lemma NoTokenInside(s: Text, i: nat, name: Text)
    requires s != [] && 0 < i < FirstLength(s)
    ensures !TokenAt(s, i, name)
  {
    NameRunIsMaximal(s[1..]);
    assert s[i] == s[1..][i - 1];
  }

  /** A token starts where the text starts, or lies behind the first piece. */
  lemma TokenSplit(s: Text, name: Text)
    requires s != []
    ensures IsToken(s, name) <==> FirstPiece(s) == Mention(name) || IsToken(s[FirstLength(s)..], name)
  {
    var k := FirstLength(s);
    TokenAtStart(s, name);
    if IsToken(s[k..], name) {
      var i: nat :| TokenAt(s[k..], i, name);
      TokenShift(s, k, i, name);
    }
    if IsToken(s, name) {
      var i: nat :| TokenAt(s, i, name);
      if 0 < i < k {
        NoTokenInside(s, i, name);
      } else if k <= i {
        TokenShift(s, k, i - k, name);
      }
    }
  }

  /** Scanning finds exactly the maximal tokens. */
  lemma {:induction false} ScanFindsMaximalTokens(s: Text, name: Text)
    ensures Mention(name) in Pieces(s) <==> IsToken(s, name)
    decreases |s|
  {
    if s != [] {
      ScanFindsMaximalTokens(s[FirstLength(s)..], name);
      TokenSplit(s, name);
    }
  }

  // ---------------------------------------------------------------- resolution

  /** The member a token resolves to: the map built in ParseMentions keeps the
      last member of each non-empty name, `everyone` and `here` are never
      resolved, and neither is a member whose bot was never captured. */
  function LastNamed(members: seq<RoomMember>, name: Text): (r: Option<RoomMember>)
    ensures r.Some? ==> r.value in members && r.value.name == name
    ensures r.None? ==> forall m | m in members :: m.name != name
  {
    if members == [] then None
    else if members[|members| - 1].name == name then Some(members[|members| - 1])
    else LastNamed(members[..|members| - 1], name)
  }

  function Target(members: seq<RoomMember>, name: Text): (r: Option<RoomMember>)
    ensures r.Some? ==> r.value.name == name && r.value.botUserId != [] && r.value in members
  {
    if name == "everyone" || name == "here" then None
    else match LastNamed(members, name)
         case None => None
         case Some(m) => if m.botUserId == [] then None else Some(m)
  }

  /** The i-th member is the last of its name, can be resolved and has a captured bot. */
  ghost predicate ReachedBy(members: seq<RoomMember>, i: int, name: Text) {
    && 0 <= i < |members| && members[i].name == name && members[i].botUserId != []
    && name != "everyone" && name != "here"
    && forall j | i < j < |members| :: members[j].name != name
  }

  lemma {:induction false} LastNamedIs(members: seq<RoomMember>, i: nat, name: Text)
    requires i < |members| && members[i].name == name && forall j | i < j < |members| :: members[j].name != name
    ensures LastNamed(members, name) == Some(members[i])
  {
    if i < |members| - 1 {
      LastNamedIs(members[..|members| - 1], i, name);
    }
  }

  lemma {:induction false} LastOfName(members: seq<RoomMember>, name: Text) returns (i: nat)
    requires LastNamed(members, name).Some?
    ensures i < |members| && LastNamed(members, name) == Some(members[i])
    ensures members[i].name == name && forall j | i < j < |members| :: members[j].name != name
  {
    i := |members| - 1;
    if members[i].name != name {
      i := LastOfName(members[..i], name);
    }
  }

  /** Whom a name reaches: the last member of that name, `everyone` and `here` nobody. */
  lemma TargetIff(members: seq<RoomMember>, name: Text, m: RoomMember)
    ensures Target(members, name) == Some(m) <==> exists i :: ReachedBy(members, i, name) && members[i] == m
  {
    if Target(members, name) == Some(m) {
      var i := LastOfName(members, name);
      assert ReachedBy(members, i, name);
    }
    if i :| ReachedBy(members, i, name) && members[i] == m {
      LastNamedIs(members, i, name);
    }
  }

  function Render1(members: seq<RoomMember>, p: Piece): Text {
    match p
    case Plain(c) => [c]
    case Mention(name) =>
      match Target(members, name)
      case None => "@" + name
      case Some(m) => "<@" + m.botUserId + ">"
  }

  function Rewrite(members: seq<RoomMember>, ps: seq<Piece>): Text {
    if ps == [] then [] else Render1(members, ps[0]) + Rewrite(members, ps[1..])
  }

  function Resolved1(members: seq<RoomMember>, p: Piece): seq<RoomMember> {
    match p
    case Plain(_) => []
    case Mention(name) =>
      match Target(members, name)
      case None => []
      case Some(m) => [m]
  }

  /** The members mentioned, one entry per rewritten token, in text order. */
  function Resolved(members: seq<RoomMember>, ps: seq<Piece>): (rs: seq<RoomMember>) {
    if ps == [] then [] else Resolved1(members, ps[0]) + Resolved(members, ps[1..])
  }

  function BotIds(ms: seq<RoomMember>): seq<Text> {
    seq(|ms|, i requires 0 <= i < |ms| => ms[i].botUserId)
  }

  function AccountIds(ms: seq<RoomMember>): seq<string> {
    seq(|ms|, i requires 0 <= i < |ms| => ms[i].accountId)
  }

  /** Keeps the first occurrence of every element. */
  function FirstOccurrences<T(==)>(xs: seq<T>): seq<T> {
    if xs == [] then []
    else
      var before := FirstOccurrences(xs[..|xs| - 1]);
      if xs[|xs| - 1] in before then before else before + [xs[|xs| - 1]]
  }

  ghost predicate FirstAt<T>(xs: seq<T>, x: T, i: nat) {
    i < |xs| && xs[i] == x && forall k | 0 <= k < i :: xs[k] != x
  }

  /** The deduplicated list has no repeats, has exactly the elements of the input
      and keeps them in the order in which they first occur. */
  lemma {:induction false} FirstOccurrencesCorrect<T>(xs: seq<T>)
    ensures forall i, j | 0 <= i < j < |FirstOccurrences(xs)| :: FirstOccurrences(xs)[i] != FirstOccurrences(xs)[j]
    ensures forall x :: x in FirstOccurrences(xs) <==> x in xs
    ensures forall i, j, fi: nat, fj: nat | 0 <= i < j < |FirstOccurrences(xs)|
              && FirstAt(xs, FirstOccurrences(xs)[i], fi) && FirstAt(xs, FirstOccurrences(xs)[j], fj) :: fi < fj
  {
    if xs != [] {
      var init := xs[..|xs| - 1];
      FirstOccurrencesCorrect(init);
      var before, out := FirstOccurrences(init), FirstOccurrences(xs);
      assert xs == init + [xs[|xs| - 1]];
      forall i, j, fi: nat, fj: nat | 0 <= i < j < |out| && FirstAt(xs, out[i], fi) && FirstAt(xs, out[j], fj)
        ensures fi < fj
      {
        assert out[i] in init;
        assert FirstAt(init, out[i], fi);
        if j < |before| {
          assert out[j] in init;
          assert FirstAt(init, out[j], fj);
        } else {
          assert xs[fj] !in init;
        }
      }
    }
  }

  // ---------------------------------------------------------------- ParseMentions

  lemma Associative<T>(a: seq<T>, b: seq<T>, c: seq<T>)
    ensures (a + b) + c == a + (b + c)
  {
  }

  lemma {:induction false} RewriteAppend(members: seq<RoomMember>, ps: seq<Piece>, p: Piece)
    ensures Rewrite(members, ps + [p]) == Rewrite(members, ps) + Render1(members, p)
  {
    if ps == [] {
      assert ps + [p] == [p];
      assert Rewrite(members, [p]) == Render1(members, p) + Rewrite(members, []);
    } else {
      var head, rest := Render1(members, ps[0]), Rewrite(members, ps[1..]);
      RewriteAppend(members, ps[1..], p);
      assert (ps + [p])[1..] == ps[1..] + [p];
      Associative(head, rest, Render1(members, p));
    }
  }

  lemma {:induction false} ResolvedAppend(members: seq<RoomMember>, ps: seq<Piece>, p: Piece)
    ensures Resolved(members, ps + [p]) == Resolved(members, ps) + Resolved1(members, p)
  {
    if ps == [] {
      assert ps + [p] == [p];
      assert Resolved(members, [p]) == Resolved1(members, p) + Resolved(members, []);
    } else {
      var head, rest := Resolved1(members, ps[0]), Resolved(members, ps[1..]);
      ResolvedAppend(members, ps[1..], p);
      assert (ps + [p])[1..] == ps[1..] + [p];
      Associative(head, rest, Resolved1(members, p));
    }
  }

  lemma FirstOccurrencesAppend<T>(xs: seq<T>, x: T)
    ensures FirstOccurrences(xs + [x]) ==
            if x in FirstOccurrences(xs) then FirstOccurrences(xs) else FirstOccurrences(xs) + [x]
  {
    assert (xs + [x])[..|xs|] == xs;
  }

  ghost predicate IndexedBy(byName: map<Text, RoomMember>, members: seq<RoomMember>) {
    && [] !in byName
    && (forall n | n != [] :: n in byName <==> LastNamed(members, n).Some?)
    && (forall n | n in byName :: LastNamed(members, n) == Some(byName[n]))
  }

  method BuildByName(members: seq<RoomMember>) returns (byName: map<Text, RoomMember>)
    ensures IndexedBy(byName, members)
  {
    byName := map[];
    for i := 0 to |members|
      invariant IndexedBy(byName, members[..i])
    {
      assert members[..i + 1][..i] == members[..i];
      if members[i].name != [] {
        byName := byName[members[i].name := members[i]];
      }
    }
    assert members[..|members|] == members;
  }

  /** The replace callback on one piece: what it returns, and whom it resolved. */
  method Substitute(p: Piece, byName: map<Text, RoomMember>, ghost members: seq<RoomMember>)
    returns (step: Text, found: Option<RoomMember>)
    requires IndexedBy(byName, members)
    requires p != Mention([])
    ensures step == Render1(members, p)
    ensures Resolved1(members, p) == if found.Some? then [found.value] else []
  {
    if p.Plain? {
      return [p.c], None;
    }
    step, found := "@" + p.name, None;
    if p.name != "everyone" && p.name != "here" && p.name in byName && byName[p.name].botUserId != [] {
      found := Some(byName[p.name]);
      step := "<@" + byName[p.name].botUserId + ">";
    }
  }

  /** The lists after one more piece. */
  lemma ListsAppend(rs: seq<RoomMember>, m: RoomMember)
    ensures FirstOccurrences(BotIds(rs + [m])) ==
            if m.botUserId in FirstOccurrences(BotIds(rs)) then FirstOccurrences(BotIds(rs))
            else FirstOccurrences(BotIds(rs)) + [m.botUserId]
    ensures FirstOccurrences(AccountIds(rs + [m])) ==
            if m.accountId in FirstOccurrences(AccountIds(rs)) then FirstOccurrences(AccountIds(rs))
            else FirstOccurrences(AccountIds(rs)) + [m.accountId]
  {
    FirstOccurrencesAppend(BotIds(rs), m.botUserId);
    FirstOccurrencesAppend(AccountIds(rs), m.accountId);
    assert BotIds(rs + [m]) == BotIds(rs) + [m.botUserId];
    assert AccountIds(rs + [m]) == AccountIds(rs) + [m.accountId];
  }

  lemma PieceScanned(members: seq<RoomMember>, ps: seq<Piece>, p: Piece, rest: Text)
    requires rest != [] && p == FirstPiece(rest)
    ensures ps + Pieces(rest) == (ps + [p]) + Pieces(rest[FirstLength(rest)..])
    ensures Rewrite(members, ps + [p]) == Rewrite(members, ps) + Render1(members, p)
    ensures Resolved1(members, p) == [] ==> Resolved(members, ps + [p]) == Resolved(members, ps)
    ensures Resolved1(members, p) != [] ==> Resolved(members, ps + [p]) == Resolved(members, ps) + Resolved1(members, p)
  {
    RewriteAppend(members, ps, p);
    ResolvedAppend(members, ps, p);
    Associative(ps, [p], Pieces(rest[FirstLength(rest)..]));
  }

  method ParseMentions(content: Text, members: seq<RoomMember>) returns (r: Result<Parsed, MentionError>)
    ensures r.Err? <==> HasRawMention(content)
    ensures r.Ok? ==>
              var ps := Pieces(content);
              && r.value.rewritten == Rewrite(members, ps)
              && r.value.botUserIds == FirstOccurrences(BotIds(Resolved(members, ps)))
              && r.value.mentionedAccountIds == FirstOccurrences(AccountIds(Resolved(members, ps)))
              && (r.value.everyone <==> Mention("everyone") in ps)
    ensures r.Ok? ==> forall a :: a in r.value.mentionedAccountIds <==> NamesAccount(content, members, a)
    ensures r.Ok? ==> forall id :: id in r.value.botUserIds <==> NamesBot(content, members, id)
    ensures r.Ok? ==> (r.value.everyone <==> IsToken(content, "everyone"))
  {
    if HasRawMention(content) {
      return Err(RawMention);
    }
    var byName := BuildByName(members);
    var out: Text := [];
    var users: seq<Text>, accounts: seq<string> := [], [];
    var everyone := false;
    ghost var ps: seq<Piece> := [];
    ghost var rs: seq<RoomMember> := [];
    var rest := content;
    while rest != []
      invariant ps + Pieces(rest) == Pieces(content)
      invariant out == Rewrite(members, ps)
      invariant rs == Resolved(members, ps)
      invariant users == FirstOccurrences(BotIds(rs)) && accounts == FirstOccurrences(AccountIds(rs))
      invariant everyone <==> Mention("everyone") in ps
      decreases |rest|
    {
      var p := FirstPiece(rest);
      var step, found := Substitute(p, byName, members);
      PieceScanned(members, ps, p, rest);
      out := out + step;
      everyone := everyone || p == Mention("everyone");
      if found.Some? {
        ListsAppend(rs, found.value);
        users := if found.value.botUserId in users then users else users + [found.value.botUserId];
        accounts := if found.value.accountId in accounts then accounts else accounts + [found.value.accountId];
        rs := rs + [found.value];
      }
      ps := ps + [p];
      rest := rest[FirstLength(rest)..];
    }
    assert ps == Pieces(content) by { assert ps + [] == ps; }
    ListsName(content, members);
    return Ok(Parsed(out, users, everyone, accounts));
  }

  lemma {:induction false} ResolvedMembers(members: seq<RoomMember>, ps: seq<Piece>, m: RoomMember)
    ensures m in Resolved(members, ps) <==> exists n :: Mention(n) in ps && Target(members, n) == Some(m)
  {
    if ps != [] {
      ResolvedMembers(members, ps[1..], m);
      assert ps == [ps[0]] + ps[1..];
    }
  }

  /** Some token of the content reaches a member with this account id. */
  ghost predicate NamesAccount(content: Text, members: seq<RoomMember>, a: string) {
    exists i :: IsReached(content, members, i) && members[i].accountId == a
  }

  ghost predicate NamesBot(content: Text, members: seq<RoomMember>, id: Text) {
    exists i :: IsReached(content, members, i) && members[i].botUserId == id
  }

  ghost predicate IsReached(content: Text, members: seq<RoomMember>, i: int) {
    0 <= i < |members| && IsToken(content, members[i].name) && ReachedBy(members, i, members[i].name)
  }

  lemma MentionedIsReached(content: Text, members: seq<RoomMember>, m: RoomMember)
    ensures Mentioned(content, members, m) <==> exists i :: IsReached(content, members, i) && members[i] == m
  {
    if Mentioned(content, members, m) {
      TargetIff(members, m.name, m);
    }
    if i :| IsReached(content, members, i) && members[i] == m {
      TargetIff(members, m.name, m);
    }
  }

  lemma ListsName(content: Text, members: seq<RoomMember>)
    ensures var rs := Resolved(members, Pieces(content));
            && (forall a :: a in FirstOccurrences(AccountIds(rs)) <==> NamesAccount(content, members, a))
            && (forall id :: id in FirstOccurrences(BotIds(rs)) <==> NamesBot(content, members, id))
            && (Mention("everyone") in Pieces(content) <==> IsToken(content, "everyone"))
  {
    ScanFindsMaximalTokens(content, "everyone");
    forall m ensures Mentioned(content, members, m)
                     <==> exists i :: IsReached(content, members, i) && members[i] == m {
      MentionedIsReached(content, members, m);
    }
    forall a ensures a in FirstOccurrences(AccountIds(Resolved(members, Pieces(content))))
                     <==> NamesAccount(content, members, a) {
      AllowListsExact(content, members, [], a);
    }
    forall id ensures id in FirstOccurrences(BotIds(Resolved(members, Pieces(content))))
                      <==> NamesBot(content, members, id) {
      AllowListsExact(content, members, id, []);
    }
  }

  ghost predicate Mentioned(content: Text, members: seq<RoomMember>, m: RoomMember) {
    exists n :: IsToken(content, n) && Target(members, n) == Some(m)
  }

  lemma BotIdsOf(ms: seq<RoomMember>, id: Text)
    ensures id in BotIds(ms) <==> exists m :: m in ms && m.botUserId == id
  {
    if m :| m in ms && m.botUserId == id {
      var k :| 0 <= k < |ms| && ms[k] == m;
      assert BotIds(ms)[k] == id;
    }
  }

  lemma AccountIdsOf(ms: seq<RoomMember>, a: string)
    ensures a in AccountIds(ms) <==> exists m :: m in ms && m.accountId == a
  {
    if m :| m in ms && m.accountId == a {
      var k :| 0 <= k < |ms| && ms[k] == m;
      assert AccountIds(ms)[k] == a;
    }
  }

  /** The allow-lists hold exactly the members named by a maximal token, and the
      everyone flag is set exactly when some maximal token is `everyone`. */
  lemma AllowListsExact(content: Text, members: seq<RoomMember>, id: Text, a: string)
    ensures id in FirstOccurrences(BotIds(Resolved(members, Pieces(content)))) <==>
            exists m :: Mentioned(content, members, m) && m.botUserId == id
    ensures a in FirstOccurrences(AccountIds(Resolved(members, Pieces(content)))) <==>
            exists m :: Mentioned(content, members, m) && m.accountId == a
    ensures Mention("everyone") in Pieces(content) <==> IsToken(content, "everyone")
  {
    var rs := Resolved(members, Pieces(content));
    FirstOccurrencesCorrect(BotIds(rs));
    FirstOccurrencesCorrect(AccountIds(rs));
    ScanFindsMaximalTokens(content, "everyone");
    forall m ensures m in rs <==> Mentioned(content, members, m) {
      MentionedIsResolved(content, members, m);
    }
    BotIdsOf(rs, id);
    AccountIdsOf(rs, a);
  }

  lemma MentionedIsResolved(content: Text, members: seq<RoomMember>, m: RoomMember)
    ensures m in Resolved(members, Pieces(content)) <==> Mentioned(content, members, m)
  {
    ResolvedMembers(members, Pieces(content), m);
    forall n ensures Mention(n) in Pieces(content) <==> IsToken(content, n) {
      ScanFindsMaximalTokens(content, n);
    }
  }

  // ---------------------------------------------------------------- rendering

  function WordRun(s: Text): (n: nat)
    ensures n <= |s|
  {
    if s == [] || !WordChar(s[0]) then 0 else 1 + WordRun(s[1..])
  }

  lemma {:induction false} WordRunIsMaximal(s: Text)
    ensures forall k | 0 <= k < WordRun(s) :: WordChar(s[k])
    ensures WordRun(s) < |s| ==> !WordChar(s[WordRun(s)])
  {
    if s != [] && WordChar(s[0]) {
      WordRunIsMaximal(s[1..]);
      assert forall k | 1 <= k < |s| :: s[k] == s[1..][k - 1];
    }
  }

  /** Where the id starts in a match of `<@!?([\w-]+)>` that begins the text. */
  function IdStart(s: Text): nat {
    if |s| > 2 && s[2] == '!' then 3 else 2
  }

  /** The length of the id of the match that begins the text, 0 if none does. */
  function IdLength(s: Text): (n: nat)
    ensures n > 0 ==> IdStart(s) + n < |s|
  {
    if |s| < 2 || s[0] != '<' || s[1] != '@' || |s| <= IdStart(s) then 0
    else
      var n := WordRun(s[IdStart(s)..]);
      if n > 0 && IdStart(s) + n < |s| && s[IdStart(s) + n] == '>' then n else 0
  }

  function RenderTokens(s: Text, names: map<Text, Text>): Text
    decreases |s|
  {
    if s == [] then []
    else if IdLength(s) > 0 then
      var stop := IdStart(s) + IdLength(s);
      RenderId(s[..stop + 1], s[IdStart(s)..stop], names) + RenderTokens(s[stop + 1..], names)
    else [s[0]] + RenderTokens(s[1..], names)
  }

  function RenderId(matched: Text, id: Text, names: map<Text, Text>): Text {
    if id in names && names[id] != [] then "@" + names[id] else matched
  }

  function RenderDisplayContent(content: Text, names: map<Text, Text>): Text {
    if content == [] || |names| == 0 then content else RenderTokens(content, names)
  }

  /** The pattern `<@!?([\w-]+)>` matches s[i..j+1] with the id at s[body..j]. */
  ghost predicate IdSpan(s: Text, i: nat, body: nat, j: nat) {
    && i + 2 <= body < j < |s|
    && s[i] == '<' && s[i + 1] == '@'
    && (body == i + 2 || (body == i + 3 && s[i + 2] == '!'))
    && (forall k | body <= k < j :: WordChar(s[k]))
    && s[j] == '>'
  }

  lemma WordRunIs(u: Text, n: nat)
    requires n < |u| && (forall k | 0 <= k < n :: WordChar(u[k])) && !WordChar(u[n])
    ensures WordRun(u) == n
  {
    WordRunIsMaximal(u);
  }

  lemma SpanGivesLength(s: Text, body: nat, j: nat)
    requires IdSpan(s, 0, body, j)
    ensures body == IdStart(s) && IdLength(s) == j - body
  {
    assert body == IdStart(s);
    var u := s[body..];
    assert forall k | 0 <= k < |u| :: u[k] == s[body + k];
    WordRunIs(u, j - body);
  }

  lemma LengthGivesSpan(s: Text)
    requires IdLength(s) > 0
    ensures IdSpan(s, 0, IdStart(s), IdStart(s) + IdLength(s))
  {
    var u := s[IdStart(s)..];
    WordRunIsMaximal(u);
    forall k | IdStart(s) <= k < IdStart(s) + IdLength(s) ensures WordChar(s[k]) {
      assert s[k] == u[k - IdStart(s)];
    }
  }

  /** The scanner's match is the pattern's match, and there is only one. */
  lemma IdLengthIsSpan(s: Text, body: nat, j: nat)
    ensures IdSpan(s, 0, body, j) <==> IdLength(s) > 0 && body == IdStart(s) && j == body + IdLength(s)
  {
    if IdSpan(s, 0, body, j) {
      SpanGivesLength(s, body, j);
    }
    if IdLength(s) > 0 {
      LengthGivesSpan(s);
    }
  }

  lemma RenderFirst(s: Text, body: nat, j: nat, names: map<Text, Text>)
    requires IdLength(s) > 0 && body == IdStart(s) && j == body + IdLength(s)
    ensures RenderTokens(s, names) == RenderId(s[..j + 1], s[body..j], names) + RenderTokens(s[j + 1..], names)
  {
  }

  /** What a match becomes: `@name` if its id has a name, itself otherwise. */
  lemma RenderMatch(s: Text, body: nat, j: nat, names: map<Text, Text>)
    requires IdSpan(s, 0, body, j)
    ensures s[body..j] in names && names[s[body..j]] != [] ==>
              RenderTokens(s, names) == "@" + names[s[body..j]] + RenderTokens(s[j + 1..], names)
    ensures s[body..j] !in names || names[s[body..j]] == [] ==>
              RenderTokens(s, names) == s[..j + 1] + RenderTokens(s[j + 1..], names)
  {
    SpanGivesLength(s, body, j);
    RenderFirst(s, body, j, names);
  }

  lemma RenderNoMatch(s: Text, names: map<Text, Text>)
    requires s != [] && forall body: nat, j: nat :: !IdSpan(s, 0, body, j)
    ensures RenderTokens(s, names) == [s[0]] + RenderTokens(s[1..], names)
  {
    assert s == [s[0]] + s[1..];
    RenderCopiesOne(s[0], s[1..], names);
  }

  /** The id of every match is without a name. */
  ghost predicate NoneNamed(s: Text, names: map<Text, Text>) {
    forall i: nat, body: nat, j: nat | IdSpan(s, i, body, j) :: s[body..j] !in names || names[s[body..j]] == []
  }

  lemma NoneNamedBehind(s: Text, k: nat, names: map<Text, Text>)
    requires k <= |s| && NoneNamed(s, names)
    ensures NoneNamed(s[k..], names)
  {
    forall i: nat, body: nat, j: nat | IdSpan(s[k..], i, body, j)
      ensures s[k..][body..j] !in names || names[s[k..][body..j]] == []
    {
      assert forall m | k <= m < |s| :: s[m] == s[k..][m - k];
      assert IdSpan(s, k + i, k + body, k + j);
      assert s[k + body..k + j] == s[k..][body..j];
    }
  }

  /** The first piece of such a text is copied. */
  lemma CopiesFront(s: Text, names: map<Text, Text>) returns (k: nat)
    requires s != [] && NoneNamed(s, names)
    ensures 0 < k <= |s| && RenderTokens(s, names) == s[..k] + RenderTokens(s[k..], names)
  {
    k := 1;
    if body: nat, j: nat :| IdSpan(s, 0, body, j) {
      RenderMatch(s, body, j, names);
      k := j + 1;
    } else {
      RenderNoMatch(s, names);
      assert s[..1] == [s[0]];
    }
  }

  /** Rendering leaves a text alone in which no id has a name. */
  lemma {:induction false} UnknownIdsStay(s: Text, names: map<Text, Text>)
    requires NoneNamed(s, names)
    ensures RenderTokens(s, names) == s
    decreases |s|
  {
    if s != [] {
      var k := CopiesFront(s, names);
      NoneNamedBehind(s, k, names);
      UnknownIdsStay(s[k..], names);
      assert s == s[..k] + s[k..];
    }
  }

  ghost predicate WordId(id: Text) {
    id != [] && forall k | 0 <= k < |id| :: WordChar(id[k])
  }

  ghost predicate IdsAreWords(members: seq<RoomMember>, ps: seq<Piece>) {
    forall m | m in Resolved(members, ps) :: WordId(m.botUserId)
  }

  ghost predicate NamesInvert(members: seq<RoomMember>, ps: seq<Piece>, names: map<Text, Text>) {
    forall m | m in Resolved(members, ps) :: m.botUserId in names && names[m.botUserId] == m.name
  }

  // ---------------------------------------------------------------- rewriting, stretch by stretch

  /** A stretch of the content, what it becomes, and the id that replaced it, if one did. */
  datatype Chunk = Chunk(src: Text, out: Text, id: Option<Text>)

  function Source(cs: seq<Chunk>): Text {
    if cs == [] then [] else cs[0].src + Source(cs[1..])
  }

  function Output(cs: seq<Chunk>): Text {
    if cs == [] then [] else cs[0].out + Output(cs[1..])
  }

  predicate OpensNothing(t: Text, m: nat) {
    m <= |t| && forall k | 0 <= k < m :: t[k] != '<'
  }

  /** Copied, as one character or as a token without `<`; or replaced by an id. */
  ghost predicate Good(c: Chunk) {
    && c.src != []
    && match c.id
       case None => c.out == c.src && (|c.src| == 1 || OpensNothing(c.src, |c.src|))
       case Some(id) => c.out == "<@" + id + ">" && WordId(id)
  }

  ghost predicate AllGood(cs: seq<Chunk>) {
    forall k | 0 <= k < |cs| :: Good(cs[k])
  }

  lemma SourceSplit(cs: seq<Chunk>)
    requires cs != [] && AllGood(cs)
    ensures Source(cs) == cs[0].src + Source(cs[1..]) && Output(cs) == cs[0].out + Output(cs[1..])
    ensures Good(cs[0]) && AllGood(cs[1..])
    ensures HasRawMention(Source(cs[1..])) ==> HasRawMention(Source(cs))
  {
    RawMentionBehind(cs[0].src, Source(cs[1..]));
  }

  lemma RawMentionBehind(a: Text, b: Text)
    ensures HasRawMention(b) ==> HasRawMention(a + b)
  {
    assert (a + b)[|a|..] == b;
    if HasRawMention(b) {
      RawMentionInSuffix(a + b, |a|);
    }
  }

  lemma RestOpensNothing(head: Text, rest: Text, m: nat)
    requires |head| <= m && OpensNothing(head + rest, m)
    ensures OpensNothing(rest, m - |head|)
  {
    assert forall k | 0 <= k < |rest| :: rest[k] == (head + rest)[|head| + k];
  }

  lemma PrefixJoin(head: Text, rest: Text, src: Text, m: nat)
    requires m <= |head + rest|
    requires m > |head| ==> m - |head| <= |src| && src[..m - |head|] == rest[..m - |head|]
    ensures m <= |head + src| && (head + src)[..m] == (head + rest)[..m]
  {
    if m > |head| {
      assert (head + src)[..m] == head + src[..m - |head|];
      assert (head + rest)[..m] == head + rest[..m - |head|];
    }
  }

  /** A stretch that does not begin with `<` once rewritten was copied. */
  lemma CopiedUnlessOpening(c: Chunk, rest: Text, m: nat)
    requires Good(c) && m > 0 && OpensNothing(c.out + rest, m)
    ensures c.out == c.src
  {
    assert (c.out + rest)[0] == c.out[0];
  }

  /** A prefix of the output without `<` is a prefix of the source. */
  lemma {:induction false} OutputKeepsPrefix(cs: seq<Chunk>, m: nat)
    requires AllGood(cs) && OpensNothing(Output(cs), m)
    ensures m <= |Source(cs)| && Source(cs)[..m] == Output(cs)[..m]
  {
    if m > 0 {
      SourceSplit(cs);
      CopiedUnlessOpening(cs[0], Output(cs[1..]), m);
      if m > |cs[0].out| {
        RestOpensNothing(cs[0].out, Output(cs[1..]), m);
        OutputKeepsPrefix(cs[1..], m - |cs[0].out|);
      }
      PrefixJoin(cs[0].out, Output(cs[1..]), Source(cs[1..]), m);
    }
  }

  lemma IdSpanIsRaw(c: char, t: Text, u: Text, body: nat, j: nat)
    requires IdSpan([c] + t, 0, body, j)
    requires j <= |u| && u[..j] == t[..j]
    ensures RawMentionSpan([c] + u, 0, body, j)
  {
    var w, v := [c] + t, [c] + u;
    assert forall k | 1 <= k <= j :: w[k] == t[..j][k - 1] == u[..j][k - 1] == v[k];
  }

  lemma IdSpanHasNoOpening(c: char, t: Text, body: nat, j: nat)
    requires IdSpan([c] + t, 0, body, j)
    ensures OpensNothing(t, j)
  {
    var w := [c] + t;
    assert forall k | 0 <= k < j :: t[k] == w[k + 1];
  }

  /** No id token starts on a copied character of an accepted content. */
  lemma NoTokenOnPlain(c: char, cs: seq<Chunk>, body: nat, j: nat)
    requires AllGood(cs) && !HasRawMention([c] + Source(cs))
    ensures !IdSpan([c] + Output(cs), 0, body, j)
  {
    if IdSpan([c] + Output(cs), 0, body, j) {
      IdSpanHasNoOpening(c, Output(cs), body, j);
      OutputKeepsPrefix(cs, j);
      IdSpanIsRaw(c, Output(cs), Source(cs), body, j);
      assert false;
    }
  }

  lemma SpanShift(a: Text, b: Text, i: nat, body: nat, j: nat)
    requires i >= |a| && IdSpan(a + b, i, body, j)
    ensures body >= |a| && j >= |a| && IdSpan(b, i - |a|, body - |a|, j - |a|)
    ensures (a + b)[body..j] == b[body - |a|..j - |a|]
  {
    var w := a + b;
    assert forall k | 0 <= k < |b| :: b[k] == w[k + |a|];
  }

  lemma SpanStartsOnOpening(a: Text, b: Text, i: nat, body: nat, j: nat)
    requires i < |a| && IdSpan(a + b, i, body, j)
    ensures a[i] == '<'
  {
    assert (a + b)[i] == a[i];
  }

  /** An inserted `<@id>` is matched as a whole, with the id it was given. */
  lemma InsertedSpan(id: Text, rest: Text, body: nat, j: nat)
    requires WordId(id)
    ensures IdSpan("<@" + id + ">" + rest, 0, 2, 2 + |id|)
    ensures IdSpan("<@" + id + ">" + rest, 0, body, j) ==> body == 2 && j == 2 + |id|
    ensures ("<@" + id + ">" + rest)[2..2 + |id|] == id
  {
    var w := "<@" + id + ">" + rest;
    assert w[2] == id[0];
    assert forall k | 2 <= k < 2 + |id| :: w[k] == id[k - 2];
    IdLengthIsSpan(w, 2, 2 + |id|);
    IdLengthIsSpan(w, body, j);
  }

  /** A token that starts in a stretch's output is all of it. */
  lemma TokenInFront(c: Chunk, cs: seq<Chunk>, i: nat, body: nat, j: nat)
    requires Good(c) && AllGood(cs) && !HasRawMention(c.src + Source(cs))
    requires i < |c.out| && IdSpan(c.out + Output(cs), i, body, j)
    ensures i == 0 && c.id.Some? && (c.out + Output(cs))[body..j] == c.id.value
  {
    SpanStartsOnOpening(c.out, Output(cs), i, body, j);
    match c.id
    case None =>
      assert c.src == [c.src[0]];
      NoTokenOnPlain(c.src[0], cs, body, j);
      assert false;
    case Some(id) =>
      OpensOnce(id, i);
      InsertedSpan(id, Output(cs), body, j);
  }

  lemma OpensOnce(id: Text, i: nat)
    requires WordId(id) && i < |"<@" + id + ">"| && ("<@" + id + ">")[i] == '<'
    ensures i == 0
  {
    var w := "<@" + id + ">";
    assert forall k | 2 <= k < 2 + |id| :: w[k] == id[k - 2];
  }

  /** Every id token of the output of an accepted content is a stretch that an id replaced. */
  lemma {:induction false} FindInserted(cs: seq<Chunk>, i: nat, body: nat, j: nat) returns (k: nat)
    requires AllGood(cs) && !HasRawMention(Source(cs)) && IdSpan(Output(cs), i, body, j)
    ensures k < |cs| && cs[k].id.Some? && i == |Output(cs[..k])| && Output(cs)[body..j] == cs[k].id.value
  {
    SourceSplit(cs);
    var head, rest := cs[0].out, Output(cs[1..]);
    k := 0;
    if i >= |head| {
      SpanShift(head, rest, i, body, j);
      k := FindInserted(cs[1..], i - |head|, body - |head|, j - |head|);
      OutputTake(cs, k);
      k := k + 1;
    } else {
      TokenInFront(cs[0], cs[1..], i, body, j);
    }
  }

  lemma OutputTake(cs: seq<Chunk>, k: nat)
    requires cs != [] && k < |cs[1..]|
    ensures |Output(cs[..k + 1])| == |cs[0].out| + |Output(cs[1..][..k])|
  {
    assert cs[..k + 1][1..] == cs[1..][..k];
  }

  lemma RenderCopiesOne(c: char, b: Text, names: map<Text, Text>)
    requires forall body: nat, j: nat :: !IdSpan([c] + b, 0, body, j)
    ensures RenderTokens([c] + b, names) == [c] + RenderTokens(b, names)
  {
    var w := [c] + b;
    if IdLength(w) > 0 {
      IdLengthIsSpan(w, IdStart(w), IdStart(w) + IdLength(w));
      assert false;
    }
    assert w[1..] == b;
  }

  lemma RenderInserted(id: Text, rest: Text, names: map<Text, Text>)
    requires WordId(id)
    ensures RenderTokens("<@" + id + ">" + rest, names)
            == RenderId("<@" + id + ">", id, names) + RenderTokens(rest, names)
  {
    var w := "<@" + id + ">" + rest;
    InsertedSpan(id, rest, 2, 2 + |id|);
    IdLengthIsSpan(w, 2, 2 + |id|);
    assert w[2 + |id| + 1..] == rest;
    assert w[..2 + |id| + 1] == "<@" + id + ">";
  }

  lemma NoSpanWithoutOpening(c: char, b: Text)
    requires c != '<'
    ensures forall body: nat, j: nat :: !IdSpan([c] + b, 0, body, j)
  {
  }

  lemma {:induction false} RenderCopies(a: Text, b: Text, names: map<Text, Text>)
    requires forall k | 0 <= k < |a| :: a[k] != '<'
    ensures RenderTokens(a + b, names) == a + RenderTokens(b, names)
    decreases |a|
  {
    if a == [] {
      assert a + b == b;
    } else {
      var c, a' := a[0], a[1..];
      RenderCopies(a', b, names);
      NoSpanWithoutOpening(c, a' + b);
      RenderCopiesOne(c, a' + b, names);
      assert a == [c] + a';
      Associative([c], a', b);
      Associative([c], a', RenderTokens(b, names));
    }
  }

  /** Every stretch that was replaced was the name of its id. */
  ghost predicate NamesGiveBack(cs: seq<Chunk>, names: map<Text, Text>) {
    forall k | 0 <= k < |cs| && cs[k].id.Some? ::
      cs[k].id.value in names && names[cs[k].id.value] != [] && cs[k].src == "@" + names[cs[k].id.value]
  }

  /** Rendering undoes rewriting, stretch by stretch. */
  lemma {:induction false} RenderGivesSource(cs: seq<Chunk>, names: map<Text, Text>)
    requires AllGood(cs) && !HasRawMention(Source(cs)) && NamesGiveBack(cs, names)
    ensures RenderTokens(Output(cs), names) == Source(cs)
  {
    if cs != [] {
      SourceSplit(cs);
      RenderGivesSource(cs[1..], names);
      RenderFront(cs[0], cs[1..], names);
    }
  }

  lemma RenderFront(c: Chunk, cs: seq<Chunk>, names: map<Text, Text>)
    requires Good(c) && AllGood(cs) && !HasRawMention(c.src + Source(cs)) && NamesGiveBack([c], names)
    ensures RenderTokens(c.out + Output(cs), names) == c.src + RenderTokens(Output(cs), names)
  {
    match c.id
    case Some(id) =>
      assert [c][0] == c;
      RenderInserted(id, Output(cs), names);
    case None =>
      if OpensNothing(c.src, |c.src|) {
        RenderCopies(c.src, Output(cs), names);
      } else {
        assert c.src == [c.src[0]];
        forall body: nat, j: nat ensures !IdSpan([c.src[0]] + Output(cs), 0, body, j) {
          NoTokenOnPlain(c.src[0], cs, body, j);
        }
        RenderCopiesOne(c.src[0], Output(cs), names);
      }
  }

  lemma {:induction false} NothingInserted(cs: seq<Chunk>)
    requires AllGood(cs) && forall k | 0 <= k < |cs| :: cs[k].id.None?
    ensures Output(cs) == Source(cs)
  {
    if cs != [] {
      NothingInserted(cs[1..]);
    }
  }

  // ---------------------------------------------------------------- what holds of rewriting

  function Chunk1(members: seq<RoomMember>, p: Piece): Chunk {
    match p
    case Plain(c) => Chunk([c], [c], None)
    case Mention(name) =>
      match Target(members, name)
      case None => Chunk("@" + name, "@" + name, None)
      case Some(m) => Chunk("@" + name, "<@" + m.botUserId + ">", Some(m.botUserId))
  }

  function Chunks(members: seq<RoomMember>, ps: seq<Piece>): seq<Chunk> {
    seq(|ps|, k requires 0 <= k < |ps| => Chunk1(members, ps[k]))
  }

  lemma {:induction false} OutputIsRewrite(members: seq<RoomMember>, ps: seq<Piece>)
    ensures Output(Chunks(members, ps)) == Rewrite(members, ps)
  {
    if ps != [] {
      OutputIsRewrite(members, ps[1..]);
      assert Chunks(members, ps)[1..] == Chunks(members, ps[1..]);
      assert Chunk1(members, ps[0]).out == Render1(members, ps[0]);
    }
  }

  lemma {:induction false} SourceIsText(members: seq<RoomMember>, s: Text)
    ensures Source(Chunks(members, Pieces(s))) == s
    decreases |s|
  {
    if s != [] {
      SourceIsText(members, s[FirstLength(s)..]);
      SourceStep(members, s, FirstPiece(s), Pieces(s[FirstLength(s)..]), FirstLength(s));
    }
  }

  lemma SourceStep(members: seq<RoomMember>, s: Text, p: Piece, ps: seq<Piece>, n: nat)
    requires s != [] && p == FirstPiece(s) && n == FirstLength(s) && Source(Chunks(members, ps)) == s[n..]
    ensures Source(Chunks(members, [p] + ps)) == s
  {
    SourceCons(members, p, ps);
    FirstPieceIsText(members, s);
    assert s == s[..n] + s[n..];
  }

  lemma SourceCons(members: seq<RoomMember>, p: Piece, ps: seq<Piece>)
    ensures Source(Chunks(members, [p] + ps)) == Chunk1(members, p).src + Source(Chunks(members, ps))
  {
    assert Chunks(members, [p] + ps)[1..] == Chunks(members, ps);
  }

  lemma FirstPieceIsText(members: seq<RoomMember>, s: Text)
    requires s != []
    ensures Chunk1(members, FirstPiece(s)).src == s[..FirstLength(s)]
  {
  }

  /** A scanned piece: a character, or a token of name characters. */
  ghost predicate Scanned(p: Piece) {
    p.Mention? ==> p.name != [] && forall k | 0 <= k < |p.name| :: NameChar(p.name[k])
  }

  lemma {:induction false} PiecesAreScanned(s: Text, k: nat)
    requires k < |Pieces(s)|
    ensures Scanned(Pieces(s)[k])
    decreases |s|
  {
    if k > 0 {
      PiecesAreScanned(s[FirstLength(s)..], k - 1);
    } else {
      NameRunIsMaximal(s[1..]);
      assert forall m | 1 <= m < |s| :: s[m] == s[1..][m - 1];
    }
  }

  lemma ScannedIsGood(members: seq<RoomMember>, p: Piece)
    requires Scanned(p)
    requires p.Mention? && Target(members, p.name).Some? ==> WordId(Target(members, p.name).value.botUserId)
    ensures Good(Chunk1(members, p))
  {
    if p.Mention? && Target(members, p.name).None? {
      var src := "@" + p.name;
      assert forall k | 1 <= k < |src| :: src[k] == p.name[k - 1];
    }
  }

  lemma ChunksAreGood(members: seq<RoomMember>, s: Text)
    requires IdsAreWords(members, Pieces(s))
    ensures AllGood(Chunks(members, Pieces(s)))
  {
    forall k | 0 <= k < |Pieces(s)| ensures Good(Chunk1(members, Pieces(s)[k])) {
      var p := Pieces(s)[k];
      PiecesAreScanned(s, k);
      if p.Mention? && Target(members, p.name).Some? {
        ResolvedMembers(members, Pieces(s), Target(members, p.name).value);
      }
      ScannedIsGood(members, p);
    }
  }

  /** Every id token in the rewritten form of an accepted content is one that
      ParseMentions inserted: it starts where the k-th piece starts, that piece
      was resolved, and the id is that member's bot id. */
  lemma OnlyInsertedTokens(s: Text, members: seq<RoomMember>, i: nat, body: nat, j: nat) returns (k: nat)
    requires !HasRawMention(s) && IdsAreWords(members, Pieces(s))
    requires IdSpan(Rewrite(members, Pieces(s)), i, body, j)
    ensures k < |Pieces(s)| && Pieces(s)[k].Mention?
    ensures i == |Rewrite(members, Pieces(s)[..k])|
    ensures Target(members, Pieces(s)[k].name).Some?
    ensures Rewrite(members, Pieces(s))[body..j] == Target(members, Pieces(s)[k].name).value.botUserId
  {
    var ps := Pieces(s);
    OutputIsRewrite(members, ps);
    SourceIsText(members, s);
    ChunksAreGood(members, s);
    k := FindInserted(Chunks(members, ps), i, body, j);
    assert Chunks(members, ps)[..k] == Chunks(members, ps[..k]);
    OutputIsRewrite(members, ps[..k]);
  }

  lemma ChunksGiveBack(s: Text, members: seq<RoomMember>, names: map<Text, Text>)
    requires NamesInvert(members, Pieces(s), names)
    ensures NamesGiveBack(Chunks(members, Pieces(s)), names)
  {
    var cs := Chunks(members, Pieces(s));
    forall k | 0 <= k < |cs| && cs[k].id.Some?
      ensures cs[k].id.value in names && names[cs[k].id.value] != [] && cs[k].src == "@" + names[cs[k].id.value]
    {
      PiecesAreScanned(s, k);
      ResolvedMembers(members, Pieces(s), Target(members, Pieces(s)[k].name).value);
    }
  }

  /** Rendering undoes rewriting, on every content that ParseMentions accepts. */
  lemma RenderUndoesRewrite(s: Text, members: seq<RoomMember>, names: map<Text, Text>)
    requires !HasRawMention(s)
    requires IdsAreWords(members, Pieces(s)) && NamesInvert(members, Pieces(s), names)
    ensures RenderTokens(Rewrite(members, Pieces(s)), names) == s
  {
    OutputIsRewrite(members, Pieces(s));
    SourceIsText(members, s);
    ChunksAreGood(members, s);
    ChunksGiveBack(s, members, names);
    RenderGivesSource(Chunks(members, Pieces(s)), names);
  }

  lemma SomeNameNeeded(rs: seq<RoomMember>, names: map<Text, Text>)
    requires forall m | m in rs :: m.botUserId in names
    ensures rs != [] ==> |names| > 0
  {
    if rs != [] {
      assert rs[0].botUserId in names;
    }
  }

  /** The round trip, as ReadRoom sees it. */
  lemma MentionRoundTrip(s: Text, members: seq<RoomMember>, names: map<Text, Text>)
    requires !HasRawMention(s)
    requires IdsAreWords(members, Pieces(s)) && NamesInvert(members, Pieces(s), names)
    ensures RenderDisplayContent(Rewrite(members, Pieces(s)), names) == s
  {
    RenderUndoesRewrite(s, members, names);
    if |names| == 0 {
      var rs := Resolved(members, Pieces(s));
      SomeNameNeeded(rs, names);
      NothingResolved(s, members);
    }
  }

  lemma NothingResolved(s: Text, members: seq<RoomMember>)
    requires Resolved(members, Pieces(s)) == []
    ensures Rewrite(members, Pieces(s)) == s
  {
    var cs := Chunks(members, Pieces(s));
    OutputIsRewrite(members, Pieces(s));
    SourceIsText(members, s);
    ChunksAreGood(members, s);
    forall k | 0 <= k < |cs| ensures cs[k].id.None? {
      if cs[k].id.Some? {
        ResolvedMembers(members, Pieces(s), Target(members, Pieces(s)[k].name).value);
      }
    }
    NothingInserted(cs);
  }

  /** Parsing the rewritten text again is refused exactly when something was
      rewritten, for bot ids without `>` and white space. */
  lemma {:induction false} ReparseRejected(s: Text, members: seq<RoomMember>)
    requires !HasRawMention(s)
    requires forall m | m in Resolved(members, Pieces(s)) :: forall k | 0 <= k < |m.botUserId| ::
             m.botUserId[k] != '>' && !IsSpace(m.botUserId[k])
    ensures HasRawMention(Rewrite(members, Pieces(s))) <==> Resolved(members, Pieces(s)) != []
  {
    if Resolved(members, Pieces(s)) == [] {
      NothingResolved(s, members);
    } else {
      SomeRawMention(members, Pieces(s));
    }
  }

  lemma {:induction false} SomeRawMention(members: seq<RoomMember>, ps: seq<Piece>)
    requires Resolved(members, ps) != []
    requires forall m | m in Resolved(members, ps) :: forall k | 0 <= k < |m.botUserId| ::
             m.botUserId[k] != '>' && !IsSpace(m.botUserId[k])
    ensures HasRawMention(Rewrite(members, ps))
  {
    var head, rest := Render1(members, ps[0]), Rewrite(members, ps[1..]);
    var w := head + rest;
    if ps[0].Mention? && Target(members, ps[0].name).Some? {
      var id := Target(members, ps[0].name).value.botUserId;
      assert Target(members, ps[0].name).value in Resolved(members, ps);
      assert forall k | 2 <= k < 2 + |id| :: w[k] == id[k - 2];
      assert RawMentionSpan(w, 0, 2, 2 + |id|);
    } else {
      SomeRawMention(members, ps[1..]);
      assert w[|head|..] == rest;
      RawMentionInSuffix(w, |head|);
    }
  }
}
