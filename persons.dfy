/** Persons inside an event (speakers, authors, chairs, ...): who they are as
    ACL principals, how two records of the same person are merged, how a user
    is linked to the email-only persons that carry one of their addresses, and
    how the person links of an object are reconciled with its `submit` role. */
module EventPersons {
  import opened Wrappers

  // ---------------------------------------------------------------------------
  // Principals and roles

  /** Whom an ACL entry is for: a registered user or a bare email address. */
  datatype Principal = UserPrincipal(userId: int) | EmailPrincipal(email: string)

  /** `EventPerson.principal`: the linked user if there is one, otherwise an
      email principal for a non-empty email, otherwise nothing. */
  function PrincipalOf(userId: Option<int>, email: string): (r: Option<Principal>)
    ensures r.None? <==> userId.None? && email == ""
    ensures r.Some? && r.value.UserPrincipal? <==> userId.Some?
    ensures r.Some? ==> (if userId.Some? then r.value.userId == userId.value else r.value.email == email)
  {
    if userId.Some? then Some(UserPrincipal(userId.value))
    else if email != "" then Some(EmailPrincipal(email))
    else None
  }

  /** A principal identifies its person: equal principals come from the same
      user, or, when no user is linked, from the same email. */
  lemma PrincipalIdentifies(u1: Option<int>, e1: string, u2: Option<int>, e2: string)
    requires PrincipalOf(u1, e1).Some? && PrincipalOf(u1, e1) == PrincipalOf(u2, e2)
    ensures u1 == u2
    ensures u1.None? ==> e1 == e2
  {
  }

  /** The roles an object's ACL grants to each principal. */
  type Acl = map<Principal, set<string>>

  const Submit := "submit"

  function RolesOf(acl: Acl, p: Principal): set<string>
  {
    if p in acl then acl[p] else {}
  }

  /** Granting the roles `add` to `p` and then revoking `del`; the entries
      of all other principals stay as they were. */
  function UpdatePrincipal(acl: Acl, p: Principal, add: set<string>, del: set<string>): (r: Acl)
    ensures RolesOf(r, p) == (RolesOf(acl, p) + add) - del
    ensures forall q :: q != p ==> RolesOf(r, q) == RolesOf(acl, q)
  {
    acl[p := (RolesOf(acl, p) + add) - del]
  }

  /** An ACL entry for `p` names the person with this user id and email. */
  predicate EntryMatches(p: Principal, userId: Option<int>, email: string)
  {
    match p
    case UserPrincipal(u) => userId == Some(u)
    case EmailPrincipal(e) => e == email
  }

  /** `has_role`: some ACL entry holding `role` explicitly names the person. */
  predicate HasRole(userId: Option<int>, email: string, role: string, acl: Acl)
  {
    exists p :: p in acl && role in acl[p] && EntryMatches(p, userId, email)
  }

  /** `has_role` looks at exactly two entries: the user entry for a linked
      user and the email entry for the person's email. */
  lemma HasRoleByEntries(userId: Option<int>, email: string, role: string, acl: Acl)
    ensures HasRole(userId, email, role, acl) <==>
      (userId.Some? && role in RolesOf(acl, UserPrincipal(userId.value)))
      || role in RolesOf(acl, EmailPrincipal(email))
  {
    if HasRole(userId, email, role, acl) {
      var p :| p in acl && role in acl[p] && EntryMatches(p, userId, email);
      assert role in RolesOf(acl, p);
    }
    if userId.Some? && role in RolesOf(acl, UserPrincipal(userId.value)) {
      assert EntryMatches(UserPrincipal(userId.value), userId, email);
    }
    if role in RolesOf(acl, EmailPrincipal(email)) {
      assert EntryMatches(EmailPrincipal(email), userId, email);
    }
  }

  /** A role granted to the person's principal is a role the person has. */
  lemma PrincipalRoleGivesRole(userId: Option<int>, email: string, role: string, acl: Acl)
    requires PrincipalOf(userId, email).Some?
    requires role in RolesOf(acl, PrincipalOf(userId, email).value)
    ensures HasRole(userId, email, role, acl)
  {
    var p := PrincipalOf(userId, email).value;
    assert p in acl && EntryMatches(p, userId, email);
  }

  // ---------------------------------------------------------------------------
  // Author types

  datatype AuthorType = NoAuthor | PrimaryAuthor | SecondaryAuthor

  /** `_get_author_type`: primary wins; otherwise the destination's type when
      the source has none, else the source's type. */
  function MergedAuthorType(src: AuthorType, dest: AuthorType): (r: AuthorType)
    ensures r == PrimaryAuthor <==> src == PrimaryAuthor || dest == PrimaryAuthor
    ensures r == NoAuthor <==> src == NoAuthor && dest == NoAuthor
    ensures r == src || r == dest
  {
    if src == PrimaryAuthor || dest == PrimaryAuthor then PrimaryAuthor
    else if src == NoAuthor then dest
    else src
  }

  /** none < secondary < primary */
  function AuthorRank(a: AuthorType): nat
  {
    match a
    case NoAuthor => 0
    case SecondaryAuthor => 1
    case PrimaryAuthor => 2
  }

  /** The merged author type is the larger of the two in the order
      none < secondary < primary, so merging is commutative. */
  lemma MergedAuthorTypeIsJoin(a: AuthorType, b: AuthorType)
    ensures AuthorRank(MergedAuthorType(a, b)) == if AuthorRank(a) >= AuthorRank(b) then AuthorRank(a) else AuthorRank(b)
    ensures MergedAuthorType(a, b) == MergedAuthorType(b, a)
  {
  }

  // ---------------------------------------------------------------------------
  // Link collections

  datatype EventLink = EventLink(id: int, eventId: int)
  datatype ContributionLink = ContributionLink(id: int, contributionId: int, isSpeaker: bool, authorType: AuthorType)
  datatype SubContributionLink = SubContributionLink(id: int, subContributionId: int)
  /** `contributionId` is the value the merge reads as the link's
      `contribution_id`, `None` when there is none. */
  datatype SessionBlockLink = SessionBlockLink(id: int, sessionBlockId: int, contributionId: Option<int>)

  function EventOf(l: EventLink): int { l.eventId }
  function ContributionOf(l: ContributionLink): int { l.contributionId }
  function SubContributionOf(l: SubContributionLink): int { l.subContributionId }
  function SessionBlockOf(l: SessionBlockLink): int { l.sessionBlockId }

  /** The index of the first link whose key is `k` (Python's `next(..., None)`). */
  function FirstKeyIndex<L, K(==)>(links: seq<L>, key: L -> K, k: K): (r: Option<nat>)
    ensures r.None? <==> forall i :: 0 <= i < |links| ==> key(links[i]) != k
    ensures r.Some? ==> r.value < |links| && key(links[r.value]) == k
    ensures r.Some? ==> forall j :: 0 <= j < r.value ==> key(links[j]) != k
  {
    if links == [] then None
    else if key(links[0]) == k then Some(0)
    else
      match FirstKeyIndex(links[1..], key, k)
      case None => None
      case Some(i) => Some(i + 1)
  }

  /** The lookup loop for `FirstKeyIndex`. */
  method FindByKey<L, K(==)>(links: seq<L>, key: L -> K, k: K) returns (r: Option<nat>)
    ensures r == FirstKeyIndex(links, key, k)
  {
    var i := 0;
    while i < |links|
      invariant 0 <= i <= |links|
      invariant forall j :: 0 <= j < i ==> key(links[j]) != k
    {
      if key(links[i]) == k {
        r := Some(i);
        return;
      }
      i := i + 1;
    }
    r := None;
  }

  predicate HasKey<L, K(==)>(links: seq<L>, key: L -> K, k: K)
  {
    exists i :: 0 <= i < |links| && key(links[i]) == k
  }

  /** No two links share a key (the per-person unique constraint on links). */
  predicate KeysUnique<L, K(==)>(links: seq<L>, key: L -> K)
  {
    forall i, j :: 0 <= i < j < |links| ==> key(links[i]) != key(links[j])
  }

  /** The links the merged person holds once the other person's links have
      been visited in order: each is moved over unless a link already held
      (including one moved over earlier) has `mineKey` equal to its
      `theirKey`, in which case it is deleted. */
  function MoveOrDrop<L, K(==)>(mine: seq<L>, theirs: seq<L>, mineKey: L -> K, theirKey: L -> K): seq<L>
    decreases |theirs|
  {
    if theirs == [] then mine
    else
      var acc := MoveOrDrop(mine, theirs[..|theirs| - 1], mineKey, theirKey);
      var t := theirs[|theirs| - 1];
      if FirstKeyIndex(acc, mineKey, theirKey(t)).None? then acc + [t] else acc
  }

  /** The loop over the other person's links for one link collection. */
  method MoveOrDropLinks<L, K(==)>(mine: seq<L>, theirs: seq<L>, mineKey: L -> K, theirKey: L -> K)
    returns (r: seq<L>)
    ensures r == MoveOrDrop(mine, theirs, mineKey, theirKey)
  {
    r := mine;
    for i := 0 to |theirs|
      invariant r == MoveOrDrop(mine, theirs[..i], mineKey, theirKey)
    {
      var t := theirs[i];
      assert theirs[..i + 1][..i] == theirs[..i];
      var found := FindByKey(r, mineKey, theirKey(t));
      if found.None? {
        r := r + [t];
      }
    }
    assert theirs[..|theirs|] == theirs;
  }

  /** Merging keeps every link already held, in place, and only appends. */
  lemma {:induction false} MoveOrDropExtendsMine<L, K>(mine: seq<L>, theirs: seq<L>, mineKey: L -> K, theirKey: L -> K)
    ensures var r := MoveOrDrop(mine, theirs, mineKey, theirKey);
      |mine| <= |r| <= |mine| + |theirs| && r[..|mine|] == mine
      && forall i :: |mine| <= i < |r| ==> exists j :: 0 <= j < |theirs| && r[i] == theirs[j]
  {
    if theirs != [] {
      var front := theirs[..|theirs| - 1];
      MoveOrDropExtendsMine(mine, front, mineKey, theirKey);
      var acc := MoveOrDrop(mine, front, mineKey, theirKey);
      var r := MoveOrDrop(mine, theirs, mineKey, theirKey);
      forall i | |mine| <= i < |r| ensures exists j :: 0 <= j < |theirs| && r[i] == theirs[j] {
        if i < |acc| {
          var j :| 0 <= j < |front| && acc[i] == front[j];
          assert r[i] == theirs[j];
        } else {
          assert r[i] == theirs[|theirs| - 1];
        }
      }
    }
  }

  /** With one key compared on both sides, the merged links hold exactly one
      link per target that either person was linked to. */
  lemma {:induction false} MoveOrDropKeys<L, K>(mine: seq<L>, theirs: seq<L>, key: L -> K)
    requires KeysUnique(mine, key)
    ensures KeysUnique(MoveOrDrop(mine, theirs, key, key), key)
    ensures forall k :: HasKey(MoveOrDrop(mine, theirs, key, key), key, k) <==> HasKey(mine, key, k) || HasKey(theirs, key, k)
  {
    if theirs != [] {
      var front := theirs[..|theirs| - 1];
      var t := theirs[|theirs| - 1];
      MoveOrDropKeys(mine, front, key);
      var acc := MoveOrDrop(mine, front, key, key);
      var r := MoveOrDrop(mine, theirs, key, key);
      forall k ensures HasKey(r, key, k) <==> HasKey(mine, key, k) || HasKey(theirs, key, k) {
        if HasKey(front, key, k) {
          var j :| 0 <= j < |front| && key(front[j]) == k;
          assert key(theirs[j]) == k;
        }
        if HasKey(theirs, key, k) {
          var j :| 0 <= j < |theirs| && key(theirs[j]) == k;
          if j < |front| {
            assert key(front[j]) == k;
          } else if FirstKeyIndex(acc, key, key(t)).None? {
            assert key(r[|acc|]) == k;
          }
        }
        if HasKey(r, key, k) {
          var i :| 0 <= i < |r| && key(r[i]) == k;
          if i < |acc| {
            assert key(acc[i]) == k;
          } else {
            assert key(theirs[|theirs| - 1]) == k;
          }
        }
        if HasKey(acc, key, k) {
          var i :| 0 <= i < |acc| && key(acc[i]) == k;
          assert key(r[i]) == k;
        }
      }
    }
  }

  /** The loop as written visits the other person's link collection itself,
      not a copy of it. Reassigning a link (`link.person = self`) removes it
      from that collection at once, so the iteration, which moves on to the
      next position, skips the link that followed; a deleted link stays in
      the collection until the flush. Returns the links the merged person
      holds and those still in the other person's collection, from position
      `pos` of the live collection `live` on. */
  function MoveOrDropLive<L, K(==)>(held: seq<L>, live: seq<L>, pos: nat, mineKey: L -> K, theirKey: L -> K): (r: (seq<L>, seq<L>))
    decreases |live| - pos
  {
    if pos >= |live| then (held, live)
    else
      var t := live[pos];
      if FirstKeyIndex(held, mineKey, theirKey(t)).None? then
        MoveOrDropLive(held + [t], live[..pos] + live[pos + 1..], pos + 1, mineKey, theirKey)
      else MoveOrDropLive(held, live, pos + 1, mineKey, theirKey)
  }

  /** As written, merging a person with links to events 1 and 2 into a
      person with no event links moves only the first link; the second stays
      with the other person, which `link_user_by_email` then deletes with
      its links. Iterating over a copy moves both. */
  lemma LiveIterationSkipsLinks()
    ensures MoveOrDropLive([], [EventLink(1, 1), EventLink(2, 2)], 0, EventOf, EventOf) == ([EventLink(1, 1)], [EventLink(2, 2)])
    ensures MoveOrDrop([], [EventLink(1, 1), EventLink(2, 2)], EventOf, EventOf) == [EventLink(1, 1), EventLink(2, 2)]
  {
    var live := [EventLink(1, 1), EventLink(2, 2)];
    var none: seq<EventLink> := [];
    assert FirstKeyIndex(none, EventOf, EventOf(live[0])).None?;
    assert none + [live[0]] == [EventLink(1, 1)];
    assert live[..0] + live[0 + 1..] == [EventLink(2, 2)];
    assert MoveOrDropLive(none, live, 0, EventOf, EventOf)
        == MoveOrDropLive(none + [live[0]], live[..0] + live[0 + 1..], 0 + 1, EventOf, EventOf);
    assert MoveOrDropLive([EventLink(1, 1)], [EventLink(2, 2)], 1, EventOf, EventOf) == ([EventLink(1, 1)], [EventLink(2, 2)]);
    assert live[..1] == [EventLink(1, 1)] && live[..0] == [];
    assert FirstKeyIndex([EventLink(1, 1)], EventOf, 2).None?;
  }

  /** Appending one link changes the first index of a key only when the key
      was absent before and the new link carries it. */
  lemma {:induction false} FirstKeyIndexSnoc<L, K>(s: seq<L>, x: L, key: L -> K, k: K)
    ensures FirstKeyIndex(s + [x], key, k) ==
      if FirstKeyIndex(s, key, k).None? && key(x) == k then Some(|s|) else FirstKeyIndex(s, key, k)
  {
    var a := FirstKeyIndex(s + [x], key, k);
    var b := FirstKeyIndex(s, key, k);
    assert forall i :: 0 <= i < |s| ==> (s + [x])[i] == s[i];
    if b.Some? {
      assert a.Some?;
      assert !(a.value < b.value) && !(b.value < a.value);
    } else if key(x) == k {
      assert (s + [x])[|s|] == x;
    }
  }

  // ---------------------------------------------------------------------------
  // Contribution links

  /** Another person's link to a contribution the merged person already has
      a link to is folded into that link: a speaker if either was, with the
      merged author type. */
  function AbsorbContributionLink(m: ContributionLink, t: ContributionLink): (r: ContributionLink)
    ensures r.id == m.id && r.contributionId == m.contributionId
    ensures r.isSpeaker <==> m.isSpeaker || t.isSpeaker
    ensures r.authorType == MergedAuthorType(m.authorType, t.authorType)
  {
    m.(isSpeaker := m.isSpeaker || t.isSpeaker, authorType := MergedAuthorType(m.authorType, t.authorType))
  }

  /** The contribution links the merged person holds once the other person's
      links have been visited in order: a link to a new contribution is moved
      over, a link to a contribution already linked is absorbed into that
      link and deleted. */
  function MergedContributionLinks(mine: seq<ContributionLink>, theirs: seq<ContributionLink>): seq<ContributionLink>
    decreases |theirs|
  {
    if theirs == [] then mine
    else
      var acc := MergedContributionLinks(mine, theirs[..|theirs| - 1]);
      var t := theirs[|theirs| - 1];
      match FirstKeyIndex(acc, ContributionOf, t.contributionId)
      case None => acc + [t]
      case Some(i) => acc[i := AbsorbContributionLink(acc[i], t)]
  }

  /** The loop over the other person's contribution links. */
  method MergeContributionLinks(mine: seq<ContributionLink>, theirs: seq<ContributionLink>)
    returns (r: seq<ContributionLink>)
    ensures r == MergedContributionLinks(mine, theirs)
  {
    r := mine;
    for n := 0 to |theirs|
      invariant r == MergedContributionLinks(mine, theirs[..n])
    {
      var t := theirs[n];
      assert theirs[..n + 1][..n] == theirs[..n];
      var found := FindByKey(r, ContributionOf, t.contributionId);
      if found.Some? {
        r := r[found.value := AbsorbContributionLink(r[found.value], t)];
      } else {
        r := r + [t];
      }
    }
    assert theirs[..|theirs|] == theirs;
  }

  /** What a link of the merged person to one of its own contributions ends
      up as: absorbing the other person's link to the same contribution, if
      there is one. */
  function Absorbed(m: ContributionLink, theirs: seq<ContributionLink>): ContributionLink
  {
    match FirstKeyIndex(theirs, ContributionOf, m.contributionId)
    case None => m
    case Some(j) => AbsorbContributionLink(m, theirs[j])
  }

  /** The state after merging `theirs` into `mine`: one link per contribution
      of either person; the merged person's own links stay first, in order,
      each having absorbed the other's link to the same contribution; then
      the other's links to contributions the merged person had no link to. */
  ghost predicate MergedContributionsState(mine: seq<ContributionLink>, theirs: seq<ContributionLink>, r: seq<ContributionLink>)
  {
    && |mine| <= |r|
    && ContributionKeysMerged(mine, theirs, r)
    && OwnLinksAbsorbed(mine, theirs, r)
    && MovedLinksFrom(mine, theirs, r)
  }

  ghost predicate ContributionKeysMerged(mine: seq<ContributionLink>, theirs: seq<ContributionLink>, r: seq<ContributionLink>)
  {
    && KeysUnique(r, ContributionOf)
    && (forall k :: HasKey(r, ContributionOf, k) <==> HasKey(mine, ContributionOf, k) || HasKey(theirs, ContributionOf, k))
  }

  ghost predicate OwnLinksAbsorbed(mine: seq<ContributionLink>, theirs: seq<ContributionLink>, r: seq<ContributionLink>)
    requires |mine| <= |r|
  {
    forall i :: 0 <= i < |mine| ==> r[i] == Absorbed(mine[i], theirs)
  }

  ghost predicate MovedLinksFrom(mine: seq<ContributionLink>, theirs: seq<ContributionLink>, r: seq<ContributionLink>)
  {
    forall i :: |mine| <= i < |r| ==> MovedFrom(mine, theirs, r[i])
  }

  /** `x` is one of the other person's links, to a contribution self had no link to. */
  ghost predicate MovedFrom(mine: seq<ContributionLink>, theirs: seq<ContributionLink>, x: ContributionLink)
  {
    && (exists j :: 0 <= j < |theirs| && x == theirs[j])
    && !HasKey(mine, ContributionOf, x.contributionId)
  }

  lemma MovedFromExtends(mine: seq<ContributionLink>, front: seq<ContributionLink>, t: ContributionLink,
                         theirs: seq<ContributionLink>, x: ContributionLink)
    requires theirs == front + [t]
    requires MovedFrom(mine, front, x)
    ensures MovedFrom(mine, theirs, x)
  {
    var j :| 0 <= j < |front| && x == front[j];
    assert theirs[j] == front[j];
  }

  /** Facts about one step of the merge shared by both of its cases. */
  lemma MergedContributionsStepFacts(mine: seq<ContributionLink>, front: seq<ContributionLink>, t: ContributionLink,
                                     acc: seq<ContributionLink>)
    requires KeysUnique(front + [t], ContributionOf)
    requires MergedContributionsState(mine, front, acc)
    ensures !HasKey(front, ContributionOf, t.contributionId)
    ensures forall i :: 0 <= i < |mine| ==> acc[i].contributionId == mine[i].contributionId
    ensures forall k :: HasKey(front + [t], ContributionOf, k) <==> HasKey(front, ContributionOf, k) || k == t.contributionId
    ensures forall m: ContributionLink :: m.contributionId != t.contributionId ==> Absorbed(m, front + [t]) == Absorbed(m, front)
  {
    var theirs := front + [t];
    var k0 := t.contributionId;
    assert forall j :: 0 <= j < |front| ==> theirs[j] == front[j];
    assert theirs[|front|] == t;
    assert !HasKey(front, ContributionOf, k0);
    forall i | 0 <= i < |mine| ensures acc[i].contributionId == mine[i].contributionId {
      assert acc[i] == Absorbed(mine[i], front);
    }
    forall k ensures HasKey(theirs, ContributionOf, k) <==> HasKey(front, ContributionOf, k) || k == k0 {
      if HasKey(theirs, ContributionOf, k) {
        var j :| 0 <= j < |theirs| && ContributionOf(theirs[j]) == k;
        if j < |front| { assert ContributionOf(front[j]) == k; }
      }
      if HasKey(front, ContributionOf, k) {
        var j :| 0 <= j < |front| && ContributionOf(front[j]) == k;
        assert ContributionOf(theirs[j]) == k;
      }
    }
    forall m: ContributionLink | m.contributionId != k0 ensures Absorbed(m, theirs) == Absorbed(m, front) {
      FirstKeyIndexSnoc(front, t, ContributionOf, m.contributionId);
    }
  }

  /** A step that moves the other person's link over. */
  lemma MergedContributionsMove(mine: seq<ContributionLink>, front: seq<ContributionLink>, t: ContributionLink,
                                acc: seq<ContributionLink>)
    requires KeysUnique(mine, ContributionOf) && KeysUnique(front + [t], ContributionOf)
    requires MergedContributionsState(mine, front, acc)
    requires FirstKeyIndex(acc, ContributionOf, t.contributionId).None?
    ensures MergedContributionsState(mine, front + [t], acc + [t])
  {
    MergedContributionsStepFacts(mine, front, t, acc);
    MoveKeepsKeys(acc, t);
    var theirs := front + [t];
    var r := acc + [t];
    forall i | 0 <= i < |mine| ensures r[i] == Absorbed(mine[i], theirs) {
      assert r[i] == acc[i];
    }
    assert !HasKey(mine, ContributionOf, t.contributionId);
    forall i | |mine| <= i < |r| ensures MovedFrom(mine, theirs, r[i]) {
      if i < |acc| {
        assert r[i] == acc[i];
        MovedFromExtends(mine, front, t, theirs, acc[i]);
      } else {
        assert r[i] == theirs[|front|];
      }
    }
  }

  /** Appending a link to a contribution not yet linked keeps one link per
      contribution and adds that contribution. */
  lemma MoveKeepsKeys(acc: seq<ContributionLink>, t: ContributionLink)
    requires KeysUnique(acc, ContributionOf)
    requires FirstKeyIndex(acc, ContributionOf, t.contributionId).None?
    ensures KeysUnique(acc + [t], ContributionOf)
    ensures forall k :: HasKey(acc + [t], ContributionOf, k) <==> HasKey(acc, ContributionOf, k) || k == t.contributionId
  {
    var r := acc + [t];
    assert forall i :: 0 <= i < |acc| ==> r[i] == acc[i];
    assert r[|acc|] == t;
    forall k ensures HasKey(r, ContributionOf, k) <==> HasKey(acc, ContributionOf, k) || k == t.contributionId {
      if HasKey(r, ContributionOf, k) {
        var i :| 0 <= i < |r| && ContributionOf(r[i]) == k;
        if i < |acc| { assert ContributionOf(acc[i]) == k; }
      }
      if HasKey(acc, ContributionOf, k) {
        var i :| 0 <= i < |acc| && ContributionOf(acc[i]) == k;
        assert ContributionOf(r[i]) == k;
      }
    }
  }

  /** A step that absorbs the other person's link into the link at `i0`. */
  lemma MergedContributionsAbsorb(mine: seq<ContributionLink>, front: seq<ContributionLink>, t: ContributionLink,
                                  acc: seq<ContributionLink>, i0: nat)
    requires KeysUnique(mine, ContributionOf) && KeysUnique(front + [t], ContributionOf)
    requires MergedContributionsState(mine, front, acc)
    requires FirstKeyIndex(acc, ContributionOf, t.contributionId) == Some(i0)
    ensures i0 < |acc|
    ensures MergedContributionsState(mine, front + [t], acc[i0 := AbsorbContributionLink(acc[i0], t)])
  {
    MergedContributionsStepFacts(mine, front, t, acc);
    AbsorbKeepsKeys(acc, i0, t);
    AbsorbKeepsOwnLinks(mine, front, t, acc, i0);
    AbsorbKeepsMovedLinks(mine, front, t, front + [t], acc, acc[i0 := AbsorbContributionLink(acc[i0], t)], i0);
  }

  /** In an absorbing step the links moved over earlier stay as they were. */
  lemma AbsorbKeepsMovedLinks(mine: seq<ContributionLink>, front: seq<ContributionLink>, t: ContributionLink,
                              theirs: seq<ContributionLink>, acc: seq<ContributionLink>, r: seq<ContributionLink>, i0: nat)
    requires theirs == front + [t]
    requires i0 < |mine| <= |acc| && |r| == |acc|
    requires forall i :: 0 <= i < |acc| && i != i0 ==> r[i] == acc[i]
    requires MovedLinksFrom(mine, front, acc)
    ensures MovedLinksFrom(mine, theirs, r)
  {
    forall i | |mine| <= i < |r| ensures MovedFrom(mine, theirs, r[i]) {
      MovedFromExtends(mine, front, t, theirs, acc[i]);
    }
  }

  /** Absorbing a link into the one at `i0` changes no link's contribution. */
  lemma AbsorbKeepsKeys(acc: seq<ContributionLink>, i0: nat, t: ContributionLink)
    requires i0 < |acc|
    requires KeysUnique(acc, ContributionOf)
    ensures KeysUnique(acc[i0 := AbsorbContributionLink(acc[i0], t)], ContributionOf)
    ensures forall k :: HasKey(acc[i0 := AbsorbContributionLink(acc[i0], t)], ContributionOf, k) <==> HasKey(acc, ContributionOf, k)
  {
    var r := acc[i0 := AbsorbContributionLink(acc[i0], t)];
    assert forall i :: 0 <= i < |r| ==> ContributionOf(r[i]) == ContributionOf(acc[i]);
    forall k ensures HasKey(r, ContributionOf, k) <==> HasKey(acc, ContributionOf, k) {
      if HasKey(r, ContributionOf, k) {
        var i :| 0 <= i < |r| && ContributionOf(r[i]) == k;
        assert ContributionOf(acc[i]) == k;
      }
      if HasKey(acc, ContributionOf, k) {
        var i :| 0 <= i < |acc| && ContributionOf(acc[i]) == k;
        assert ContributionOf(r[i]) == k;
      }
    }
  }

  /** In an absorbing step the link absorbed into is one of the merged
      person's own, and each own link is then what `Absorbed` says. */
  lemma AbsorbKeepsOwnLinks(mine: seq<ContributionLink>, front: seq<ContributionLink>, t: ContributionLink,
                            acc: seq<ContributionLink>, i0: nat)
    requires KeysUnique(front + [t], ContributionOf)
    requires MergedContributionsState(mine, front, acc)
    requires FirstKeyIndex(acc, ContributionOf, t.contributionId) == Some(i0)
    ensures i0 < |mine|
    ensures forall i :: 0 <= i < |mine| ==>
      acc[i0 := AbsorbContributionLink(acc[i0], t)][i] == Absorbed(mine[i], front + [t])
  {
    MergedContributionsStepFacts(mine, front, t, acc);
    var k0 := t.contributionId;
    var r := acc[i0 := AbsorbContributionLink(acc[i0], t)];
    assert i0 < |mine|;
    forall i | 0 <= i < |mine| ensures r[i] == Absorbed(mine[i], front + [t]) {
      if i == i0 {
        assert FirstKeyIndex(front, ContributionOf, k0).None?;
        FirstKeyIndexSnoc(front, t, ContributionOf, k0);
        assert acc[i0] == mine[i0];
      } else {
        assert ContributionOf(acc[i]) != k0;
      }
    }
  }

  /** Merging contribution links when both persons hold at most one link per
      contribution: afterwards there is exactly one link per contribution of
      either person; the merged person's own links keep their place, each
      absorbing the other's link to the same contribution (speaker if either
      was, merged author type); the other links were moved over unchanged. */
  lemma {:induction false} MergedContributionLinksCorrect(mine: seq<ContributionLink>, theirs: seq<ContributionLink>)
    requires KeysUnique(mine, ContributionOf) && KeysUnique(theirs, ContributionOf)
    ensures MergedContributionsState(mine, theirs, MergedContributionLinks(mine, theirs))
  {
    if theirs == [] {
      MergedContributionsNone(mine);
    } else {
      var front := theirs[..|theirs| - 1];
      var t := theirs[|theirs| - 1];
      assert theirs == front + [t];
      assert KeysUnique(front, ContributionOf) by {
        assert forall j :: 0 <= j < |front| ==> front[j] == theirs[j];
      }
      MergedContributionLinksCorrect(mine, front);
      var acc := MergedContributionLinks(mine, front);
      var r := MergedContributionLinks(mine, theirs);
      match FirstKeyIndex(acc, ContributionOf, t.contributionId)
      case None =>
        assert r == acc + [t];
        MergedContributionsMove(mine, front, t, acc);
      case Some(i0) =>
        assert r == acc[i0 := AbsorbContributionLink(acc[i0], t)];
        MergedContributionsAbsorb(mine, front, t, acc, i0);
    }
  }

  /** Merging in no links leaves the merged person's links as they are. */
  lemma MergedContributionsNone(mine: seq<ContributionLink>)
    requires KeysUnique(mine, ContributionOf)
    ensures MergedContributionsState(mine, [], MergedContributionLinks(mine, []))
  {
    forall k ensures !HasKey([], ContributionOf, k) { }
    forall i | 0 <= i < |mine| ensures mine[i] == Absorbed(mine[i], []) { }
  }

  // ---------------------------------------------------------------------------
  // Session-block links

  /** The key a held session-block link is compared by: its session block. */
  function HeldBlockKey(l: SessionBlockLink): Option<int> { Some(l.sessionBlockId) }

  /** The key the merge reads from the other person's session-block link: its
      contribution id, not its session block. */
  function OtherContributionKey(l: SessionBlockLink): Option<int> { l.contributionId }

  /** The session-block links after the merge as the loop is written, matching
      a held link's block against the other link's contribution id. */
  function SessionBlockLinksAsWritten(mine: seq<SessionBlockLink>, theirs: seq<SessionBlockLink>): seq<SessionBlockLink>
  {
    MoveOrDrop(mine, theirs, HeldBlockKey, OtherContributionKey)
  }

  /** As written, two records of a person chairing the same block merge into
      a person with two links to that block. */
  lemma SessionBlockLinksAsWrittenKeepDuplicates()
    ensures var merged := SessionBlockLinksAsWritten([SessionBlockLink(1, 7, None)], [SessionBlockLink(2, 7, None)]);
      merged == [SessionBlockLink(1, 7, None), SessionBlockLink(2, 7, None)]
      && !KeysUnique(merged, SessionBlockOf)
  {
    var mine, theirs := [SessionBlockLink(1, 7, None)], [SessionBlockLink(2, 7, None)];
    assert theirs[..0] == [];
    assert FirstKeyIndex(mine, HeldBlockKey, OtherContributionKey(theirs[0])).None?;
    var merged := SessionBlockLinksAsWritten(mine, theirs);
    assert merged == mine + theirs;
    assert SessionBlockOf(merged[0]) == SessionBlockOf(merged[1]);
  }

  /** The session-block links after the merge with the comparison evidently
      intended: block against block. */
  function MergedSessionBlockLinks(mine: seq<SessionBlockLink>, theirs: seq<SessionBlockLink>): seq<SessionBlockLink>
  {
    MoveOrDrop(mine, theirs, SessionBlockOf, SessionBlockOf)
  }

  /** With the intended comparison the merged person holds exactly one link
      per session block of either person. */
  lemma MergedSessionBlockLinksUnique(mine: seq<SessionBlockLink>, theirs: seq<SessionBlockLink>)
    requires KeysUnique(mine, SessionBlockOf)
    ensures KeysUnique(MergedSessionBlockLinks(mine, theirs), SessionBlockOf)
    ensures forall b :: HasKey(MergedSessionBlockLinks(mine, theirs), SessionBlockOf, b) <==>
      HasKey(mine, SessionBlockOf, b) || HasKey(theirs, SessionBlockOf, b)
  {
    MoveOrDropKeys(mine, theirs, SessionBlockOf);
  }

  // ---------------------------------------------------------------------------
  // Event persons

  /** A scalar column after the merge: the merged person's value if it is set
      (non-empty), else the other person's. */
  function PickText(mine: string, theirs: string): string
  {
    if mine != "" then mine else theirs
  }

  /** The title column after the merge; 0 is the title `none`, which is falsy. */
  function PickTitle(mine: nat, theirs: nat): nat
  {
    if mine != 0 then mine else theirs
  }

  /** A value set on the merged person is never overwritten; an unset one
      takes the other person's value; merging in the same record twice
      changes nothing more; and a value is unset after the merge only if it
      was unset on both records. */
  lemma PickKeepsSetValues(mine: string, theirs: string, t1: nat, t2: nat)
    ensures mine != "" ==> PickText(mine, theirs) == mine
    ensures mine == "" ==> PickText(mine, theirs) == theirs
    ensures t1 != 0 ==> PickTitle(t1, t2) == t1
    ensures t1 == 0 ==> PickTitle(t1, t2) == t2
    ensures PickText(PickText(mine, theirs), theirs) == PickText(mine, theirs)
    ensures PickTitle(PickTitle(t1, t2), t2) == PickTitle(t1, t2)
    ensures PickText(mine, theirs) == "" <==> mine == "" && theirs == ""
    ensures PickTitle(t1, t2) == 0 <==> t1 == 0 && t2 == 0
  {
  }

  /** The four link loops of `merge_person_info`, on the link collections
      of the merged person (`e1`, `c1`, `s1`, `b1`) and the other (`e2`, ...). */
  method MergeLinkCollections(e1: seq<EventLink>, e2: seq<EventLink>, c1: seq<ContributionLink>, c2: seq<ContributionLink>,
                              s1: seq<SubContributionLink>, s2: seq<SubContributionLink>,
                              b1: seq<SessionBlockLink>, b2: seq<SessionBlockLink>)
    returns (e: seq<EventLink>, c: seq<ContributionLink>, s: seq<SubContributionLink>, b: seq<SessionBlockLink>)
    ensures e == MoveOrDrop(e1, e2, EventOf, EventOf)
    ensures c == MergedContributionLinks(c1, c2)
    ensures s == MoveOrDrop(s1, s2, SubContributionOf, SubContributionOf)
    ensures b == MergedSessionBlockLinks(b1, b2)
  {
    e := MoveOrDropLinks(e1, e2, EventOf, EventOf);
    c := MergeContributionLinks(c1, c2);
    s := MoveOrDropLinks(s1, s2, SubContributionOf, SubContributionOf);
    b := MoveOrDropLinks(b1, b2, SessionBlockOf, SessionBlockOf);
  }

  /** A person inside an event, e.g. a speaker or an author, with the links
      that attach it to the event, its contributions, subcontributions and
      session blocks. */
  class EventPerson {
    const id: int
    const eventId: int
    const email: string
    var userId: Option<int>
    var title: nat
    var firstName: string
    var lastName: string
    var affiliation: string
    var address: string
    var phone: string
    var eventLinks: seq<EventLink>
    var contributionLinks: seq<ContributionLink>
    var subContributionLinks: seq<SubContributionLink>
    var sessionBlockLinks: seq<SessionBlockLink>

    constructor (id: int, eventId: int, email: string, userId: Option<int>, firstName: string, lastName: string)
      ensures this.id == id && this.eventId == eventId && this.email == email && this.userId == userId
      ensures this.firstName == firstName && this.lastName == lastName
      ensures title == 0 && affiliation == "" && address == "" && phone == ""
      ensures eventLinks == [] && contributionLinks == [] && subContributionLinks == [] && sessionBlockLinks == []
    {
      this.id := id;
      this.eventId := eventId;
      this.email := email;
      this.userId := userId;
      this.firstName := firstName;
      this.lastName := lastName;
      title := 0;
      affiliation, address, phone := "", "", "";
      eventLinks, contributionLinks, subContributionLinks, sessionBlockLinks := [], [], [], [];
    }

    /** The person as an ACL principal. */
    function CurrentPrincipal(): Option<Principal>
      reads this
    {
      PrincipalOf(userId, email)
    }

    /** At most one link per event, contribution, subcontribution and block. */
    ghost predicate LinksUnique()
      reads this
    {
      && KeysUnique(eventLinks, EventOf)
      && KeysUnique(contributionLinks, ContributionOf)
      && KeysUnique(subContributionLinks, SubContributionOf)
      && KeysUnique(sessionBlockLinks, SessionBlockOf)
    }

    /** `merge_person_info`: the other record of the same person is folded
        into this one. Scalar columns keep this person's value when set;
        every link of the other person is moved over or, when this person
        already has a link to the same target, absorbed and deleted, so the
        other person ends with no links. */
    method MergePersonInfo(other: EventPerson)
      requires other != this
      modifies this, other
      ensures MergedPerson(this, other)
    {
      MergeColumns(other);
      MergeLinks(other);
    }

    /** The loop over the scalar columns. */
    method MergeColumns(other: EventPerson)
      requires other != this
      modifies this
      ensures title == PickTitle(old(title), other.title)
      ensures firstName == PickText(old(firstName), other.firstName)
      ensures lastName == PickText(old(lastName), other.lastName)
      ensures affiliation == PickText(old(affiliation), other.affiliation)
      ensures address == PickText(old(address), other.address)
      ensures phone == PickText(old(phone), other.phone)
      ensures userId == old(userId)
      ensures eventLinks == old(eventLinks) && contributionLinks == old(contributionLinks)
      ensures subContributionLinks == old(subContributionLinks) && sessionBlockLinks == old(sessionBlockLinks)
    {
      title, firstName, lastName := PickTitle(title, other.title), PickText(firstName, other.firstName), PickText(lastName, other.lastName);
      affiliation, address, phone := PickText(affiliation, other.affiliation), PickText(address, other.address), PickText(phone, other.phone);
    }

    /** The four loops over the other person's links. */
    method MergeLinks(other: EventPerson)
      requires other != this
      modifies this, other
      ensures eventLinks == MoveOrDrop(old(eventLinks), old(other.eventLinks), EventOf, EventOf)
      ensures contributionLinks == MergedContributionLinks(old(contributionLinks), old(other.contributionLinks))
      ensures subContributionLinks == MoveOrDrop(old(subContributionLinks), old(other.subContributionLinks), SubContributionOf, SubContributionOf)
      ensures sessionBlockLinks == MergedSessionBlockLinks(old(sessionBlockLinks), old(other.sessionBlockLinks))
      ensures other.eventLinks == [] && other.contributionLinks == [] && other.subContributionLinks == [] && other.sessionBlockLinks == []
      ensures userId == old(userId) && title == old(title) && firstName == old(firstName) && lastName == old(lastName)
      ensures affiliation == old(affiliation) && address == old(address) && phone == old(phone)
      ensures other.userId == old(other.userId) && other.title == old(other.title)
      ensures other.firstName == old(other.firstName) && other.lastName == old(other.lastName)
      ensures other.affiliation == old(other.affiliation) && other.address == old(other.address) && other.phone == old(other.phone)
    {
      var events, contributions, subContributions, blocks :=
        MergeLinkCollections(eventLinks, other.eventLinks, contributionLinks, other.contributionLinks,
                             subContributionLinks, other.subContributionLinks, sessionBlockLinks, other.sessionBlockLinks);
      eventLinks, contributionLinks, subContributionLinks, sessionBlockLinks := events, contributions, subContributions, blocks;
      other.eventLinks, other.contributionLinks, other.subContributionLinks, other.sessionBlockLinks := [], [], [], [];
    }
  }

  /** The state `merge_person_info` leaves both records in: `p`'s scalar
      columns keep its values when set and take `o`'s otherwise; `p` gets the
      merged link collections; `o` keeps its columns and is left with no
      links. */
  twostate predicate MergedPerson(p: EventPerson, o: EventPerson)
    reads p, o
  {
    && p.userId == old(p.userId)
    && p.title == PickTitle(old(p.title), old(o.title))
    && p.firstName == PickText(old(p.firstName), old(o.firstName))
    && p.lastName == PickText(old(p.lastName), old(o.lastName))
    && p.affiliation == PickText(old(p.affiliation), old(o.affiliation))
    && p.address == PickText(old(p.address), old(o.address))
    && p.phone == PickText(old(p.phone), old(o.phone))
    && p.eventLinks == MoveOrDrop(old(p.eventLinks), old(o.eventLinks), EventOf, EventOf)
    && p.contributionLinks == MergedContributionLinks(old(p.contributionLinks), old(o.contributionLinks))
    && p.subContributionLinks == MoveOrDrop(old(p.subContributionLinks), old(o.subContributionLinks), SubContributionOf, SubContributionOf)
    && p.sessionBlockLinks == MergedSessionBlockLinks(old(p.sessionBlockLinks), old(o.sessionBlockLinks))
    && o.eventLinks == [] && o.contributionLinks == [] && o.subContributionLinks == [] && o.sessionBlockLinks == []
    && o.userId == old(o.userId) && o.title == old(o.title)
    && o.firstName == old(o.firstName) && o.lastName == old(o.lastName)
    && o.affiliation == old(o.affiliation) && o.address == old(o.address) && o.phone == old(o.phone)
  }

  /** `event_person.user = user`: the user is linked and nothing else changes. */
  twostate predicate LinkedToUser(p: EventPerson, userId: int)
    reads p
  {
    && p.userId == Some(userId)
    && p.title == old(p.title) && p.firstName == old(p.firstName) && p.lastName == old(p.lastName)
    && p.affiliation == old(p.affiliation) && p.address == old(p.address) && p.phone == old(p.phone)
    && p.eventLinks == old(p.eventLinks) && p.contributionLinks == old(p.contributionLinks)
    && p.subContributionLinks == old(p.subContributionLinks) && p.sessionBlockLinks == old(p.sessionBlockLinks)
  }

  // ---------------------------------------------------------------------------
  // Linking a user to email-only persons

  /** A registered user with all of their email addresses. */
  datatype User = User(id: int, allEmails: set<string>)

  /** The persons `link_user_by_email` visits: no user linked, an email that
      is one of the user's, in an event that is not deleted. */
  predicate IsEmailMatch(userId: Option<int>, email: string, eventId: int, user: User, deletedEvents: set<int>)
  {
    userId.None? && email in user.allEmails && eventId !in deletedEvents
  }

  predicate DistinctPersons(persons: seq<EventPerson>)
  {
    forall i, j :: 0 <= i < j < |persons| ==> persons[i] != persons[j]
  }

  /** The unique constraint on (event, user): no two persons of one event are
      linked to the same user. */
  ghost predicate UniqueEventUser(persons: seq<EventPerson>)
    reads set p | p in persons
  {
    forall i, j :: 0 <= i < j < |persons| && persons[i].userId.Some? && persons[i].userId == persons[j].userId
      ==> persons[i].eventId != persons[j].eventId
  }

  /** The lookup of the person of an event that is linked to a user. */
  method FindLinkedPerson(persons: seq<EventPerson>, userId: int, eventId: int) returns (r: Option<nat>)
    ensures r.Some? ==> r.value < |persons| && persons[r.value].userId == Some(userId) && persons[r.value].eventId == eventId
    ensures r.None? ==> forall k :: 0 <= k < |persons| ==> !(persons[k].userId == Some(userId) && persons[k].eventId == eventId)
  {
    for i := 0 to |persons|
      invariant forall k :: 0 <= k < i ==> !(persons[k].userId == Some(userId) && persons[k].eventId == eventId)
    {
      if persons[i].userId == Some(userId) && persons[i].eventId == eventId {
        return Some(i);
      }
    }
    return None;
  }

  /** The events with a person `link_user_by_email` visits; only persons of
      these events can change. */
  function MatchedEvents(persons: seq<EventPerson>, user: User, deletedEvents: set<int>): (r: set<int>)
    reads set p | p in persons
    ensures forall k :: 0 <= k < |persons| && IsEmailMatch(persons[k].userId, persons[k].email, persons[k].eventId, user, deletedEvents) ==>
      persons[k].eventId in r
  {
    set k | 0 <= k < |persons| && IsEmailMatch(persons[k].userId, persons[k].email, persons[k].eventId, user, deletedEvents) :: persons[k].eventId
  }

  /** The user ids of the persons, in order. */
  function UserIdsOf(persons: seq<EventPerson>): (r: seq<Option<int>>)
    reads set p | p in persons
    ensures |r| == |persons| && forall k :: 0 <= k < |persons| ==> r[k] == persons[k].userId
  {
    if persons == [] then [] else [persons[0].userId] + UserIdsOf(persons[1..])
  }

  /** The person holds no link at all. */
  predicate NoLinks(p: EventPerson)
    reads p
  {
    p.eventLinks == [] && p.contributionLinks == [] && p.subContributionLinks == [] && p.sessionBlockLinks == []
  }

  /** What `link_user_by_email` has achieved once it has visited the first
      `i` persons, whose user ids were `before`: each person not visited
      still has its user id; a visited person that did not match remains,
      with its user id; a visited match either remains, linked to the user,
      or was merged into a person of its event linked to the user and left
      without links; `remaining` lists the kept persons in order. */
  ghost predicate LinkProgress(persons: seq<EventPerson>, before: seq<Option<int>>, remaining: seq<EventPerson>,
                               picked: seq<nat>, i: nat, user: User, deletedEvents: set<int>)
    reads set p | p in persons
  {
    && i <= |persons| && |before| == |persons|
    && UniqueEventUser(persons)
    && (forall k :: i <= k < |persons| ==> persons[k].userId == before[k])
    && |picked| == |remaining|
    && (forall m :: 0 <= m < |picked| ==> picked[m] < i && remaining[m] == persons[picked[m]])
    && (forall m, n :: 0 <= m < n < |picked| ==> picked[m] < picked[n])
    && (forall k :: 0 <= k < i && !IsEmailMatch(before[k], persons[k].email, persons[k].eventId, user, deletedEvents) ==>
          persons[k] in remaining && persons[k].userId == before[k])
    && (forall k :: 0 <= k < i && IsEmailMatch(before[k], persons[k].email, persons[k].eventId, user, deletedEvents) ==>
          if persons[k] in remaining then persons[k].userId == Some(user.id)
          else persons[k].userId.None? && NoLinks(persons[k])
               && exists q :: 0 <= q < |persons| && persons[q].eventId == persons[k].eventId && persons[q].userId == Some(user.id))
    && (forall k :: 0 <= k < i && persons[k].userId.Some? ==> persons[k] in remaining)
  }

  /** `link_user_by_email`: every matching person is linked to the user,
      unless its event already has a person for that user, in which case it
      is merged into that person and removed. Returns the persons that
      remain, in their original order. Only persons of events with a
      matching person can change. */
  method LinkUserByEmail(persons: seq<EventPerson>, user: User, deletedEvents: set<int>) returns (remaining: seq<EventPerson>)
    requires DistinctPersons(persons) && UniqueEventUser(persons)
    modifies set p | p in persons && p.eventId in MatchedEvents(persons, user, deletedEvents)
    ensures forall m :: 0 <= m < |remaining| ==> remaining[m] in persons
    ensures forall k :: 0 <= k < |persons| && !IsEmailMatch(old(persons[k].userId), persons[k].email, persons[k].eventId, user, deletedEvents) ==>
      persons[k] in remaining && persons[k].userId == old(persons[k].userId)
    ensures forall k :: 0 <= k < |persons| && IsEmailMatch(old(persons[k].userId), persons[k].email, persons[k].eventId, user, deletedEvents) ==>
      if persons[k] in remaining then persons[k].userId == Some(user.id)
      else NoLinks(persons[k])
           && exists q :: 0 <= q < |persons| && persons[q] in remaining && persons[q].eventId == persons[k].eventId && persons[q].userId == Some(user.id)
    ensures UniqueEventUser(remaining)
  {
    ghost var before := UserIdsOf(persons);
    remaining := [];
    ghost var picked: seq<nat> := [];
    for i := 0 to |persons|
      invariant LinkProgress(persons, before, remaining, picked, i, user, deletedEvents)
    {
      assert persons[i].eventId in old(MatchedEvents(persons, user, deletedEvents)) ||
        !IsEmailMatch(persons[i].userId, persons[i].email, persons[i].eventId, user, deletedEvents);
      remaining, picked := VisitPerson(persons, before, remaining, picked, i, user, deletedEvents);
    }
    UniqueOnPicked(persons, remaining, picked);
  }

  /** The visit of `persons[i]`: the link or merge, then the kept person is
      appended to `remaining`. */
  method VisitPerson(persons: seq<EventPerson>, ghost before: seq<Option<int>>, remaining: seq<EventPerson>,
                     ghost picked: seq<nat>, i: nat, user: User, deletedEvents: set<int>)
    returns (remaining': seq<EventPerson>, ghost picked': seq<nat>)
    requires DistinctPersons(persons) && LinkProgress(persons, before, remaining, picked, i, user, deletedEvents) && i < |persons|
    modifies if IsEmailMatch(persons[i].userId, persons[i].email, persons[i].eventId, user, deletedEvents)
      then set p | p in persons && p.eventId == persons[i].eventId else {}
    ensures LinkProgress(persons, before, remaining', picked', i + 1, user, deletedEvents)
    ensures remaining' == remaining || remaining' == remaining + [persons[i]]
  {
    var mergedInto := LinkOne(persons, i, user, deletedEvents);
    if mergedInto.None? {
      remaining', picked' := remaining + [persons[i]], picked + [i];
    } else {
      remaining', picked' := remaining, picked;
    }
  }

  /** Persons picked from a list in increasing order keep its uniqueness. */
  lemma UniqueOnPicked(persons: seq<EventPerson>, chosen: seq<EventPerson>, picked: seq<nat>)
    requires UniqueEventUser(persons)
    requires |picked| == |chosen|
    requires forall m :: 0 <= m < |picked| ==> picked[m] < |persons| && chosen[m] == persons[picked[m]]
    requires forall m, n :: 0 <= m < n < |picked| ==> picked[m] < picked[n]
    ensures UniqueEventUser(chosen)
  {
    forall m, n | 0 <= m < n < |chosen| && chosen[m].userId.Some? && chosen[m].userId == chosen[n].userId
      ensures chosen[m].eventId != chosen[n].eventId
    {
      assert picked[m] < picked[n];
    }
  }

  /** One iteration of `link_user_by_email`, for `persons[i]`. A person that
      does not match is left alone. A matching one is linked to the user when
      its event has no person for the user yet; otherwise it is merged into
      that person, whose index is returned in `mergedInto`. No other person
      changes. */
  method LinkOne(persons: seq<EventPerson>, i: nat, user: User, deletedEvents: set<int>) returns (mergedInto: Option<nat>)
    requires i < |persons| && DistinctPersons(persons) && UniqueEventUser(persons)
    modifies if IsEmailMatch(persons[i].userId, persons[i].email, persons[i].eventId, user, deletedEvents)
      then set p | p in persons && p.eventId == persons[i].eventId else {}
    ensures UniqueEventUser(persons)
    ensures forall k :: 0 <= k < |persons| && k != i ==> persons[k].userId == old(persons[k].userId)
    ensures forall k :: 0 <= k < |persons| && k != i && mergedInto != Some(k) ==> unchanged(persons[k])
    ensures !IsEmailMatch(old(persons[i].userId), persons[i].email, persons[i].eventId, user, deletedEvents) ==>
      mergedInto.None? && unchanged(persons[i])
    ensures IsEmailMatch(old(persons[i].userId), persons[i].email, persons[i].eventId, user, deletedEvents) && mergedInto.None? ==>
      LinkedToUser(persons[i], user.id)
      && forall k :: 0 <= k < |persons| ==> !(old(persons[k].userId) == Some(user.id) && persons[k].eventId == persons[i].eventId)
    ensures mergedInto.Some? ==>
      && IsEmailMatch(old(persons[i].userId), persons[i].email, persons[i].eventId, user, deletedEvents)
      && mergedInto.value < |persons| && mergedInto.value != i
      && persons[mergedInto.value].eventId == persons[i].eventId
      && persons[mergedInto.value].userId == Some(user.id)
      && MergedPerson(persons[mergedInto.value], persons[i])
  {
    var person := persons[i];
    mergedInto := None;
    if IsEmailMatch(person.userId, person.email, person.eventId, user, deletedEvents) {
      var existing := FindLinkedPerson(persons, user.id, person.eventId);
      match existing
      case None =>
        person.userId := Some(user.id);
      case Some(e) =>
        persons[e].MergePersonInfo(person);
        mergedInto := Some(e);
    }
  }

  // ---------------------------------------------------------------------------
  // Person links of an object and its `submit` role

  /** A person link of a contribution or an event, with its person's user id
      and email. */
  datatype PersonLink = PersonLink(id: int, personUserId: Option<int>, personEmail: string)

  function LinkPrincipal(l: PersonLink): Option<Principal>
  {
    PrincipalOf(l.personUserId, l.personEmail)
  }

  /** `is_submitter`: the link's person has the `submit` role on the object,
      by `has_role`, through its user's entry or its email's entry. */
  predicate IsSubmitter(acl: Acl, l: PersonLink)
  {
    HasRole(l.personUserId, l.personEmail, Submit, acl)
  }

  /** The links of a (link, is-submitter) mapping, in its order. */
  function Keys(value: seq<(PersonLink, bool)>): (r: seq<PersonLink>)
    ensures |r| == |value| && forall i :: 0 <= i < |value| ==> r[i] == value[i].0
  {
    seq(|value|, i requires 0 <= i < |value| => value[i].0)
  }

  /** The getter of `person_link_data`: each link with whether its person
      may submit. */
  function LinkData(links: seq<PersonLink>, acl: Acl): (r: seq<(PersonLink, bool)>)
    ensures Keys(r) == links
    ensures forall i :: 0 <= i < |links| ==> r[i].1 == IsSubmitter(acl, links[i])
  {
    seq(|links|, i requires 0 <= i < |links| => (links[i], IsSubmitter(acl, links[i])))
  }

  /** The first loop of the setter: each previous link that is not in the new
      mapping and whose person has a principal loses `submit`. */
  function RevokeRemoved(acl: Acl, links: seq<PersonLink>, keys: seq<PersonLink>): Acl
    decreases |links|
  {
    if links == [] then acl
    else
      var before := RevokeRemoved(acl, links[..|links| - 1], keys);
      var l := links[|links| - 1];
      if l in keys || LinkPrincipal(l).None? then before
      else UpdatePrincipal(before, LinkPrincipal(l).value, {}, {Submit})
  }

  /** One step of the second loop: the link's principal gains `submit` when
      the flag is set and loses it otherwise; a person without a principal is
      skipped. */
  function ApplySubmitFlag(acl: Acl, entry: (PersonLink, bool)): Acl
  {
    match LinkPrincipal(entry.0)
    case None => acl
    case Some(p) => if entry.1 then UpdatePrincipal(acl, p, {Submit}, {}) else UpdatePrincipal(acl, p, {}, {Submit})
  }

  /** The second loop of the setter, over the new mapping in order. */
  function ApplySubmitFlags(acl: Acl, value: seq<(PersonLink, bool)>): Acl
    decreases |value|
  {
    if value == [] then acl
    else ApplySubmitFlag(ApplySubmitFlags(acl, value[..|value| - 1]), value[|value| - 1])
  }

  /** An object with person links (`PersonLinkDataMixin`) and its ACL. */
  class PersonLinkHolder {
    var personLinks: seq<PersonLink>
    var acl: Acl

    constructor (personLinks: seq<PersonLink>, acl: Acl)
      ensures this.personLinks == personLinks && this.acl == acl
    {
      this.personLinks := personLinks;
      this.acl := acl;
    }

    /** `person_link_data`, read. */
    function PersonLinkData(): seq<(PersonLink, bool)>
      reads this
    {
      LinkData(personLinks, acl)
    }

    /** `person_link_data`, written: the links become exactly those of
        `value`, previous links left out lose `submit`, and each new link's
        principal gains or loses `submit` as its flag says. */
    method SetPersonLinkData(value: seq<(PersonLink, bool)>)
      modifies this
      ensures personLinks == Keys(value)
      ensures acl == ApplySubmitFlags(RevokeRemoved(old(acl), old(personLinks), Keys(value)), value)
    {
      var keys := Keys(value);
      var links := personLinks;
      var a := acl;
      for i := 0 to |links|
        invariant a == RevokeRemoved(old(acl), links[..i], keys)
      {
        assert links[..i + 1][..i] == links[..i];
        var l := links[i];
        if l !in keys {
          var principal := LinkPrincipal(l);
          if principal.Some? {
            a := UpdatePrincipal(a, principal.value, {}, {Submit});
          }
        }
      }
      assert links[..|links|] == links;
      personLinks := keys;
      ghost var revoked := a;
      for i := 0 to |value|
        invariant a == ApplySubmitFlags(revoked, value[..i])
      {
        assert value[..i + 1][..i] == value[..i];
        var (l, isSubmitter) := value[i];
        var principal := LinkPrincipal(l);
        if principal.Some? {
          if isSubmitter {
            a := UpdatePrincipal(a, principal.value, {Submit}, {});
          } else {
            a := UpdatePrincipal(a, principal.value, {}, {Submit});
          }
        }
      }
      assert value[..|value|] == value;
      acl := a;
    }
  }

  /** The first loop of the setter touches no role but `submit`. */
  lemma {:induction false} RevokeTouchesOnlySubmit(acl: Acl, links: seq<PersonLink>, keys: seq<PersonLink>, p: Principal)
    ensures RolesOf(RevokeRemoved(acl, links, keys), p) - {Submit} == RolesOf(acl, p) - {Submit}
  {
    if links != [] {
      RevokeTouchesOnlySubmit(acl, links[..|links| - 1], keys, p);
    }
  }

  /** The second loop of the setter touches no role but `submit`. */
  lemma {:induction false} FlagsTouchOnlySubmit(acl: Acl, value: seq<(PersonLink, bool)>, p: Principal)
    ensures RolesOf(ApplySubmitFlags(acl, value), p) - {Submit} == RolesOf(acl, p) - {Submit}
  {
    if value != [] {
      FlagsTouchOnlySubmit(acl, value[..|value| - 1], p);
    }
  }

  /** The last entry of the mapping for a principal decides whether it ends
      with `submit`. */
  lemma {:induction false} LastFlagDecides(acl: Acl, value: seq<(PersonLink, bool)>, i: nat, p: Principal)
    requires i < |value| && LinkPrincipal(value[i].0) == Some(p)
    requires forall j :: i < j < |value| ==> LinkPrincipal(value[j].0) != Some(p)
    ensures Submit in RolesOf(ApplySubmitFlags(acl, value), p) <==> value[i].1
  {
    var front := value[..|value| - 1];
    if i < |value| - 1 {
      assert forall j :: i < j < |front| ==> front[j] == value[j];
      LastFlagDecides(acl, front, i, p);
    }
  }

  /** A principal no entry of the mapping belongs to keeps its roles in the
      second loop. */
  lemma {:induction false} UnlistedPrincipalUntouched(acl: Acl, value: seq<(PersonLink, bool)>, p: Principal)
    requires forall j :: 0 <= j < |value| ==> LinkPrincipal(value[j].0) != Some(p)
    ensures RolesOf(ApplySubmitFlags(acl, value), p) == RolesOf(acl, p)
  {
    if value != [] {
      var front := value[..|value| - 1];
      assert forall j :: 0 <= j < |front| ==> front[j] == value[j];
      UnlistedPrincipalUntouched(acl, front, p);
    }
  }

  /** A previous link left out of the mapping loses `submit` in the first
      loop, and the first loop never grants a role. */
  lemma {:induction false} RemovedLinkLosesSubmit(acl: Acl, links: seq<PersonLink>, keys: seq<PersonLink>, l: PersonLink)
    requires l in links && l !in keys && LinkPrincipal(l).Some?
    ensures Submit !in RolesOf(RevokeRemoved(acl, links, keys), LinkPrincipal(l).value)
  {
    var front := links[..|links| - 1];
    if links[|links| - 1] != l {
      assert l in front by {
        var k :| 0 <= k < |links| && links[k] == l;
        assert front[k] == l;
      }
      RemovedLinkLosesSubmit(acl, front, keys, l);
    }
  }

  /** After the setter, a person whose link was dropped and who is not the
      person of any new link has no `submit` role. */
  lemma DroppedPersonCannotSubmit(acl: Acl, links: seq<PersonLink>, value: seq<(PersonLink, bool)>, l: PersonLink)
    requires l in links && l !in Keys(value) && LinkPrincipal(l).Some?
    requires forall j :: 0 <= j < |value| ==> LinkPrincipal(value[j].0) != LinkPrincipal(l)
    ensures Submit !in RolesOf(ApplySubmitFlags(RevokeRemoved(acl, links, Keys(value)), value), LinkPrincipal(l).value)
  {
    RemovedLinkLosesSubmit(acl, links, Keys(value), l);
    UnlistedPrincipalUntouched(RevokeRemoved(acl, links, Keys(value)), value, LinkPrincipal(l).value);
  }

  /** The entry of email `e` holds no `submit` role and belongs to no link of
      the mapping, so the second loop leaves it without one. */
  predicate EmailEntryIdle(acl: Acl, value: seq<(PersonLink, bool)>, e: string)
  {
    && Submit !in RolesOf(acl, EmailPrincipal(e))
    && forall j :: 0 <= j < |value| ==> LinkPrincipal(value[j].0) != Some(EmailPrincipal(e))
  }

  /** Reading `person_link_data` back after writing it gives the mapping
      written, when no two links of the mapping share a principal, only links
      whose person has a principal are flagged, and the email entry of every
      person whose principal is its user (or who has none) is idle. */
  lemma PersonLinkDataRoundTrip(acl: Acl, value: seq<(PersonLink, bool)>)
    requires forall i :: 0 <= i < |value| && LinkPrincipal(value[i].0).None? ==> !value[i].1
    requires forall i, j :: 0 <= i < j < |value| && LinkPrincipal(value[i].0).Some? ==> LinkPrincipal(value[i].0) != LinkPrincipal(value[j].0)
    requires forall i :: 0 <= i < |value| && value[i].0.personUserId.Some? ==> EmailEntryIdle(acl, value, value[i].0.personEmail)
    requires forall i :: 0 <= i < |value| && LinkPrincipal(value[i].0).None? ==> EmailEntryIdle(acl, value, "")
    ensures LinkData(Keys(value), ApplySubmitFlags(acl, value)) == value
  {
    var after := ApplySubmitFlags(acl, value);
    var r := LinkData(Keys(value), after);
    forall i | 0 <= i < |value| ensures r[i] == value[i] {
      var l := value[i].0;
      HasRoleByEntries(l.personUserId, l.personEmail, Submit, after);
      if LinkPrincipal(l).Some? {
        LastFlagDecides(acl, value, i, LinkPrincipal(l).value);
      }
      if l.personUserId.Some? || LinkPrincipal(l).None? {
        UnlistedPrincipalUntouched(acl, value, EmailPrincipal(l.personEmail));
      }
    }
  }

  /** The getter also accepts the email entry of a person linked to a user:
      unflagging such a person whose email entry holds `submit` still reads
      back as a submitter. */
  lemma EmailEntryKeepsSubmitter()
    ensures var l := PersonLink(1, Some(5), "a@x.org");
      var acl := map[EmailPrincipal("a@x.org") := {Submit}];
      LinkData(Keys([(l, false)]), ApplySubmitFlags(acl, [(l, false)])) == [(l, true)]
  {
    var l := PersonLink(1, Some(5), "a@x.org");
    var acl := map[EmailPrincipal("a@x.org") := {Submit}];
    var value := [(l, false)];
    var after := ApplySubmitFlags(acl, value);
    UnlistedPrincipalUntouched(acl, value, EmailPrincipal("a@x.org"));
    HasRoleByEntries(l.personUserId, l.personEmail, Submit, after);
  }

  /** A person flagged as submitter in the mapping has the `submit` role
      afterwards by `has_role`. */
  lemma FlaggedPersonHasSubmitRole(acl: Acl, value: seq<(PersonLink, bool)>, i: nat)
    requires i < |value| && value[i].1 && LinkPrincipal(value[i].0).Some?
    requires forall j :: i < j < |value| ==> LinkPrincipal(value[j].0) != LinkPrincipal(value[i].0)
    ensures HasRole(value[i].0.personUserId, value[i].0.personEmail, Submit, ApplySubmitFlags(acl, value))
  {
    LastFlagDecides(acl, value, i, LinkPrincipal(value[i].0).value);
    PrincipalRoleGivesRole(value[i].0.personUserId, value[i].0.personEmail, Submit, ApplySubmitFlags(acl, value));
  }
}
