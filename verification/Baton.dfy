/** Refresh-token lineages as a baton race.
  *
  * A lineage is rooted at the request that logged the user in or exchanged a code. Its baton is
  * either a live (unrevoked) token or a request that has taken a token and not yet minted the
  * next one. Four moves exist: drop things, take a live token, start a lineage, mint a token.
  * Everything here is about these moves alone; the OAuth protocol is shown to make no others. */
module Baton {
  import opened Basics

  datatype Owner = Owner(user: string, client: string)

  datatype Lineage = Lineage(root: nat, parent: Option<Digest>, owner: Owner)

  datatype Race = Race(live: map<Digest, Owner>,
                       hold: map<nat, Lineage>,
                       roots: map<nat, Owner>,
                       rootOf: map<Digest, nat>,
                       parent: map<Digest, Digest>)

  datatype Move = Drop | Take(q: nat, token: Digest) | Start(q: nat, owner: Owner) | Mint(q: nat, token: Digest)

  predicate SubMap<K, V(==)>(small: map<K, V>, big: map<K, V>) {
    forall k :: k in small ==> k in big && small[k] == big[k]
  }

  predicate Drops(a: Race, b: Race) {
    && SubMap(b.live, a.live) && SubMap(b.hold, a.hold)
    && b.roots == a.roots && b.rootOf == a.rootOf && b.parent == a.parent
  }

  predicate Takes(a: Race, b: Race, q: nat, t: Digest) {
    && t in a.live && t in a.rootOf && q !in a.hold
    && b == a.(live := a.live - {t}, hold := a.hold[q := Lineage(a.rootOf[t], Some(t), a.live[t])])
  }

  predicate Starts(a: Race, b: Race, q: nat, o: Owner) {
    && q !in a.hold && q !in a.roots
    && b == a.(hold := a.hold[q := Lineage(q, None, o)], roots := a.roots[q := o])
  }

  predicate Mints(a: Race, b: Race, q: nat, t: Digest) {
    && q in a.hold && t !in a.rootOf
    && b == Race(a.live[t := a.hold[q].owner], a.hold - {q}, a.roots, a.rootOf[t := a.hold[q].root],
                 if a.hold[q].parent.Some? then a.parent[t := a.hold[q].parent.value] else a.parent)
  }

  predicate Next(a: Race, b: Race, m: Move) {
    match m
    case Drop => Drops(a, b)
    case Take(q, t) => Takes(a, b, q, t)
    case Start(q, o) => Starts(a, b, q, o)
    case Mint(q, t) => Mints(a, b, q, t)
  }

  /** Every token and request belongs to a started lineage and carries that lineage's owner. */
  ghost predicate Owned(a: Race) {
    && (forall t :: t in a.rootOf ==> a.rootOf[t] in a.roots)
    && (forall t :: t in a.live ==> t in a.rootOf && a.live[t] == a.roots[a.rootOf[t]])
    && (forall q :: q in a.hold ==> a.hold[q].root in a.roots && a.hold[q].owner == a.roots[a.hold[q].root])
  }

  /** One baton per lineage. */
  ghost predicate OneBaton(a: Race) {
    && (forall t, u | t in a.live && u in a.live && t in a.rootOf && u in a.rootOf ::
          a.rootOf[t] == a.rootOf[u] ==> t == u)
    && (forall p, q :: p in a.hold && q in a.hold && a.hold[p].root == a.hold[q].root ==> p == q)
    && (forall t, q :: t in a.live && t in a.rootOf && q in a.hold ==> a.rootOf[t] != a.hold[q].root)
  }

  /** Taken tokens are dead, and have either one child or one taker, never both. */
  ghost predicate OneChild(a: Race) {
    && (forall c :: c in a.parent ==> c in a.rootOf && a.parent[c] in a.rootOf
                                      && a.parent[c] !in a.live && a.rootOf[c] == a.rootOf[a.parent[c]])
    && (forall c, d :: c in a.parent && d in a.parent && a.parent[c] == a.parent[d] ==> c == d)
    && (forall q :: q in a.hold && a.hold[q].parent.Some? ==>
                      && a.hold[q].parent.value in a.rootOf && a.hold[q].parent.value !in a.live
                      && a.rootOf[a.hold[q].parent.value] == a.hold[q].root)
    && (forall q, c :: q in a.hold && a.hold[q].parent.Some? && c in a.parent ==>
                         a.parent[c] != a.hold[q].parent.value)
  }

  ghost predicate Inv(a: Race) {
    Owned(a) && OneBaton(a) && OneChild(a)
  }

  lemma DropKeeps(a: Race, b: Race)
    requires Inv(a) && Drops(a, b)
    ensures Inv(b)
  {
  }

  lemma TakeKeeps(a: Race, b: Race, q: nat, t: Digest)
    requires Inv(a) && Takes(a, b, q, t)
    ensures Inv(b)
  {
    assert Owned(b);
    TakeKeepsOneBaton(a, b, q, t);
    TakeKeepsOneChild(a, b, q, t);
  }

  lemma TakeKeepsOneBaton(a: Race, b: Race, q: nat, t: Digest)
    requires Inv(a) && Takes(a, b, q, t)
    ensures OneBaton(b)
  {
    forall p | p in b.hold && p != q
      ensures b.hold[p].root != b.hold[q].root
    {
      assert p in a.hold && a.rootOf[t] != a.hold[p].root;
    }
  }

  lemma TakeKeepsOneChild(a: Race, b: Race, q: nat, t: Digest)
    requires Inv(a) && Takes(a, b, q, t)
    ensures OneChild(b)
  {
    assert forall c :: c in a.parent ==> a.parent[c] != t;
  }

  lemma StartKeeps(a: Race, b: Race, q: nat, o: Owner)
    requires Inv(a) && Starts(a, b, q, o)
    ensures Inv(b)
  {
    assert Owned(b);
    assert OneBaton(b);
    assert OneChild(b);
  }

  lemma MintKeeps(a: Race, b: Race, q: nat, t: Digest)
    requires Inv(a) && Mints(a, b, q, t)
    ensures Inv(b)
  {
    assert Owned(b);
    assert OneBaton(b);
    MintKeepsOneChild(a, b, q, t);
  }

  lemma MintKeepsOneChild(a: Race, b: Race, q: nat, t: Digest)
    requires Inv(a) && Mints(a, b, q, t)
    ensures OneChild(b)
  {
    forall p | p in b.hold && b.hold[p].parent.Some?
      ensures forall c :: c in b.parent ==> b.parent[c] != b.hold[p].parent.value
    {
      assert a.hold[p].root != a.hold[q].root;
    }
  }

  lemma InvKept(a: Race, b: Race, m: Move)
    requires Inv(a) && Next(a, b, m)
    ensures Inv(b)
  {
    match m
    case Drop => DropKeeps(a, b);
    case Take(q, t) => TakeKeeps(a, b, q, t);
    case Start(q, o) => StartKeeps(a, b, q, o);
    case Mint(q, t) => MintKeeps(a, b, q, t);
  }

  /** Live tokens of a user, and requests holding a baton for that user. */
  function LiveOf(live: map<Digest, Owner>, user: string): set<Digest> {
    set t | t in live && live[t].user == user
  }

  function HoldOf(hold: map<nat, Lineage>, user: string): set<nat> {
    set q | q in hold && hold[q].owner.user == user
  }

  /** Everyone who can still end up with a usable token for the user. */
  function HoldersOf(a: Race, user: string): nat {
    |LiveOf(a.live, user)| + |HoldOf(a.hold, user)|
  }

  function LiveIn(a: Race, root: nat): set<Digest> {
    set t | t in a.live && t in a.rootOf && a.rootOf[t] == root
  }

  function HoldIn(a: Race, root: nat): set<nat> {
    set q | q in a.hold && a.hold[q].root == root
  }

  lemma OneHolderPerLineage(a: Race, root: nat)
    requires Inv(a)
    ensures |LiveIn(a, root)| + |HoldIn(a, root)| <= 1
  {
    AtMostOne(LiveIn(a, root));
    AtMostOne(HoldIn(a, root));
    if t :| t in LiveIn(a, root) {
      assert HoldIn(a, root) == {};
    }
  }

  /** The one move that can add a holder for `user`. */
  function NewHolders(m: Move, user: string): nat {
    One(m.Start? && m.owner.user == user)
  }

  function One(b: bool): nat {
    if b then 1 else 0
  }

  lemma LiveDrop(live: map<Digest, Owner>, t: Digest, user: string)
    requires t in live
    ensures |LiveOf(live, user)| == |LiveOf(live - {t}, user)| + One(live[t].user == user)
  {
    if live[t].user == user {
      assert LiveOf(live, user) == LiveOf(live - {t}, user) + {t};
    } else {
      assert LiveOf(live, user) == LiveOf(live - {t}, user);
    }
  }

  lemma HoldAdd(hold: map<nat, Lineage>, q: nat, l: Lineage, user: string)
    requires q !in hold
    ensures |HoldOf(hold[q := l], user)| == |HoldOf(hold, user)| + One(l.owner.user == user)
  {
    if l.owner.user == user {
      assert HoldOf(hold[q := l], user) == HoldOf(hold, user) + {q};
    } else {
      assert HoldOf(hold[q := l], user) == HoldOf(hold, user);
    }
  }

  lemma MintHolders(a: Race, b: Race, q: nat, t: Digest, user: string)
    requires Mints(a, b, q, t)
    ensures HoldersOf(b, user) <= HoldersOf(a, user)
  {
    assert a.hold == (a.hold - {q})[q := a.hold[q]];
    HoldAdd(a.hold - {q}, q, a.hold[q], user);
    if a.hold[q].owner.user == user {
      SubsetCard(LiveOf(b.live, user), LiveOf(a.live, user) + {t});
    } else {
      SubsetCard(LiveOf(b.live, user), LiveOf(a.live, user));
    }
  }

  /** No move but Start creates holders for a user, and Start creates one. */
  lemma HoldersBounded(a: Race, b: Race, m: Move, user: string)
    requires Next(a, b, m)
    ensures HoldersOf(b, user) <= HoldersOf(a, user) + NewHolders(m, user)
  {
    match m
    case Drop =>
      SubsetCard(LiveOf(b.live, user), LiveOf(a.live, user));
      SubsetCard(HoldOf(b.hold, user), HoldOf(a.hold, user));
    case Take(q, t) =>
      LiveDrop(a.live, t, user);
      HoldAdd(a.hold, q, b.hold[q], user);
    case Mint(q, t) => MintHolders(a, b, q, t, user);
    case Start(q, o) => HoldAdd(a.hold, q, b.hold[q], user);
  }
}
