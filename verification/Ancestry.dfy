/** The content-addressed forest of headers and the naive parent walk.

    Every fast or incremental structure of the node (the number-to-hash index,
    the section heads, the hash cache, the replay loops) is specified against
    `Walk`, which follows parent pointers one block at a time.
 */
module Ancestry {

  import opened Wrappers

  type Hash = nat
  type Tx = nat
  const ZERO_HASH: Hash := 0

  /** A header; `txs` stands for the transaction root, which commits to the
      block's transaction list. */
  datatype Header = Header(hash: Hash, parent: Hash, number: nat, difficulty: nat,
                           time: nat, root: Hash, txs: seq<Tx>)

  /** The header table of the database. */
  type Store = map<Hash, Header>

  /** The canonical number-to-hash table of the database. */
  type CanonIndex = map<nat, Hash>

  /** A database lookup by hash and number; an absent row is `None`. A number
      below zero stands for the wrapped uint64, at which nothing is stored. */
  function Lookup(s: Store, hash: Hash, number: int): Option<Header> {
    if hash in s && s[hash].number == number then Some(s[hash]) else None
  }

  function ParentOf(s: Store, b: Header): Option<Header> {
    Lookup(s, b.parent, b.number - 1)
  }

  /** A missing entry of the canonical table reads as the zero hash. */
  function ReadCanonicalHash(canon: CanonIndex, number: nat): Hash {
    if number in canon then canon[number] else ZERO_HASH
  }

  /** The rows of the header table are keyed by the hash of their content. */
  ghost predicate Keyed(s: Store) {
    forall h :: h in s ==> s[h].hash == h && h != ZERO_HASH
  }

  /** Every header but a genesis has its parent in the table. */
  ghost predicate Closed(s: Store) {
    && Keyed(s)
    && forall h :: h in s && s[h].number > 0 ==> s[h].parent in s && s[s[h].parent].number == s[h].number - 1
  }

  /** `genesis` is the only header with number zero. */
  ghost predicate Rooted(s: Store, genesis: Hash) {
    && genesis in s
    && s[genesis].number == 0 && s[genesis].parent == ZERO_HASH
    && forall h :: h in s && s[h].number == 0 ==> h == genesis
  }

  ghost predicate Stored(s: Store, b: Header) {
    b.hash in s && s[b.hash] == b
  }

  /** Each header is the parent of the next one. */
  predicate Contiguous(chain: seq<Header>) {
    forall i :: 0 < i < |chain| ==> chain[i].parent == chain[i - 1].hash && chain[i].number == chain[i - 1].number + 1
  }

  ghost predicate AllStored(s: Store, chain: seq<Header>) {
    forall i :: 0 <= i < |chain| ==> Stored(s, chain[i])
  }

  /** Every row of `s` is in `t`. */
  ghost predicate Extends(s: Store, t: Store) {
    forall h :: h in s ==> h in t && t[h] == s[h]
  }

  /** The naive parent walk: `steps` parents up from `b`, if they are all there. */
  ghost function Walk(s: Store, b: Header, steps: nat): (r: Option<Header>)
    ensures r.Some? ==> r.value.number == b.number - steps
    ensures r.Some? && Keyed(s) && Stored(s, b) ==> Stored(s, r.value)
    ensures r.Some? && Keyed(s) && steps > 0 ==> Stored(s, r.value)
    decreases steps
  {
    if steps == 0 then Some(b)
    else
      match ParentOf(s, b)
      case None => None
      case Some(p) => Walk(s, p, steps - 1)
  }

  lemma {:induction false} WalkCompose(s: Store, b: Header, i: nat, j: nat)
    requires Walk(s, b, i).Some?
    ensures Walk(s, Walk(s, b, i).value, j) == Walk(s, b, i + j)
    decreases i
  {
    if i == 0 {
    } else {
      WalkCompose(s, ParentOf(s, b).value, i - 1, j);
    }
  }

  lemma {:induction false} WalkStep(s: Store, b: Header, i: nat)
    requires Walk(s, b, i).Some?
    ensures Walk(s, b, i + 1) == ParentOf(s, Walk(s, b, i).value)
  {
    WalkCompose(s, b, i, 1);
    var c := Walk(s, b, i).value;
    assert Walk(s, c, 1) == ParentOf(s, c) by {
      if ParentOf(s, c).Some? {
        assert Walk(s, ParentOf(s, c).value, 0) == ParentOf(s, c);
      }
    }
  }

  lemma {:induction false} WalkTotal(s: Store, b: Header, i: nat)
    requires Closed(s) && Stored(s, b) && i <= b.number
    ensures Walk(s, b, i).Some?
    decreases i
  {
    if i == 0 {
    } else {
      WalkTotal(s, ParentOf(s, b).value, i - 1);
    }
  }

  /** A walk that reached `i` steps also reached every shorter distance. */
  lemma {:induction false} WalkPrefix(s: Store, b: Header, i: nat, j: nat)
    requires j <= i && Walk(s, b, i).Some?
    ensures Walk(s, b, j).Some?
    decreases i
  {
    if j == 0 {
    } else {
      WalkPrefix(s, ParentOf(s, b).value, i - 1, j - 1);
    }
  }

  /** The ancestor-or-self of `b` at height `n`. */
  ghost function AncestorAt(s: Store, b: Header, n: nat): (r: Header)
    requires Closed(s) && Stored(s, b) && n <= b.number
    ensures Stored(s, r) && r.number == n
  {
    WalkTotal(s, b, b.number - n);
    Walk(s, b, b.number - n).value
  }

  lemma AncestorSelf(s: Store, b: Header)
    requires Closed(s) && Stored(s, b)
    ensures AncestorAt(s, b, b.number) == b
  {
  }

  lemma AncestorOfAncestor(s: Store, b: Header, m: nat, n: nat)
    requires Closed(s) && Stored(s, b) && n <= m <= b.number
    ensures AncestorAt(s, AncestorAt(s, b, m), n) == AncestorAt(s, b, n)
  {
    WalkTotal(s, b, b.number - m);
    WalkCompose(s, b, b.number - m, m - n);
  }

  lemma AncestorIsParent(s: Store, b: Header, n: nat)
    requires Closed(s) && Stored(s, b) && 0 < n <= b.number
    ensures AncestorAt(s, b, n).parent == AncestorAt(s, b, n - 1).hash
  {
    WalkTotal(s, b, b.number - n);
    WalkStep(s, b, b.number - n);
  }

  /** The index is exactly the ancestor path of `head`: nothing is missing at or
      below it, nothing is left above it. */
  ghost predicate IsPath(s: Store, canon: CanonIndex, head: Header)
    requires Closed(s) && Stored(s, head)
  {
    && (forall n: nat :: n in canon <==> n <= head.number)
    && forall n: nat :: n in canon && n <= head.number ==> canon[n] == AncestorAt(s, head, n).hash
  }

  /** An entry of a path index names an ancestor whose own path is the part of
      the index below it. */
  lemma CanonicalAncestor(s: Store, canon: CanonIndex, head: Header, b: Header)
    requires Closed(s) && Stored(s, head) && IsPath(s, canon, head) && Stored(s, b)
    requires ReadCanonicalHash(canon, b.number) == b.hash
    ensures b.number <= head.number && AncestorAt(s, head, b.number) == b
    ensures forall n: nat :: n <= b.number ==> n in canon && canon[n] == AncestorAt(s, b, n).hash
  {
    assert b.hash != ZERO_HASH;
    var a := AncestorAt(s, head, b.number);
    assert a.hash == b.hash;
    forall n: nat | n <= b.number
      ensures n in canon && canon[n] == AncestorAt(s, b, n).hash
    {
      AncestorOfAncestor(s, head, b.number, n);
    }
  }

  /** A walk depends only on the rows at or below its start. */
  lemma {:induction false} WalkElsewhere(s: Store, t: Store, b: Header, i: nat)
    requires Closed(s) && Stored(s, b) && i <= b.number
    requires forall h :: h in s && s[h].number <= b.number ==> h in t && t[h] == s[h]
    ensures Walk(t, b, i) == Walk(s, b, i)
    decreases i
  {
    if i == 0 {
    } else {
      WalkElsewhere(s, t, ParentOf(s, b).value, i - 1);
    }
  }

  ghost predicate GapBetween(canon: CanonIndex, low: nat, high: nat) {
    exists gap: nat :: low < gap <= high && ReadCanonicalHash(canon, gap) == ZERO_HASH
  }

  /** The index after every entry above `number` up to the first gap was deleted. */
  ghost predicate IndexPruned(before: CanonIndex, after: CanonIndex, number: nat) {
    && (forall n: nat :: n in after <==> n in before && (n <= number || GapBetween(before, number, n)))
    && forall n: nat :: n in after ==> after[n] == before[n]
  }

  /** The numbers a "delete until gap" loop removes above `number`. */
  method EntriesAbove(canon: CanonIndex, number: nat) returns (dropped: set<nat>)
    ensures forall n: nat :: n in dropped <==> n in canon && n > number && !GapBetween(canon, number, n)
  {
    dropped := {};
    var i := number + 1;
    while ReadCanonicalHash(canon, i) != ZERO_HASH
      invariant i > number && dropped <= canon.Keys
      invariant forall n: nat :: n in dropped <==> number < n < i
      invariant forall n: nat :: number < n < i ==> ReadCanonicalHash(canon, n) != ZERO_HASH
      decreases canon.Keys - dropped
    {
      assert i in canon.Keys - dropped;
      dropped := dropped + {i};
      i := i + 1;
    }
    assert forall n: nat :: n > number ==> (GapBetween(canon, number, n) <==> n >= i);
  }

  /** A path index has no gap, so the loop removes everything above. */
  lemma PathHasNoGap(s: Store, canon: CanonIndex, head: Header, low: nat, high: nat)
    requires Closed(s) && Stored(s, head) && IsPath(s, canon, head) && high in canon
    ensures !GapBetween(canon, low, high)
  {
    hide Walk, AncestorAt;
    forall gap: nat | low < gap <= high
      ensures ReadCanonicalHash(canon, gap) != ZERO_HASH
    {
      assert Stored(s, AncestorAt(s, head, gap));
    }
  }
}
