/** Ancestor hashes: the caching closure handed to the EVM and the index-assisted
    ancestor lookup, both against the naive walk by hash and number. */
module HashWalk {
  import opened Wrappers
  import opened Ancestry

  /** The hash `steps` parents up from (hash, number), if every header on the way
      is there. The header of the last hash need not be. */
  ghost function HashUp(s: Store, hash: Hash, number: int, steps: nat): Option<Hash>
    decreases steps
  {
    if steps == 0 then Some(hash)
    else
      match Lookup(s, hash, number)
      case None => None
      case Some(b) => HashUp(s, b.parent, number - 1, steps - 1)
  }

  lemma {:induction false} HashUpStep(s: Store, hash: Hash, number: int, i: nat)
    requires HashUp(s, hash, number, i).Some?
    ensures HashUp(s, hash, number, i + 1) ==
      match Lookup(s, HashUp(s, hash, number, i).value, number - i)
      case None => None
      case Some(b) => Some(b.parent)
    decreases i
  {
    if i == 0 {
      assert forall b: Header :: HashUp(s, b.parent, number - 1, 0) == Some(b.parent);
    } else {
      HashUpStep(s, Lookup(s, hash, number).value.parent, number - 1, i - 1);
    }
  }

  lemma {:induction false} HashUpBreaks(s: Store, hash: Hash, number: int, i: nat, j: nat)
    requires i <= j && HashUp(s, hash, number, i).None?
    ensures HashUp(s, hash, number, j).None?
    decreases i
  {
    if i > 0 && Lookup(s, hash, number).Some? {
      HashUpBreaks(s, Lookup(s, hash, number).value.parent, number - 1, i - 1, j - 1);
    }
  }

  /** In an ancestor-closed table the walk by hash is the walk by header. */
  lemma {:induction false} HashUpIsWalk(s: Store, b: Header, i: nat)
    requires Closed(s) && Stored(s, b) && i <= b.number
    ensures HashUp(s, b.hash, b.number, i) == Some(AncestorAt(s, b, b.number - i).hash)
    decreases i
  {
    if i == 0 {
      AncestorSelf(s, b);
    } else {
      AncestorSelf(s, b);
      AncestorIsParent(s, b, b.number);
      var p := AncestorAt(s, b, b.number - 1);
      AncestorOfAncestor(s, b, b.number - 1, b.number - i);
      HashUpIsWalk(s, p, i - 1);
    }
  }

  // ----------------------------------------------------------- the hash cache

  /** What a fresh walk from `ref` answers for block `n`; zero when it breaks. */
  ghost function FreshHash(s: Store, ref: Header, n: nat): Hash {
    if ref.number <= n then ZERO_HASH
    else
      match HashUp(s, ref.parent, ref.number - 1, ref.number - n - 1)
      case None => ZERO_HASH
      case Some(h) => h
  }

  /** With the parent of `ref` in an ancestor-closed store it names the ancestors. */
  lemma FreshIsAncestor(s: Store, ref: Header, n: nat)
    requires Closed(s) && Lookup(s, ref.parent, ref.number - 1).Some?
    ensures n >= ref.number ==> FreshHash(s, ref, n) == ZERO_HASH
    ensures n < ref.number ==> Stored(s, s[ref.parent]) && FreshHash(s, ref, n) == AncestorAt(s, s[ref.parent], n).hash
  {
    hide Walk, AncestorAt, HashUp;
    if n < ref.number {
      HashUpIsWalk(s, s[ref.parent], ref.number - 1 - n);
    }
  }

  ghost predicate Cached(s: Store, ref: Header, cache: seq<Hash>) {
    forall i :: 0 <= i < |cache| ==> HashUp(s, ref.parent, ref.number - 1, i) == Some(cache[i])
  }

  /** The closure returned for the block `ref`, with its captured cache. */
  class HashFn {
    const ref: Header
    var cache: seq<Hash>

    constructor (ref: Header)
      ensures this.ref == ref && cache == []
    {
      this.ref := ref;
      cache := [];
    }

    method Get(chain: Store, n: nat) returns (h: Hash)
      requires Cached(chain, ref, cache)
      modifies `cache
      ensures Cached(chain, ref, cache) && old(cache) <= cache
      ensures h == FreshHash(chain, ref, n)
      ensures n >= ref.number ==> h == ZERO_HASH
      ensures Closed(chain) && n < ref.number && Lookup(chain, ref.parent, ref.number - 1).Some? ==>
                Stored(chain, chain[ref.parent]) && h == AncestorAt(chain, chain[ref.parent], n).hash
    {
      if Closed(chain) && Lookup(chain, ref.parent, ref.number - 1).Some? {
        FreshIsAncestor(chain, ref, n);
      }
      if ref.number <= n {
        return ZERO_HASH;
      }
      if |cache| == 0 {
        cache := [ref.parent];
      }
      var idx := ref.number - n - 1;
      if idx < |cache| {
        return cache[idx];
      }
      var last, number := cache[|cache| - 1], ref.number - |cache|;
      while true
        invariant 0 < |cache| <= idx && number == ref.number - |cache| && last == cache[|cache| - 1]
        invariant Cached(chain, ref, cache) && old(cache) <= cache
        decreases number
      {
        HashUpStep(chain, ref.parent, ref.number - 1, |cache| - 1);
        var header := Lookup(chain, last, number);
        if header.None? {
          HashUpBreaks(chain, ref.parent, ref.number - 1, |cache|, idx);
          return ZERO_HASH;
        }
        cache := cache + [header.value.parent];
        last, number := header.value.parent, header.value.number - 1;
        if n == number {
          return last;
        }
      }
    }

    /** Any queries, in any order, through one cache. */
    method Queries(chain: Store, ns: seq<nat>) returns (hs: seq<Hash>)
      requires Cached(chain, ref, cache)
      modifies `cache
      ensures |hs| == |ns|
      ensures forall i :: 0 <= i < |ns| ==> hs[i] == FreshHash(chain, ref, ns[i])
    {
      hs := [];
      for i := 0 to |ns|
        invariant |hs| == i && Cached(chain, ref, cache)
        invariant forall k :: 0 <= k < i ==> hs[k] == FreshHash(chain, ref, ns[k])
      {
        var h := Get(chain, ns[i]);
        hs := hs + [h];
      }
    }
  }

  /** The cache stays right when headers are added to the database meanwhile. */
  lemma CachedGrows(s: Store, t: Store, ref: Header, cache: seq<Hash>)
    requires Cached(s, ref, cache) && forall h :: h in s ==> h in t && t[h] == s[h]
    ensures Cached(t, ref, cache)
  {
    forall i | 0 <= i < |cache|
      ensures HashUp(t, ref.parent, ref.number - 1, i) == Some(cache[i])
    {
      assert HashUp(s, ref.parent, ref.number - 1, i) == Some(cache[i]);
      HashUpGrows(s, t, ref.parent, ref.number - 1, i);
    }
  }

  lemma {:induction false} HashUpGrows(s: Store, t: Store, hash: Hash, number: int, i: nat)
    requires HashUp(s, hash, number, i).Some? && forall h :: h in s ==> h in t && t[h] == s[h]
    ensures HashUp(t, hash, number, i) == HashUp(s, hash, number, i)
    decreases i
  {
    if i == 0 {
    } else {
      HashUpGrows(s, t, Lookup(s, hash, number).value.parent, number - 1, i - 1);
    }
  }

  // --------------------------------------------------------- index-assisted

  /** The walk from (hash, number) is not on the canonical chain for `steps` steps. */
  ghost predicate OffCanon(s: Store, canon: CanonIndex, hash: Hash, number: nat, steps: nat) {
    forall j: nat :: j < steps ==>
      && j <= number && HashUp(s, hash, number, j).Some?
      && ReadCanonicalHash(canon, number - j) != HashUp(s, hash, number, j).value
  }

  ghost predicate MeetsCanon(s: Store, canon: CanonIndex, hash: Hash, number: nat, steps: nat) {
    && steps <= number && HashUp(s, hash, number, steps).Some?
    && ReadCanonicalHash(canon, number - steps) == HashUp(s, hash, number, steps).value
  }

  /** From a canonical block the index answers what the walk would. */
  lemma CanonicalShortcut(s: Store, canon: CanonIndex, head: Header, hash: Hash, number: nat, k: nat)
    requires Closed(s) && Stored(s, head) && IsPath(s, canon, head)
    requires hash != ZERO_HASH && ReadCanonicalHash(canon, number) == hash && k <= number
    ensures HashUp(s, hash, number, k) == Some(ReadCanonicalHash(canon, number - k))
    ensures ReadCanonicalHash(canon, number - k) != ZERO_HASH
  {
    hide Walk, AncestorAt, HashUp;
    var b := AncestorAt(s, head, number);
    CanonicalAncestor(s, canon, head, b);
    HashUpIsWalk(s, b, k);
    assert Stored(s, AncestorAt(s, b, number - k));
  }

  lemma {:induction false} HashUpCompose(s: Store, hash: Hash, number: int, i: nat, j: nat)
    requires HashUp(s, hash, number, i).Some?
    ensures HashUp(s, HashUp(s, hash, number, i).value, number - i, j) == HashUp(s, hash, number, i + j)
    decreases i
  {
    if i == 0 {
    } else {
      HashUpCompose(s, Lookup(s, hash, number).value.parent, number - 1, i - 1, j);
    }
  }

  lemma OffCanonStart(s: Store, canon: CanonIndex, hash: Hash, number: nat)
    ensures HashUp(s, hash, number, 0) == Some(hash) && OffCanon(s, canon, hash, number, 0)
  {
  }

  lemma OffCanonStep(s: Store, canon: CanonIndex, hash: Hash, number: nat, steps: nat)
    requires OffCanon(s, canon, hash, number, steps) && steps <= number && HashUp(s, hash, number, steps).Some?
    requires ReadCanonicalHash(canon, number - steps) != HashUp(s, hash, number, steps).value
    ensures OffCanon(s, canon, hash, number, steps + 1)
  {
  }

  lemma ZeroHasNoHeader(s: Store, number: nat)
    requires Closed(s)
    ensures Lookup(s, ZERO_HASH, number).None?
  {
  }

  lemma ParentNotZero(s: Store, hash: Hash, number: nat)
    requires Closed(s) && Lookup(s, hash, number).Some? && number > 0
    ensures Lookup(s, hash, number).value.parent != ZERO_HASH
  {
  }

  /** A path index reads as zero exactly above its head. */
  lemma ZeroAboveHead(s: Store, canon: CanonIndex, head: Header, number: nat, k: nat)
    requires Closed(s) && Stored(s, head) && IsPath(s, canon, head) && k <= number
    ensures ReadCanonicalHash(canon, number) == ZERO_HASH <==> number > head.number
    ensures ReadCanonicalHash(canon, number - k) == ZERO_HASH <==> number - k > head.number
    ensures number - k <= head.number ==> ReadCanonicalHash(canon, number - k) == AncestorAt(s, head, number - k).hash
  {
    hide Walk, AncestorAt;
    if number - k <= head.number {
      assert Stored(s, AncestorAt(s, head, number - k));
    }
    if number <= head.number {
      assert Stored(s, AncestorAt(s, head, number));
    }
  }

  /** The Nth ancestor of (hash, number). An empty answer is the zero hash. Each
      step walked off the canonical chain costs one unit of the budget.

      For a real hash a non-empty answer is the naive one, and an empty answer
      means that the walk breaks or the budget ran out. The zero hash is the
      exception: above the head the index reads as zero too, so it is taken for
      canonical and a canonical hash comes back although it has no ancestor. */
  method GetAncestor(s: Store, canon: CanonIndex, ghost head: Header, hash: Hash, number: nat, ancestor: nat, budget: nat)
    returns (h: Hash, n: nat, left: nat, ghost steps: nat)
    requires Closed(s) && Stored(s, head) && IsPath(s, canon, head)
    ensures ancestor > number ==> h == ZERO_HASH
    ensures h != ZERO_HASH ==> n == number - ancestor
    ensures hash != ZERO_HASH && h != ZERO_HASH ==> HashUp(s, hash, number, ancestor) == Some(h)
    ensures hash != ZERO_HASH && h == ZERO_HASH && ancestor <= number ==>
      || HashUp(s, hash, number, ancestor).None?
      || HashUp(s, hash, number, ancestor) == Some(ZERO_HASH)
      || (left == 0 && steps == budget < ancestor && OffCanon(s, canon, hash, number, steps + 1))
    ensures hash == ZERO_HASH ==> (h != ZERO_HASH <==> 2 <= ancestor <= number && number - ancestor <= head.number < number)
    ensures hash == ZERO_HASH && h != ZERO_HASH ==> h == AncestorAt(s, head, number - ancestor).hash
    ensures left + steps == budget && OffCanon(s, canon, hash, number, steps)
    ensures hash != ZERO_HASH && h != ZERO_HASH && ancestor != 1 ==>
      steps == ancestor || MeetsCanon(s, canon, hash, number, steps)
  {
    hide HashUp, OffCanon, Closed, IsPath, Stored;
    left, steps := budget, 0;
    OffCanonStart(s, canon, hash, number);
    ZeroHasNoHeader(s, number);
    if ancestor > number {
      return ZERO_HASH, 0, left, steps;
    }
    if ancestor == 1 {
      HashUpStep(s, hash, number, 0);
      var header := Lookup(s, hash, number);
      if header.Some? {
        return header.value.parent, number - 1, left, steps;
      }
      return ZERO_HASH, 0, left, steps;
    }
    h, n := hash, number;
    var rest := ancestor;
    while rest != 0
      invariant 0 <= rest && rest + steps == ancestor <= number && n == number - steps && left + steps == budget
      invariant HashUp(s, hash, number, steps) == Some(h)
      invariant OffCanon(s, canon, hash, number, steps)
      invariant h == ZERO_HASH ==> steps == 0
      invariant hash == ZERO_HASH ==> steps == 0
      decreases rest
    {
      if ReadCanonicalHash(canon, n) == h {
        if h != ZERO_HASH {
          CanonicalShortcut(s, canon, head, h, n, rest);
          HashUpCompose(s, hash, number, steps, rest);
        } else {
          ZeroAboveHead(s, canon, head, n, rest);
        }
        return ReadCanonicalHash(canon, n - rest), n - rest, left, steps;
      }
      OffCanonStep(s, canon, hash, number, steps);
      if left == 0 {
        if h == ZERO_HASH {
          ZeroAboveHead(s, canon, head, n, rest);
        }
        return ZERO_HASH, 0, left, steps;
      }
      HashUpStep(s, hash, number, steps);
      var header := Lookup(s, h, n);
      left, rest, steps := left - 1, rest - 1, steps + 1;
      if header.None? {
        HashUpBreaks(s, hash, number, steps, ancestor);
        if h == ZERO_HASH {
          ZeroAboveHead(s, canon, head, n, rest + 1);
        }
        return ZERO_HASH, 0, left, steps;
      }
      ParentNotZero(s, h, n);
      h, n := header.value.parent, n - 1;
    }
  }

  /** A chain of the genesis alone, asked for the second ancestor of the zero hash at
      height two: the answer is the genesis, although the walk finds nothing. */
  method ZeroHashAnswered() returns (h: Hash)
    ensures h == 1
    ensures HashUp(map[1 := Header(1, ZERO_HASH, 0, 0, 0, 0, [])], ZERO_HASH, 2, 2).None?
  {
    var genesis := Header(1, ZERO_HASH, 0, 0, 0, 0, []);
    var s: Store, canon: CanonIndex := map[1 := genesis], map[0 := 1];
    AncestorSelf(s, genesis);
    var answer, _, _, _ := GetAncestor(s, canon, genesis, ZERO_HASH, 2, 2, 0);
    h := answer;
  }
}
