/** The fork between two heads, and what rewriting the number-to-hash index and
    the transaction lookup table from one side of it to the other amounts to. */
module ForkIndex {
  import opened Wrappers
  import opened Ancestry

  datatype Error = HeadMissing | InvalidOldChain | InvalidNewChain | RecoveryFailed
                 | UnknownAncestor | CommitFailed | MissingTd

  datatype Fork = Fork(oldChain: seq<Header>, newChain: seq<Header>, common: Header, deletedTxs: seq<Tx>)

  // ---------------------------------------------------------------- the fork

  /** `chain` lists the blocks from `top` down to, but not including, `bottom`. */
  ghost predicate Descent(s: Store, top: Header, chain: seq<Header>, bottom: Header) {
    && Walk(s, top, |chain|) == Some(bottom)
    && forall i :: 0 <= i < |chain| ==> Walk(s, top, i) == Some(chain[i])
  }

  function TxsOf(chain: seq<Header>): seq<Tx> {
    if chain == [] then [] else TxsOf(chain[..|chain| - 1]) + chain[|chain| - 1].txs
  }

  lemma {:induction false} TxsOfMember(chain: seq<Header>, t: Tx)
    ensures t in TxsOf(chain) <==> exists i :: 0 <= i < |chain| && t in chain[i].txs
  {
    if chain == [] {
    } else {
      TxsOfMember(chain[..|chain| - 1], t);
    }
  }

  ghost predicate Disjoint(a: seq<Header>, b: seq<Header>) {
    forall i, j :: 0 <= i < |a| && 0 <= j < |b| ==> a[i].hash != b[j].hash
  }

  /** A header that shares its hash with a stored one is that header. */
  ghost predicate Addressed(s: Store, b: Header) {
    b.hash != ZERO_HASH && (b.hash in s ==> s[b.hash] == b)
  }

  ghost predicate Meet(s: Store, a: Header, b: Header) {
    exists i: nat, j: nat :: Walk(s, a, i).Some? && Walk(s, a, i) == Walk(s, b, j)
  }

  lemma RootedMeet(s: Store, genesis: Hash, a: Header, b: Header)
    requires Closed(s) && Rooted(s, genesis) && Stored(s, a) && Stored(s, b)
    ensures Meet(s, a, b)
  {
    WalkTotal(s, a, a.number);
    WalkTotal(s, b, b.number);
    assert Walk(s, a, a.number) == Walk(s, b, b.number);
  }

  lemma DescentStep(s: Store, top: Header, chain: seq<Header>, b: Header)
    requires Descent(s, top, chain, b) && ParentOf(s, b).Some?
    ensures Descent(s, top, chain + [b], ParentOf(s, b).value)
  {
    WalkStep(s, top, |chain|);
  }

  /** Blocks met on the way down two distinct walks at one height cannot be
      shared further up, so a missing parent means there is no common ancestor. */
  lemma NoMeet(s: Store, a: Header, b: Header, ca: seq<Header>, cb: seq<Header>, x: Header, y: Header)
    requires Keyed(s) && Addressed(s, a) && Addressed(s, b)
    requires Descent(s, a, ca, x) && Descent(s, b, cb, y) && x.number == y.number
    requires Disjoint(ca + [x], cb + [y])
    requires ParentOf(s, x).None? || ParentOf(s, y).None?
    ensures !Meet(s, a, b)
  {
    forall i: nat, j: nat | Walk(s, a, i).Some? && Walk(s, b, j).Some?
      ensures Walk(s, a, i) != Walk(s, b, j)
    {
      if i <= |ca| && j <= |cb| {
        assert (ca + [x])[i] == Walk(s, a, i).value;
        assert (cb + [y])[j] == Walk(s, b, j).value;
      } else if i > |ca| && j > |cb| {
        WalkStep(s, a, |ca|);
        WalkStep(s, b, |cb|);
        WalkPrefix(s, a, i, |ca| + 1);
        WalkPrefix(s, b, j, |cb| + 1);
      }
    }
  }

  /** Walk one chain down to `height`, collecting its blocks and transactions. */
  method Lower(s: Store, top: Header, height: nat) returns (chain: seq<Header>, txs: seq<Tx>, bottom: Option<Header>)
    requires Keyed(s) && Addressed(s, top) && height <= top.number
    ensures bottom.Some? ==> bottom.value.number == height && Descent(s, top, chain, bottom.value)
    ensures bottom.Some? ==> Addressed(s, bottom.value) && (Stored(s, top) ==> Stored(s, bottom.value))
    ensures txs == TxsOf(chain)
    ensures bottom.None? ==> Walk(s, top, top.number - height).None?
  {
    hide TxsOf;
    chain, txs, bottom := [], [], Some(top);
    EmptyTxs();
    while bottom.Some? && bottom.value.number != height
      invariant bottom.Some? ==> Descent(s, top, chain, bottom.value) && bottom.value.number >= height
      invariant bottom.None? ==> Walk(s, top, top.number - height).None?
      invariant txs == TxsOf(chain)
      decreases if bottom.Some? then bottom.value.number + 1 else 0
    {
      var b := bottom.value;
      LowerStep(s, top, chain, b, height);
      AppendTxs(chain, b);
      chain, txs := chain + [b], txs + b.txs;
      bottom := ParentOf(s, b);
    }
  }

  lemma EmptyTxs()
    ensures TxsOf([]) == []
  {
  }

  lemma AppendTxs(chain: seq<Header>, b: Header)
    ensures TxsOf(chain + [b]) == TxsOf(chain) + b.txs
  {
    assert (chain + [b])[..|chain|] == chain;
  }

  lemma LowerStep(s: Store, top: Header, chain: seq<Header>, b: Header, height: nat)
    requires Descent(s, top, chain, b) && b.number > height
    ensures match ParentOf(s, b)
            case Some(p) => Descent(s, top, chain + [b], p)
            case None => Walk(s, top, top.number - height).None?
  {
    if ParentOf(s, b).Some? {
      DescentStep(s, top, chain, b);
    } else if Walk(s, top, top.number - height).Some? {
      WalkStep(s, top, |chain|);
      WalkPrefix(s, top, top.number - height, |chain| + 1);
    }
  }

  /** The read-only half of `reorg`: bring both chains to one height, then step
      back in lockstep until they share a block. It fails exactly when the two
      walks never meet, and otherwise stops at the highest block they share. */
  method FindFork(s: Store, oldHead: Header, newHead: Header) returns (r: Result<Fork, Error>)
    requires Keyed(s) && Stored(s, oldHead) && Addressed(s, newHead)
    ensures r.Ok? <==> Meet(s, oldHead, newHead)
    ensures r.Ok? ==> IsFork(s, oldHead, newHead, r.value)
    ensures r.Ok? ==> Disjoint(r.value.oldChain, r.value.newChain)
  {
    var height := if oldHead.number > newHead.number then newHead.number else oldHead.number;
    var oldChain, deletedTxs, oldBottom := Lower(s, oldHead, height);
    if oldBottom.None? {
      NoMeetAbove(s, oldHead, newHead, oldHead.number - height);
      return Err(InvalidOldChain);
    }
    var newChain, _, newBottom := Lower(s, newHead, height);
    if newBottom.None? {
      NoMeetAbove(s, newHead, oldHead, newHead.number - height);
      return Err(InvalidNewChain);
    }
    r := Lockstep(s, oldHead, newHead, oldChain, newChain, deletedTxs, oldBottom.value, newBottom.value);
  }

  /** Step back with both chains until they share a block. */
  method Lockstep(s: Store, oldHead: Header, newHead: Header, oldTop: seq<Header>, newTop: seq<Header>, txs: seq<Tx>,
                  oldStart: Header, newStart: Header) returns (r: Result<Fork, Error>)
    requires Keyed(s) && Stored(s, oldHead) && Addressed(s, newHead)
    requires Descent(s, oldHead, oldTop, oldStart) && Descent(s, newHead, newTop, newStart)
    requires oldStart.number == newStart.number && Disjoint(oldTop, newTop) && txs == TxsOf(oldTop)
    ensures r.Ok? <==> Meet(s, oldHead, newHead)
    ensures r.Ok? ==> IsFork(s, oldHead, newHead, r.value)
    ensures r.Ok? ==> Disjoint(r.value.oldChain, r.value.newChain)
  {
    hide Walk, TxsOf, Disjoint;
    var oldChain, newChain, deletedTxs := oldTop, newTop, txs;
    var oldBlock, newBlock := oldStart, newStart;
    while oldBlock.hash != newBlock.hash
      invariant Descent(s, oldHead, oldChain, oldBlock) && Descent(s, newHead, newChain, newBlock)
      invariant oldBlock.number == newBlock.number && Disjoint(oldChain, newChain)
      invariant deletedTxs == TxsOf(oldChain)
      decreases oldBlock.number
    {
      DisjointStep(s, oldHead, newHead, oldChain, newChain, oldBlock, newBlock);
      AppendTxs(oldChain, oldBlock);
      var po, pn := ParentOf(s, oldBlock), ParentOf(s, newBlock);
      if po.None? {
        NoMeet(s, oldHead, newHead, oldChain, newChain, oldBlock, newBlock);
        return Err(InvalidOldChain);
      }
      if pn.None? {
        NoMeet(s, oldHead, newHead, oldChain, newChain, oldBlock, newBlock);
        return Err(InvalidNewChain);
      }
      DescentStep(s, oldHead, oldChain, oldBlock);
      DescentStep(s, newHead, newChain, newBlock);
      oldChain, deletedTxs := oldChain + [oldBlock], deletedTxs + oldBlock.txs;
      newChain := newChain + [newBlock];
      oldBlock, newBlock := po.value, pn.value;
    }
    MeetHere(s, oldHead, newHead, oldChain, newChain, oldBlock, newBlock);
    return Ok(Fork(oldChain, newChain, oldBlock, deletedTxs));
  }

  lemma MeetHere(s: Store, a: Header, b: Header, ca: seq<Header>, cb: seq<Header>, x: Header, y: Header)
    requires Keyed(s) && Stored(s, a) && Addressed(s, b)
    requires Descent(s, a, ca, x) && Descent(s, b, cb, y) && x.hash == y.hash
    ensures x == y && Meet(s, a, b)
  {
    assert Walk(s, a, |ca|).Some? && Walk(s, a, |ca|) == Walk(s, b, |cb|);
  }

  /** A walk that breaks above the height of the other start meets nothing. */
  lemma NoMeetAbove(s: Store, a: Header, b: Header, i: nat)
    requires Walk(s, a, i).None? && a.number - i >= b.number
    ensures !Meet(s, a, b) && !Meet(s, b, a)
  {
    forall k: nat, j: nat | Walk(s, a, k).Some? && Walk(s, b, j).Some?
      ensures Walk(s, a, k) != Walk(s, b, j)
    {
      if k >= i {
        WalkPrefix(s, a, k, i);
      }
    }
  }

  lemma DisjointStep(s: Store, a: Header, b: Header, ca: seq<Header>, cb: seq<Header>, x: Header, y: Header)
    requires Keyed(s) && Stored(s, a) && Addressed(s, b)
    requires Descent(s, a, ca, x) && Descent(s, b, cb, y) && x.number == y.number && x.hash != y.hash
    requires Disjoint(ca, cb)
    ensures Disjoint(ca + [x], cb + [y])
  {
    forall i, j | 0 <= i <= |ca| && 0 <= j <= |cb|
      ensures (ca + [x])[i].hash != (cb + [y])[j].hash
    {
      var u, v := (ca + [x])[i], (cb + [y])[j];
      assert Walk(s, a, i) == Some(u) && Walk(s, b, j) == Some(v);
      assert u.hash == v.hash ==> u == v;
    }
  }

  // ------------------------------------------------- index and lookup table

  /** No transaction occurs in two blocks of one ancestor path. */
  ghost predicate NoReplay(s: Store)
    requires Closed(s)
  {
    forall h, n: nat, m: nat, t ::
      h in s && n < m <= s[h].number && t in AncestorAt(s, s[h], n).txs ==> t !in AncestorAt(s, s[h], m).txs
  }

  /** The lookup table holds exactly the transactions on the path of `head`,
      each under the number of its block. */
  ghost predicate TxIndexed(s: Store, lookup: map<Tx, nat>, head: Header)
    requires Closed(s) && Stored(s, head)
  {
    && (forall t :: t in lookup ==> lookup[t] <= head.number)
    && forall t, n: nat :: n <= head.number ==>
         (t in AncestorAt(s, head, n).txs <==> t in lookup && lookup[t] == n)
  }

  /** The path of `top` runs through `chain` and continues as the path of `bottom`. */
  lemma DescentAncestor(s: Store, top: Header, chain: seq<Header>, bottom: Header, n: nat)
    requires Closed(s) && Stored(s, top) && Descent(s, top, chain, bottom) && n <= top.number
    ensures Stored(s, bottom) && bottom.number == top.number - |chain|
    ensures AncestorAt(s, top, n) == if n <= bottom.number then AncestorAt(s, bottom, n) else chain[top.number - n]
  {
    if n <= bottom.number {
      AncestorOfAncestor(s, top, bottom.number, n);
    }
  }

  /** The block that `reorg` leaves the index at: the parent of the new head, or
      the new head itself when it is already an ancestor of the old one. */
  ghost function Tip(fork: Fork): Header {
    if |fork.newChain| > 1 then fork.newChain[1] else fork.common
  }

  ghost predicate IsFork(s: Store, oldHead: Header, newHead: Header, fork: Fork) {
    && Descent(s, oldHead, fork.oldChain, fork.common)
    && Descent(s, newHead, fork.newChain, fork.common)
    && fork.deletedTxs == TxsOf(fork.oldChain)
  }

  lemma TipOfFork(s: Store, oldHead: Header, newHead: Header, fork: Fork)
    requires Closed(s) && Stored(s, oldHead) && Stored(s, newHead) && IsFork(s, oldHead, newHead, fork)
    ensures Stored(s, Tip(fork)) && Stored(s, fork.common)
    ensures fork.common.number + |fork.oldChain| == oldHead.number
    ensures fork.common.number + |fork.newChain| == newHead.number
    ensures fork.newChain != [] ==> fork.newChain[0] == newHead
    ensures if fork.newChain == [] then Tip(fork) == newHead
            else Tip(fork).number + 1 == newHead.number && Tip(fork).hash == newHead.parent
  {
    if fork.newChain != [] {
      assert Walk(s, newHead, 0) == Some(newHead);
      WalkStep(s, newHead, 0);
    }
  }

  /** The path of the tip follows the old head up to the common block and the
      new chain from there. */
  lemma TipAncestor(s: Store, oldHead: Header, newHead: Header, fork: Fork, n: nat)
    requires Closed(s) && Stored(s, oldHead) && Stored(s, newHead) && IsFork(s, oldHead, newHead, fork)
    requires Stored(s, Tip(fork)) && n <= Tip(fork).number
    ensures n <= fork.common.number ==> n <= oldHead.number && AncestorAt(s, Tip(fork), n) == AncestorAt(s, oldHead, n)
    ensures n > fork.common.number ==>
      1 <= newHead.number - n < |fork.newChain| && AncestorAt(s, Tip(fork), n) == fork.newChain[newHead.number - n]
  {
    TipOfFork(s, oldHead, newHead, fork);
    var tip := Tip(fork);
    DescentAncestor(s, newHead, fork.newChain, fork.common, tip.number);
    assert tip == AncestorAt(s, newHead, tip.number);
    AncestorOfAncestor(s, newHead, tip.number, n);
    DescentAncestor(s, newHead, fork.newChain, fork.common, n);
    if n <= fork.common.number {
      DescentAncestor(s, oldHead, fork.oldChain, fork.common, n);
    }
  }

  /** Height `n` was rewritten by the blocks of `chain` below its first. */
  ghost predicate OnTail(chain: seq<Header>, n: nat) {
    |chain| > 1 && chain[|chain| - 1].number <= n <= chain[1].number
  }

  ghost predicate Consecutive(chain: seq<Header>) {
    forall i :: 0 <= i < |chain| ==> chain[i].number == chain[0].number - i
  }

  /** The index after the tail of `chain` was written over it. */
  ghost predicate IndexOverlay(before: CanonIndex, after: CanonIndex, chain: seq<Header>)
    requires Consecutive(chain)
  {
    && (forall n: nat :: n in after <==> n in before || OnTail(chain, n))
    && forall n: nat :: n in after ==>
         after[n] == if OnTail(chain, n) then chain[chain[0].number - n].hash else before[n]
  }

  /** The lookup table after the tail of `chain` was written over it. */
  ghost predicate LookupOverlay(before: map<Tx, nat>, after: map<Tx, nat>, chain: seq<Header>, from: nat) {
    && (forall t :: t in before ==> t in after)
    && (forall i, t :: from <= i < |chain| && t in chain[i].txs ==> t in after)
    && forall t :: t in after ==>
         (t in before && after[t] == before[t] && forall i :: from <= i < |chain| ==> t !in chain[i].txs)
         || exists i :: from <= i < |chain| && t in chain[i].txs && after[t] == chain[i].number
  }

  /** What the overlay holds at a height, given the shape of the new chain. */
  lemma OverlayAt(before: CanonIndex, written: CanonIndex, chain: seq<Header>, low: nat, n: nat)
    requires Consecutive(chain) && IndexOverlay(before, written, chain)
    requires chain != [] ==> chain[0].number == low + |chain|
    requires n in before || (|chain| > 1 && low < n < low + |chain|)
    ensures n in written
    ensures written[n] == if |chain| > 1 && low < n < low + |chain| then chain[low + |chain| - n].hash else before[n]
  {
    if |chain| > 1 {
      assert chain[|chain| - 1].number == low + 1 && chain[1].number == low + |chain| - 1;
    }
  }

  /** At or below the tip the written index is the path of the tip. */
  lemma ReorgIndexKept(s: Store, oldHead: Header, newHead: Header, fork: Fork,
                       before: CanonIndex, written: CanonIndex, n: nat)
    requires Closed(s) && Stored(s, oldHead) && Stored(s, newHead) && IsFork(s, oldHead, newHead, fork)
    requires IsPath(s, before, oldHead)
    requires Consecutive(fork.newChain) && IndexOverlay(before, written, fork.newChain)
    requires Stored(s, Tip(fork)) && n <= Tip(fork).number
    ensures n in written && written[n] == AncestorAt(s, Tip(fork), n).hash
  {
    hide Walk, AncestorAt, Closed, IsFork, Consecutive, IndexOverlay;
    TipOfFork(s, oldHead, newHead, fork);
    TipAncestor(s, oldHead, newHead, fork, n);
    OverlayAt(before, written, fork.newChain, fork.common.number, n);
  }

  /** Above the tip there is no gap, so the deletion loop removes everything. */
  lemma ReorgIndexGone(s: Store, oldHead: Header, newHead: Header, fork: Fork,
                       before: CanonIndex, written: CanonIndex, n: nat)
    requires Closed(s) && Stored(s, oldHead) && Stored(s, newHead) && IsFork(s, oldHead, newHead, fork)
    requires IsPath(s, before, oldHead)
    requires Consecutive(fork.newChain) && IndexOverlay(before, written, fork.newChain)
    requires Tip(fork).number < n && n in written
    ensures !GapBetween(written, Tip(fork).number, n)
  {
    hide Walk, AncestorAt, IsFork;
    TipOfFork(s, oldHead, newHead, fork);
    assert !OnTail(fork.newChain, n);
    forall gap: nat | Tip(fork).number < gap <= n
      ensures ReadCanonicalHash(written, gap) != ZERO_HASH
    {
      assert !OnTail(fork.newChain, gap);
      assert before[gap] == AncestorAt(s, oldHead, gap).hash;
    }
  }

  lemma ReorgIndex(s: Store, oldHead: Header, newHead: Header, fork: Fork,
                   before: CanonIndex, written: CanonIndex, after: CanonIndex)
    requires Closed(s) && Stored(s, oldHead) && Stored(s, newHead) && IsFork(s, oldHead, newHead, fork)
    requires IsPath(s, before, oldHead)
    requires Consecutive(fork.newChain) && IndexOverlay(before, written, fork.newChain)
    requires IndexPruned(written, after, Tip(fork).number)
    ensures Stored(s, Tip(fork)) && IsPath(s, after, Tip(fork))
  {
    TipOfFork(s, oldHead, newHead, fork);
    forall n: nat | n <= Tip(fork).number
      ensures n in after && after[n] == AncestorAt(s, Tip(fork), n).hash
    {
      ReorgIndexKept(s, oldHead, newHead, fork, before, written, n);
    }
    forall n: nat | n > Tip(fork).number
      ensures n !in after
    {
      if n in written {
        ReorgIndexGone(s, oldHead, newHead, fork, before, written, n);
      }
    }
  }

  /** A transaction is on at most one height of a path. */
  lemma OneHeight(s: Store, head: Header, t: Tx, n: nat, m: nat)
    requires Closed(s) && NoReplay(s) && Stored(s, head) && n <= head.number && m <= head.number
    ensures t in AncestorAt(s, head, n).txs && t in AncestorAt(s, head, m).txs ==> n == m
  {
    assert s[head.hash] == head;
  }

  ghost predicate TxInTail(chain: seq<Header>, t: Tx, i: int) {
    1 <= i < |chain| && t in chain[i].txs
  }

  /** A transaction on the path of the tip is in the table, under its height. */
  lemma ReorgLookupKept(s: Store, oldHead: Header, newHead: Header, fork: Fork,
                        before: map<Tx, nat>, written: map<Tx, nat>, t: Tx, n: nat)
    requires Closed(s) && Stored(s, oldHead) && Stored(s, newHead) && IsFork(s, oldHead, newHead, fork)
    requires NoReplay(s) && TxIndexed(s, before, oldHead) && LookupOverlay(before, written, fork.newChain, 1)
    requires Stored(s, Tip(fork)) && n <= Tip(fork).number && t in AncestorAt(s, Tip(fork), n).txs
    ensures t in written && written[t] == n
    ensures t in fork.deletedTxs ==> exists i :: TxInTail(fork.newChain, t, i)
  {
    hide Walk, AncestorAt, Closed, NoReplay, TxsOf;
    TipOfFork(s, oldHead, newHead, fork);
    TipAncestor(s, oldHead, newHead, fork, n);
    var tip := Tip(fork);
    forall i | TxInTail(fork.newChain, t, i)
      ensures newHead.number - i == n
    {
      TipAncestor(s, oldHead, newHead, fork, newHead.number - i);
      OneHeight(s, tip, t, newHead.number - i, n);
    }
    assert forall i :: 1 <= i < |fork.newChain| && t in fork.newChain[i].txs ==> TxInTail(fork.newChain, t, i);
    if n > fork.common.number {
      assert TxInTail(fork.newChain, t, newHead.number - n);
      var i :| 1 <= i < |fork.newChain| && t in fork.newChain[i].txs && written[t] == fork.newChain[i].number;
    } else {
      TxsOfMember(fork.oldChain, t);
      forall i | 0 <= i < |fork.oldChain|
        ensures t !in fork.oldChain[i].txs
      {
        DescentAncestor(s, oldHead, fork.oldChain, fork.common, oldHead.number - i);
        OneHeight(s, oldHead, t, oldHead.number - i, n);
      }
    }
  }

  /** A transaction left in the table is on the path of the tip. */
  lemma ReorgLookupOnly(s: Store, oldHead: Header, newHead: Header, fork: Fork,
                        before: map<Tx, nat>, written: map<Tx, nat>, t: Tx)
    requires Closed(s) && Stored(s, oldHead) && Stored(s, newHead) && IsFork(s, oldHead, newHead, fork)
    requires TxIndexed(s, before, oldHead) && LookupOverlay(before, written, fork.newChain, 1)
    requires Stored(s, Tip(fork)) && t in written
    requires t in fork.deletedTxs ==> exists i :: TxInTail(fork.newChain, t, i)
    ensures written[t] <= Tip(fork).number && t in AncestorAt(s, Tip(fork), written[t]).txs
  {
    TipOfFork(s, oldHead, newHead, fork);
    if i :| 1 <= i < |fork.newChain| && t in fork.newChain[i].txs && written[t] == fork.newChain[i].number {
      TipAncestor(s, oldHead, newHead, fork, newHead.number - i);
    } else {
      var n := before[t];
      assert forall i :: 1 <= i < |fork.newChain| ==> !TxInTail(fork.newChain, t, i);
      TxsOfMember(fork.oldChain, t);
      DescentAncestor(s, oldHead, fork.oldChain, fork.common, n);
      if n <= fork.common.number {
        TipAncestor(s, oldHead, newHead, fork, n);
      }
    }
  }

  lemma ReorgLookup(s: Store, oldHead: Header, newHead: Header, fork: Fork, added: seq<Tx>,
                    before: map<Tx, nat>, written: map<Tx, nat>, after: map<Tx, nat>)
    requires Closed(s) && Stored(s, oldHead) && Stored(s, newHead) && IsFork(s, oldHead, newHead, fork)
    requires NoReplay(s) && TxIndexed(s, before, oldHead) && LookupOverlay(before, written, fork.newChain, 1)
    requires forall t :: t in added <==> exists i :: TxInTail(fork.newChain, t, i)
    requires after == written - (set t | t in fork.deletedTxs && t !in added)
    ensures Stored(s, Tip(fork)) && TxIndexed(s, after, Tip(fork))
  {
    TipOfFork(s, oldHead, newHead, fork);
    forall t, n: nat | n <= Tip(fork).number && t in AncestorAt(s, Tip(fork), n).txs
      ensures t in after && after[t] == n
    {
      ReorgLookupKept(s, oldHead, newHead, fork, before, written, t, n);
    }
    forall t | t in after
      ensures after[t] <= Tip(fork).number && t in AncestorAt(s, Tip(fork), after[t]).txs
    {
      ReorgLookupOnly(s, oldHead, newHead, fork, before, written, t);
    }
    TxIndexedFrom(s, after, Tip(fork));
  }

  lemma TxIndexedFrom(s: Store, lookup: map<Tx, nat>, head: Header)
    requires Closed(s) && Stored(s, head)
    requires forall t :: t in lookup ==> lookup[t] <= head.number && t in AncestorAt(s, head, lookup[t]).txs
    requires forall t, n: nat :: n <= head.number && t in AncestorAt(s, head, n).txs ==> t in lookup && lookup[t] == n
    ensures TxIndexed(s, lookup, head)
  {
  }

  /** Writing a child of the tip, or the tip itself, as head. */
  lemma WriteHeadIndex(s: Store, tip: Header, head: Header, before: CanonIndex, after: CanonIndex)
    requires Closed(s) && Stored(s, tip) && Stored(s, head) && IsPath(s, before, tip)
    requires head == tip || (head.number == tip.number + 1 && head.parent == tip.hash)
    requires after == before[head.number := head.hash]
    ensures IsPath(s, after, head)
  {
    hide Walk, AncestorAt, Closed;
    ChildPath(s, tip, head);
  }

  lemma WriteHeadLookup(s: Store, tip: Header, head: Header, before: map<Tx, nat>, after: map<Tx, nat>)
    requires Closed(s) && Stored(s, tip) && Stored(s, head) && NoReplay(s) && TxIndexed(s, before, tip)
    requires head == tip || (head.number == tip.number + 1 && head.parent == tip.hash)
    requires after == before + map t | t in head.txs :: head.number
    ensures TxIndexed(s, after, head)
  {
    hide Walk, AncestorAt, Closed, NoReplay;
    ChildPath(s, tip, head);
    forall t, n: nat | n <= head.number && t in AncestorAt(s, head, n).txs
      ensures t in after && after[t] == n
    {
      if t in head.txs {
        OneHeight(s, head, t, n, head.number);
      }
    }
    TxIndexedFrom(s, after, head);
  }

  /** The path of a child is the path of its parent and the child itself. */
  lemma ChildPath(s: Store, tip: Header, head: Header)
    requires Closed(s) && Stored(s, tip) && Stored(s, head)
    requires head == tip || (head.number == tip.number + 1 && head.parent == tip.hash)
    ensures AncestorAt(s, head, head.number) == head
    ensures forall n: nat :: n <= tip.number ==> AncestorAt(s, head, n) == AncestorAt(s, tip, n)
  {
    if head != tip {
      AncestorIsParent(s, head, head.number);
      forall n: nat | n <= tip.number
        ensures AncestorAt(s, head, n) == AncestorAt(s, tip, n)
      {
        AncestorOfAncestor(s, head, tip.number, n);
      }
    }
  }
}
