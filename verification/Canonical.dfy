/** Canonical chain maintenance: `reorg` and the three ways of setting a head.

    The number-to-hash index and the transaction lookup table are updated
    piecemeal; the class invariant says that between calls they equal the naive
    things they speed up: the ancestor path of the head and the transactions on it.
 */
module Canonical {
  import opened Wrappers
  import opened Ancestry
  import opened ForkIndex
  import opened LogStream
  import opened ForkChoice
  import opened Difficulty

  /** The block is the head or one of its ancestors. */
  ghost predicate OnPathOf(s: Store, head: Header, b: Header)
    requires Closed(s) && Stored(s, head)
  {
    b.number <= head.number && AncestorAt(s, head, b.number) == b
  }

  /** On a fork from `oldHead` the new chain is empty exactly for an ancestor. */
  lemma ForkToAncestor(s: Store, oldHead: Header, newHead: Header, fork: Fork)
    requires Closed(s) && Stored(s, oldHead) && Stored(s, newHead)
    requires IsFork(s, oldHead, newHead, fork) && Disjoint(fork.oldChain, fork.newChain)
    ensures fork.newChain == [] <==> OnPathOf(s, oldHead, newHead)
  {
    TipOfFork(s, oldHead, newHead, fork);
    if newHead.number <= oldHead.number {
      DescentAncestor(s, oldHead, fork.oldChain, fork.common, newHead.number);
      if fork.newChain != [] {
        assert Walk(s, newHead, 0) == Some(fork.newChain[0]);
        assert AncestorAt(s, oldHead, newHead.number) == fork.oldChain[oldHead.number - newHead.number];
      }
    }
  }

  /** Adding a block whose parent is known changes no existing path. */
  lemma StoreGrows(s: Store, b: Header, head: Header, n: nat)
    requires Closed(s) && Addressed(s, b) && Stored(s, head) && n <= head.number
    requires Lookup(s, b.parent, b.number - 1).Some?
    ensures var t := s[b.hash := b];
      Closed(t) && Stored(t, head) && AncestorAt(t, head, n) == AncestorAt(s, head, n)
  {
    hide Closed, Walk, Lookup;
    var t := s[b.hash := b];
    StoreStaysClosed(s, b);
    WalkElsewhere(s, t, head, head.number - n);
    AncestorIsWalk(s, head, n);
    AncestorIsWalk(t, head, n);
  }

  lemma StoreStaysClosed(s: Store, b: Header)
    requires Closed(s) && Addressed(s, b) && Lookup(s, b.parent, b.number - 1).Some?
    ensures Closed(s[b.hash := b])
  {
  }

  lemma AncestorIsWalk(s: Store, b: Header, n: nat)
    requires Closed(s) && Stored(s, b) && n <= b.number
    ensures Walk(s, b, b.number - n) == Some(AncestorAt(s, b, n))
  {
    WalkTotal(s, b, b.number - n);
  }

  lemma StoreGrowsIndex(s: Store, b: Header, head: Header, canon: CanonIndex)
    requires Closed(s) && Addressed(s, b) && Stored(s, head) && IsPath(s, canon, head)
    requires Lookup(s, b.parent, b.number - 1).Some?
    ensures var t := s[b.hash := b]; Closed(t) && Stored(t, head) && IsPath(t, canon, head)
  {
    forall n: nat | n <= head.number
      ensures AncestorAt(s[b.hash := b], head, n) == AncestorAt(s, head, n)
    {
      StoreGrows(s, b, head, n);
    }
  }

  lemma StoreGrowsLookup(s: Store, b: Header, head: Header, lookup: map<Tx, nat>)
    requires Closed(s) && Addressed(s, b) && Stored(s, head)
    requires Lookup(s, b.parent, b.number - 1).Some?
    requires NoReplay(s) ==> TxIndexed(s, lookup, head)
    ensures var t := s[b.hash := b]; Closed(t) && Stored(t, head) && (NoReplay(t) ==> TxIndexed(t, lookup, head))
  {
    hide Walk, AncestorAt;
    var t := s[b.hash := b];
    forall h, n: nat | h in s && n <= s[h].number
      ensures AncestorAt(t, s[h], n) == AncestorAt(s, s[h], n)
    {
      StoreGrows(s, b, s[h], n);
    }
    if NoReplay(t) {
      forall h, n: nat, m: nat, x | h in s && n < m <= s[h].number && x in AncestorAt(s, s[h], n).txs
        ensures x !in AncestorAt(s, s[h], m).txs
      {
        assert t[h] == s[h] && x in AncestorAt(t, t[h], n).txs;
      }
      assert s[head.hash] == head;
    }
  }

  lemma ReorgTables(s: Store, oldHead: Header, newHead: Header, fork: Fork, added: seq<Tx>,
                    canon0: CanonIndex, canon1: CanonIndex, canon2: CanonIndex,
                    lookup0: map<Tx, nat>, lookup1: map<Tx, nat>, lookup2: map<Tx, nat>)
    requires Closed(s) && Stored(s, oldHead) && Stored(s, newHead) && IsFork(s, oldHead, newHead, fork)
    requires IsPath(s, canon0, oldHead) && (NoReplay(s) ==> TxIndexed(s, lookup0, oldHead))
    requires Consecutive(fork.newChain) && IndexOverlay(canon0, canon1, fork.newChain)
    requires IndexPruned(canon1, canon2, Tip(fork).number)
    requires LookupOverlay(lookup0, lookup1, fork.newChain, 1)
    requires forall t :: t in added <==> exists i :: TxInTail(fork.newChain, t, i)
    requires lookup2 == lookup1 - (set t | t in fork.deletedTxs && t !in added)
    ensures Stored(s, Tip(fork)) && IsPath(s, canon2, Tip(fork))
    ensures NoReplay(s) ==> TxIndexed(s, lookup2, Tip(fork))
  {
    ReorgIndex(s, oldHead, newHead, fork, canon0, canon1, canon2);
    if NoReplay(s) {
      ReorgLookup(s, oldHead, newHead, fork, added, lookup0, lookup1, lookup2);
    }
  }

  lemma ForkConsecutive(s: Store, oldHead: Header, newHead: Header, fork: Fork)
    requires IsFork(s, oldHead, newHead, fork)
    ensures Consecutive(fork.newChain)
  {
    forall i | 0 <= i < |fork.newChain|
      ensures fork.newChain[i].number == fork.newChain[0].number - i
    {
      assert Walk(s, newHead, i) == Some(fork.newChain[i]) && Walk(s, newHead, 0) == Some(fork.newChain[0]);
    }
  }

  /** The feeds grew by the removed logs of the old chain and the logs of the new
      chain below its head, in emission order and in batches. */
  ghost predicate Announced(receipts: Receipts, fork: Fork, removed0: seq<seq<Log>>, removed1: seq<seq<Log>>,
                            logs0: seq<seq<Log>>, logs1: seq<seq<Log>>)
  {
    && removed0 <= removed1 && logs0 <= logs1
    && var removed, reborn := removed1[|removed0|..], logs1[|logs0|..];
       && Batched(removed) && Batched(reborn)
       && Flatten(removed) == FlagAll(SegmentLogs(receipts, fork.oldChain), true)
       && Flatten(reborn) == SegmentLogs(receipts, if fork.newChain == [] then [] else fork.newChain[1..])
  }

  /** How the state of a head comes about: it is there, or ancestors are executed again
      and stored with their receipts, to the end or not. */
  datatype Recovery = StatePresent | Reexecuted(blocks: seq<(Hash, seq<seq<Log>>)>, complete: bool)

  /** The receipts after storing those of `blocks` that are in the table. */
  function Restored(s: Store, receipts: Receipts, blocks: seq<(Hash, seq<seq<Log>>)>): Receipts {
    if blocks == [] then receipts
    else
      var before, (hash, found) := Restored(s, receipts, blocks[..|blocks| - 1]), blocks[|blocks| - 1];
      if hash in s && s[hash].number > 0 then before[hash := found] else before
  }

  datatype Op = SetHead(hash: Hash, recovery: Recovery)
              | Known(hash: Hash)
              | Insert(block: Header, blockReceipts: seq<seq<Log>>, committed: bool, coin: bool)

  /** A subscriber holding the logs of the old path ends with those of the new
      path, plus the head's logs once more if it was on the old path already. */
  ghost predicate Streamed(s: Store, receipts: Receipts, oldHead: Header, newHead: Header,
                           removed: seq<seq<Log>>, added: seq<seq<Log>>)
    requires Closed(s) && Stored(s, oldHead) && Stored(s, newHead)
  {
    Reconciles(PathLogs(s, receipts, oldHead), removed, added,
      PathLogs(s, receipts, newHead) + if OnPathOf(s, oldHead, newHead) then BlockLogs(receipts, newHead) else [])
  }

  /** So the stream is exact if and only if the new head was not canonical yet or
      has no logs. */
  lemma StreamExact(s: Store, receipts: Receipts, oldHead: Header, newHead: Header,
                    removed: seq<seq<Log>>, added: seq<seq<Log>>)
    requires Closed(s) && Stored(s, oldHead) && Stored(s, newHead)
    requires Streamed(s, receipts, oldHead, newHead, removed, added)
    ensures Reconciles(PathLogs(s, receipts, oldHead), removed, added, PathLogs(s, receipts, newHead))
            <==> !OnPathOf(s, oldHead, newHead) || BlockLogs(receipts, newHead) == []
  {
    hide PathLogs, BlockLogs, OnPathOf, Flatten, FlagAll, Closed;
    var path, extra := PathLogs(s, receipts, newHead), BlockLogs(receipts, newHead);
    assert |path + extra| == |path| + |extra|;
    assert path + [] == path;
  }

  lemma StreamedBy(s: Store, receipts: Receipts, oldHead: Header, newHead: Header, fork: Fork,
                   removed0: seq<seq<Log>>, removed1: seq<seq<Log>>,
                   logs0: seq<seq<Log>>, logs1: seq<seq<Log>>, logs2: seq<seq<Log>>, headLogs: seq<Log>)
    requires Closed(s) && Stored(s, oldHead) && Stored(s, newHead)
    requires IsFork(s, oldHead, newHead, fork) && Disjoint(fork.oldChain, fork.newChain)
    requires Announced(receipts, fork, removed0, removed1, logs0, logs1)
    requires headLogs == BlockLogs(receipts, newHead)
    requires logs2 == if |headLogs| > 0 then logs1 + [headLogs] else logs1
    ensures removed0 <= removed1 && logs0 <= logs2
    ensures Streamed(s, receipts, oldHead, newHead, removed1[|removed0|..], logs2[|logs0|..])
  {
    hide PathLogs, BlockLogs, OnPathOf, FlagAll, Closed, IsFork, Disjoint, SegmentLogs, Batched;
    var last := if |headLogs| > 0 then [headLogs] else [];
    assert Flatten(last) == headLogs by {
      if |headLogs| > 0 {
        SendStep([], headLogs);
      }
    }
    ForkToAncestor(s, oldHead, newHead, fork);
    ReorgReconciles(s, receipts, oldHead, newHead, fork, removed1[|removed0|..], logs1[|logs0|..], last);
    assert logs2[|logs0|..] == logs1[|logs0|..] + last;
  }

  lemma AddressedRow(s: Store, b: Header)
    requires Addressed(s, b)
    ensures b.hash != ZERO_HASH && (b.hash in s ==> s[b.hash] == b)
  {
  }

  /** A stored block's total difficulty is its parent's and its own. */
  lemma SameRows(s: Store, tds: map<Hash, nat>, genesis: Hash, hash: Hash)
    requires Closed(s) && Rooted(s, genesis) && TdExact(s, tds) && hash in s && s[hash].number > 0
    ensures var b := s[hash];
      && Addressed(s, b) && Lookup(s, b.parent, b.number - 1).Some? && b.hash == hash
      && tds[hash] == tds[b.parent] + b.difficulty
  {
    hide Rooted;
    AddHeader(s, tds, genesis, s[hash], tds[s[hash].parent] + s[hash].difficulty);
  }

  lemma StoredIsAddressed(s: Store, b: Header)
    requires Closed(s) && Stored(s, b)
    ensures Keyed(s) && Addressed(s, b)
  {
  }

  /** Extending the head is a fork with nothing to drop. */
  lemma ExtendingFork(s: Store, genesis: Hash, head: Header, block: Header)
    requires Closed(s) && Rooted(s, genesis) && Stored(s, head) && Stored(s, block) && block.parent == head.hash
    ensures IsFork(s, head, block, Fork([], [block], head, [])) && Disjoint([], [block])
    ensures head.number + 1 == block.number
  {
    assert ParentOf(s, block) == Some(head);
    assert Walk(s, block, 1) == Walk(s, head, 0);
  }

  lemma NothingAnnounced(receipts: Receipts, head: Header, block: Header, removed: seq<seq<Log>>, logs: seq<seq<Log>>)
    ensures Announced(receipts, Fork([], [block], head, []), removed, removed, logs, logs)
  {
    assert removed[|removed|..] == [] && logs[|logs|..] == [] && [block][1..] == [];
  }

  lemma WriteHeadTables(s: Store, tip: Header, head: Header, canon: CanonIndex, lookup: map<Tx, nat>)
    requires Closed(s) && Stored(s, tip) && Stored(s, head)
    requires IsPath(s, canon, tip) && (NoReplay(s) ==> TxIndexed(s, lookup, tip))
    requires head == tip || (head.number == tip.number + 1 && head.parent == tip.hash)
    ensures IsPath(s, canon[head.number := head.hash], head)
    ensures NoReplay(s) ==> TxIndexed(s, lookup + map t | t in head.txs :: head.number, head)
  {
    WriteHeadIndex(s, tip, head, canon, canon[head.number := head.hash]);
    if NoReplay(s) {
      WriteHeadLookup(s, tip, head, lookup, lookup + map t | t in head.txs :: head.number);
    }
  }

  lemma StoreGrowsTables(s: Store, genesis: Hash, b: Header, head: Header, canon: CanonIndex, lookup: map<Tx, nat>)
    requires Closed(s) && Rooted(s, genesis) && Addressed(s, b) && Stored(s, head)
    requires Lookup(s, b.parent, b.number - 1).Some?
    requires IsPath(s, canon, head) && (NoReplay(s) ==> TxIndexed(s, lookup, head))
    ensures var t := s[b.hash := b];
      && Closed(t) && Rooted(t, genesis) && Stored(t, b) && Stored(t, head)
      && IsPath(t, canon, head) && (NoReplay(t) ==> TxIndexed(t, lookup, head))
  {
    hide Walk, AncestorAt, IsPath, TxIndexed, NoReplay;
    StoreGrowsIndex(s, b, head, canon);
    StoreGrowsLookup(s, b, head, lookup);
  }

  lemma ExtendsStep(s: Store, t: Store, b: Header)
    requires Extends(s, t) && Addressed(t, b)
    ensures Extends(s, t[b.hash := b])
  {
  }

  /** Height `n` is that of one of `chain[from..]`. */
  ghost predicate Rewritten(chain: seq<Header>, from: nat, n: nat) {
    |chain| > 0 && from <= chain[0].number - n < |chain|
  }

  lemma LookupStep(start: map<Tx, nat>, before: map<Tx, nat>, after: map<Tx, nat>, chain: seq<Header>, i: nat)
    requires i < |chain| && LookupOverlay(start, before, chain, i + 1)
    requires after == before + map t | t in chain[i].txs :: chain[i].number
    ensures LookupOverlay(start, after, chain, i)
  {
    forall t | t in after
      ensures (t in start && after[t] == start[t] && forall k :: i <= k < |chain| ==> t !in chain[k].txs)
           || exists k :: i <= k < |chain| && t in chain[k].txs && after[t] == chain[k].number
    {
      if t !in chain[i].txs {
        assert t in before && after[t] == before[t];
        if k :| i + 1 <= k < |chain| && t in chain[k].txs && before[t] == chain[k].number {
        } else {
          assert forall k :: i <= k < |chain| ==> t !in chain[k].txs;
        }
      }
    }
  }

  lemma AddedStep(chain: seq<Header>, added: seq<Tx>, i: nat)
    requires 1 <= i < |chain|
    requires forall t :: t in added <==> exists k :: k >= i + 1 && TxInTail(chain, t, k)
    ensures forall t :: t in added + chain[i].txs <==> exists k :: k >= i && TxInTail(chain, t, k)
  {
    forall t | t in chain[i].txs
      ensures exists k :: k >= i && TxInTail(chain, t, k)
    {
      assert TxInTail(chain, t, i);
    }
  }

  /** Every transaction of a block gets the block's number, over any older entry. */
  method WriteTxLookupEntries(lookup: map<Tx, nat>, txs: seq<Tx>, number: nat) returns (r: map<Tx, nat>)
    ensures r == lookup + map t | t in txs :: number
  {
    r := lookup;
    for i := 0 to |txs|
      invariant forall t :: t in r <==> t in lookup || t in txs[..i]
      invariant forall t :: t in r ==> r[t] == if t in txs[..i] then number else lookup[t]
    {
      r := r[txs[i] := number];
      assert txs[..i + 1] == txs[..i] + [txs[i]];
    }
    assert txs[..|txs|] == txs;
  }

  lemma OneLog(receipts: Receipts, b: Header, l: Log)
    requires b.hash in receipts && receipts[b.hash] == [[l]]
    ensures BlockLogs(receipts, b) != []
  {
    assert Flatten([[l]]) == Flatten([]) + [l] by {
      assert [[l]][..0] == [];
    }
  }

  class BlockChain {
    const genesis: Hash

    // database tables
    var headers: Store
    var tds: map<Hash, nat>
    var receipts: Receipts
    var canon: CanonIndex
    var txLookup: map<Tx, nat>
    var headBlockHash: Hash
    var headHeaderHash: Hash
    var headFastHash: Hash

    // in-memory markers
    var currentBlock: Header
    var currentHeader: Header

    // what was sent on the feeds
    var removedLogs: seq<seq<Log>>
    var logs: seq<seq<Log>>

    ghost predicate Consistent()
      reads this
    {
      Closed(headers) && Rooted(headers, genesis) && tds.Keys == headers.Keys && TdExact(headers, tds)
    }

    /** The index and the lookup table are those of `head`. */
    ghost predicate IndexesOf(head: Header)
      requires Consistent() && Stored(headers, head)
      reads this
    {
      && IsPath(headers, canon, head)
      && (NoReplay(headers) ==> TxIndexed(headers, txLookup, head))
    }

    ghost predicate HeadIs(head: Header)
      reads this
    {
      && currentBlock == currentHeader == head
      && headBlockHash == headHeaderHash == headFastHash == head.hash
    }

    ghost predicate Valid()
      reads this
    {
      Consistent() && Stored(headers, currentBlock) && HeadIs(currentBlock) && IndexesOf(currentBlock)
    }

    /** What was sent since the feeds stood at `removed` and `sent` is the stream of the
        head change from `oldHead` to `newHead`. */
    ghost predicate StreamedSince(oldHead: Header, newHead: Header, removed: seq<seq<Log>>, sent: seq<seq<Log>>)
      reads this
    {
      && Closed(headers) && Stored(headers, oldHead) && Stored(headers, newHead)
      && removed <= removedLogs && sent <= logs
      && Streamed(headers, receipts, oldHead, newHead, removedLogs[|removed|..], logs[|sent|..])
    }

    constructor (g: Header)
      requires g.number == 0 && g.parent == ZERO_HASH && g.hash != ZERO_HASH && g.txs == []
      ensures Valid() && currentBlock == g && headers == map[g.hash := g]
      ensures removedLogs == [] && logs == []
    {
      genesis := g.hash;
      headers := map[g.hash := g];
      tds := map[g.hash := g.difficulty];
      receipts := map[];
      canon := map[0 := g.hash];
      txLookup := map[];
      headBlockHash, headHeaderHash, headFastHash := g.hash, g.hash, g.hash;
      currentBlock, currentHeader := g, g;
      removedLogs, logs := [], [];
    }

    method WriteHeadBlock(block: Header)
      modifies `canon, `txLookup, `headBlockHash, `headHeaderHash, `headFastHash, `currentBlock, `currentHeader
      ensures canon == old(canon)[block.number := block.hash]
      ensures txLookup == old(txLookup) + map t | t in block.txs :: block.number
      ensures HeadIs(block)
    {
      var batch := WriteTxLookupEntries(txLookup, block.txs, block.number);
      headHeaderHash := block.hash;
      headFastHash := block.hash;
      canon := canon[block.number := block.hash];
      txLookup := batch;
      headBlockHash := block.hash;
      currentHeader := block;
      currentBlock := block;
    }

    /** Write the new chain, except its head, in ascending order. */
    method WriteChain(chain: seq<Header>) returns (added: seq<Tx>)
      requires Consecutive(chain)
      modifies `canon, `txLookup, `headBlockHash, `headHeaderHash, `headFastHash, `currentBlock, `currentHeader
      ensures IndexOverlay(old(canon), canon, chain)
      ensures LookupOverlay(old(txLookup), txLookup, chain, 1)
      ensures forall t :: t in added <==> exists i :: TxInTail(chain, t, i)
    {
      added := [];
      if |chain| <= 1 {
        return;
      }
      var i: nat := |chain|;
      while i > 1
        invariant 1 <= i <= |chain|
        invariant forall n: nat :: n in canon <==> n in old(canon) || Rewritten(chain, i, n)
        invariant forall n: nat :: n in canon ==>
          canon[n] == if Rewritten(chain, i, n) then chain[chain[0].number - n].hash else old(canon)[n]
        invariant LookupOverlay(old(txLookup), txLookup, chain, i)
        invariant forall t :: t in added <==> exists k :: k >= i && TxInTail(chain, t, k)
      {
        i := i - 1;
        ghost var before := txLookup;
        WriteHeadBlock(chain[i]);
        LookupStep(old(txLookup), before, txLookup, chain, i);
        AddedStep(chain, added, i);
        added := added + chain[i].txs;
      }
      assert forall n: nat :: OnTail(chain, n) <==> Rewritten(chain, 1, n);
    }

    /** Drop the lookups of transactions that left the chain and every canonical
        entry above `number` up to the first gap, in one batch. */
    method PruneIndexes(deletedTxs: seq<Tx>, addedTxs: seq<Tx>, number: nat)
      modifies `canon, `txLookup
      ensures txLookup == old(txLookup) - (set t | t in deletedTxs && t !in addedTxs)
      ensures IndexPruned(old(canon), canon, number)
    {
      var dropTxs: set<Tx> := {};
      for k := 0 to |deletedTxs|
        invariant dropTxs == set t | t in deletedTxs[..k] && t !in addedTxs
      {
        if deletedTxs[k] !in addedTxs {
          dropTxs := dropTxs + {deletedTxs[k]};
        }
        assert deletedTxs[..k + 1] == deletedTxs[..k] + [deletedTxs[k]];
      }
      assert deletedTxs[..|deletedTxs|] == deletedTxs;
      var dropped := EntriesAbove(canon, number);
      txLookup := txLookup - dropTxs;
      canon := canon - dropped;
    }

    /** The writing half of `reorg`: move both tables over to the new side. */
    method Rewire(fork: Fork, ghost oldHead: Header, ghost newHead: Header)
      requires IsFork(headers, oldHead, newHead, fork)
      modifies `canon, `txLookup, `headBlockHash, `headHeaderHash, `headFastHash, `currentBlock, `currentHeader
      ensures old(Valid()) && oldHead == old(currentBlock) && Stored(headers, newHead) ==>
                Consistent() && Stored(headers, Tip(fork)) && IndexesOf(Tip(fork))
    {
      hide IsPath, TxIndexed, NoReplay, Closed, IndexOverlay, IndexPruned, LookupOverlay, Consecutive, IsFork, TdExact;
      ForkConsecutive(headers, oldHead, newHead, fork);
      var added := WriteChain(fork.newChain);
      ghost var canon1, lookup1 := canon, txLookup;
      var number := if |fork.newChain| > 1 then fork.newChain[1].number else fork.common.number;
      PruneIndexes(fork.deletedTxs, added, number);
      if old(Valid()) && oldHead == old(currentBlock) && Stored(headers, newHead) {
        ReorgTables(headers, oldHead, newHead, fork, added,
                    old(canon), canon1, canon, old(txLookup), lookup1, txLookup);
      }
    }

    /** Reorganise towards `newHead`, which the caller still has to write. It fails
        exactly when the old head is missing or the chains never meet, and then
        before anything was changed. */
    method Reorg(oldHead: Header, newHead: Header) returns (r: Result<(), Error>, ghost fork: Fork)
      requires Keyed(headers) && Addressed(headers, newHead) && Addressed(headers, oldHead)
      modifies `canon, `txLookup, `headBlockHash, `headHeaderHash, `headFastHash, `currentBlock, `currentHeader,
               `removedLogs, `logs
      ensures r.Ok? <==> Stored(headers, oldHead) && Meet(headers, oldHead, newHead)
      ensures r.Err? ==> unchanged(this)
      ensures r.Ok? ==> IsFork(headers, oldHead, newHead, fork) && Disjoint(fork.oldChain, fork.newChain)
      ensures r.Ok? && old(Valid()) && oldHead == old(currentBlock) && Stored(headers, newHead) ==>
                Consistent() && Stored(headers, Tip(fork)) && IndexesOf(Tip(fork))
      ensures r.Ok? ==> Announced(receipts, fork, old(removedLogs), removedLogs, old(logs), logs)
    {
      hide Walk, Meet, IsFork, Disjoint, IsPath, TxIndexed, NoReplay, Announced, TdExact, Rooted;
      fork := Fork([], [], newHead, []);
      if Lookup(headers, oldHead.hash, oldHead.number).None? {
        return Err(HeadMissing), fork;
      }
      var found := FindFork(headers, oldHead, newHead);
      if found.Err? {
        return Err(found.error), fork;
      }
      fork := found.value;
      Rewire(found.value, oldHead, newHead);
      Publish(found.value);
      return Ok(()), fork;
    }

    /** The notifications of `reorg`: logs of the old chain as removed, logs of the
        new chain below its head as reborn. */
    method Publish(fork: Fork)
      modifies `removedLogs, `logs
      ensures Announced(receipts, fork, old(removedLogs), removedLogs, old(logs), logs)
    {
      var removed := Announce(receipts, fork.oldChain, 0, true);
      assert fork.oldChain[0..] == fork.oldChain;
      removedLogs := removedLogs + removed;
      var from := if |fork.newChain| > 0 then 1 else 0;
      var reborn := Announce(receipts, fork.newChain, from, false);
      FlagNone(SegmentLogs(receipts, fork.newChain[from..]));
      logs := logs + reborn;
      assert removedLogs[|old(removedLogs)|..] == removed && logs[|old(logs)|..] == reborn;
      assert fork.newChain[from..] == if fork.newChain == [] then [] else fork.newChain[1..];
    }

    /** Make a stored block the head, reorganising unless it extends the head. */
    method WriteKnownBlock(block: Header) returns (r: Result<(), Error>, ghost fork: Fork)
      requires Valid() && Stored(headers, block)
      modifies `canon, `txLookup, `headBlockHash, `headHeaderHash, `headFastHash, `currentBlock, `currentHeader,
               `removedLogs, `logs
      ensures r.Ok? && Valid() && currentBlock == block
      ensures IsFork(headers, old(currentBlock), block, fork) && Disjoint(fork.oldChain, fork.newChain)
      ensures Announced(receipts, fork, old(removedLogs), removedLogs, old(logs), logs)
    {
      hide Walk, Meet, IsFork, Disjoint, IsPath, TxIndexed, NoReplay, Announced, Closed, Rooted, Keyed, Stored, Addressed, TdExact;
      var current := currentBlock;
      StoredIsAddressed(headers, current);
      StoredIsAddressed(headers, block);
      if block.parent != current.hash {
        RootedMeet(headers, genesis, current, block);
        r, fork := Reorg(current, block);
        if r.Err? {
          return;
        }
        TipOfFork(headers, current, block, fork);
      } else {
        fork := Fork([], [block], current, []);
        ExtendingFork(headers, genesis, current, block);
        NothingAnnounced(receipts, current, block, removedLogs, logs);
      }
      WriteHeadTables(headers, Tip(fork), block, canon, txLookup);
      WriteHeadBlock(block);
      r := Ok(());
    }

    /** Make a stored block the head and announce its logs. */
    method Adopt(head: Header)
      requires Valid() && Stored(headers, head)
      modifies `canon, `txLookup, `headBlockHash, `headHeaderHash, `headFastHash, `currentBlock, `currentHeader,
               `removedLogs, `logs
      ensures Valid() && currentBlock == head
      ensures StreamedSince(old(currentBlock), head, old(removedLogs), old(logs))
    {
      hide Walk, IsFork, Disjoint, IsPath, TxIndexed, NoReplay, Announced, Streamed, Flatten, FlagAll, BlockLogs,
           Closed, Rooted, Stored, TdExact;
      var _, fork := WriteKnownBlock(head);
      var headLogs := CollectLogs(receipts, head, false);
      FlagNone(BlockLogs(receipts, head));
      ghost var reborn := logs;
      if |headLogs| > 0 {
        logs := logs + [headLogs];
      }
      StreamedBy(headers, receipts, old(currentBlock), head, fork,
                 old(removedLogs), removedLogs, old(logs), reborn, logs, headLogs);
    }

    /** Store an executed block with its total difficulty and receipts. */
    method StoreBlock(block: Header, blockReceipts: seq<seq<Log>>)
      requires Valid() && Addressed(headers, block) && Lookup(headers, block.parent, block.number - 1).Some?
      modifies `tds, `headers, `receipts
      ensures Valid() && Stored(headers, block)
      ensures headers == old(headers)[block.hash := block]
      ensures receipts == old(receipts)[block.hash := blockReceipts]
      ensures tds == old(tds)[block.hash := old(tds)[block.parent] + block.difficulty]
    {
      hide Walk, IsPath, TxIndexed, NoReplay, Closed, Rooted, Stored, Addressed, TdExact;
      AddressedRow(headers, block);
      AddHeader(headers, tds, genesis, block, tds[block.parent] + block.difficulty);
      StoreGrowsTables(headers, genesis, block, currentBlock, canon, txLookup);
      tds := tds[block.hash := tds[block.parent] + block.difficulty];
      headers := headers[block.hash := block];
      receipts := receipts[block.hash := blockReceipts];
    }

    /** Execute stored blocks again: their rows are written a second time, unchanged
        but for the receipts. */
    method Reexecute(blocks: seq<(Hash, seq<seq<Log>>)>)
      requires Valid()
      modifies `tds, `headers, `receipts
      ensures Valid() && headers == old(headers) && tds == old(tds)
      ensures receipts == Restored(headers, old(receipts), blocks)
    {
      hide Closed, Rooted, TdExact, Stored, IsPath, TxIndexed, NoReplay;
      for i := 0 to |blocks|
        invariant Valid() && headers == old(headers) && tds == old(tds)
        invariant receipts == Restored(headers, old(receipts), blocks[..i])
      {
        assert blocks[..i + 1][..i] == blocks[..i];
        var hash, found := blocks[i].0, blocks[i].1;
        if hash in headers && headers[hash].number > 0 {
          SameRows(headers, tds, genesis, hash);
          StoreBlock(headers[hash], found);
        }
      }
      assert blocks[..|blocks|] == blocks;
    }

    /** Make `head` the head on request of the consensus layer and announce its logs,
        after executing ancestors again whose states are missing. Nothing but receipts
        has changed when that fails. */
    method SetCanonical(head: Header, recovery: Recovery) returns (r: Result<Hash, Error>)
      requires Valid() && Stored(headers, head)
      modifies this
      ensures Valid() && headers == old(headers) && tds == old(tds)
      ensures receipts == if recovery.Reexecuted? then Restored(headers, old(receipts), recovery.blocks) else old(receipts)
      ensures r.Err? <==> recovery.Reexecuted? && !recovery.complete
      ensures r.Err? ==>
                unchanged(`canon, `txLookup, `headBlockHash, `headHeaderHash, `headFastHash, `currentBlock, `currentHeader,
                          `removedLogs, `logs)
      ensures r.Ok? ==> r.value == head.hash && currentBlock == head
      ensures r.Ok? ==> StreamedSince(old(currentBlock), head, old(removedLogs), old(logs))
    {
      hide Streamed, Closed, Rooted, Stored, IsPath, TxIndexed, NoReplay, TdExact, Restored;
      if recovery.Reexecuted? {
        Reexecute(recovery.blocks);
        if !recovery.complete {
          return Err(RecoveryFailed);
        }
      }
      Adopt(head);
      return Ok(head.hash);
    }

    /** Store an executed block and, if the fork choice prefers it, make it the head. */
    method WriteBlockAndSetHead(block: Header, blockReceipts: seq<seq<Log>>, committed: bool,
                                ttd: Option<nat>, preserve: Header -> bool, coin: bool) returns (r: Result<bool, Error>)
      requires Valid() && Addressed(headers, block)
      modifies this
      ensures Valid()
      ensures r == Err(UnknownAncestor) <==> Lookup(old(headers), block.parent, block.number - 1).None?
      ensures r == Err(UnknownAncestor) ==> unchanged(this)
      ensures r != Err(UnknownAncestor) ==>
                && headers == old(headers)[block.hash := block]
                && receipts == old(receipts)[block.hash := blockReceipts]
                && tds == old(tds)[block.hash := old(tds)[block.parent] + block.difficulty]
      ensures r.Ok? <==> Lookup(old(headers), block.parent, block.number - 1).Some? && committed
      ensures r.Err? ==> r.error == UnknownAncestor || r.error == CommitFailed
      ensures r.Ok? ==>
                var head, localTd, externTd := old(currentBlock), tds[old(currentBlock).hash], tds[block.hash];
                r.value <==>
                  || (ttd.Some? && externTd >= ttd.value)
                  || externTd > localTd
                  || (externTd == localTd && block.number < head.number)
                  || (externTd == localTd && block.number == head.number && !preserve(head) && (preserve(block) || coin))
      ensures r.Ok? ==> Decided(r.value) == ReorgNeeded(Some(tds[old(currentBlock).hash]), Some(tds[block.hash]), ttd,
                                                        old(currentBlock), block, preserve, coin)
      ensures currentBlock == if r == Ok(true) then block else old(currentBlock)
      ensures r == Ok(true) ==> StreamedSince(old(currentBlock), block, old(removedLogs), old(logs))
      ensures r != Ok(true) ==> removedLogs == old(removedLogs) && logs == old(logs)
    {
      hide Streamed, IsPath, TxIndexed, NoReplay, Closed, Rooted, TdExact, ReorgNeeded;
      if Lookup(headers, block.parent, block.number - 1).None? {
        return Err(UnknownAncestor);
      }
      StoreBlock(block, blockReceipts);
      if !committed {
        return Err(CommitFailed);
      }
      var decision := ReorgNeeded(Some(tds[currentBlock.hash]), Some(tds[block.hash]), ttd,
                                  currentBlock, block, preserve, coin);
      ChoiceIs(tds[currentBlock.hash], tds[block.hash], ttd, currentBlock, block, preserve, coin);
      if decision.reorg {
        Adopt(block);
      }
      return Ok(decision.reorg);
    }

    lemma HeaderStored(h: Hash)
      requires Valid() && h in headers
      ensures Stored(headers, headers[h])
    {
    }

    /** Any run of head changes and insertions, in any order. */
    method Run(ops: seq<Op>, ttd: Option<nat>, preserve: Header -> bool)
      requires Valid()
      modifies this
      ensures Valid() && Extends(old(headers), headers)
    {
      hide Valid, Streamed, IsFork, Disjoint, Announced, Lookup, ReorgNeeded, Stored, Closed, TdExact;
      for i := 0 to |ops|
        invariant Valid() && Extends(old(headers), headers)
      {
        match ops[i]
        case SetHead(hash, recovery) =>
          if hash in headers {
            HeaderStored(hash);
            var _ := SetCanonical(headers[hash], recovery);
          }
        case Known(hash) =>
          if hash in headers {
            HeaderStored(hash);
            var _, _ := WriteKnownBlock(headers[hash]);
          }
        case Insert(block, blockReceipts, committed, coin) =>
          if block.hash != ZERO_HASH && (block.hash in headers ==> headers[block.hash] == block) {
            ExtendsStep(old(headers), headers, block);
            var _ := WriteBlockAndSetHead(block, blockReceipts, committed, ttd, preserve, coin);
          }
      }
    }
  }

  /** A block with one log on top of the genesis, set canonical while it already is the
      head: its log is sent again, so the stream does not lead to the logs of the path. */
  method HeadLogsRepeat() returns (c: BlockChain, removed: seq<seq<Log>>, added: seq<seq<Log>>)
    ensures fresh(c) && c.Valid()
    ensures Streamed(c.headers, c.receipts, c.currentBlock, c.currentBlock, removed, added)
    ensures !Reconciles(PathLogs(c.headers, c.receipts, c.currentBlock), removed, added,
                        PathLogs(c.headers, c.receipts, c.currentBlock))
  {
    hide Reconciles, PathLogs, IsPath, TxIndexed, NoReplay, TdExact, Rooted, Streamed;
    var block := Header(2, 1, 1, 1, 0, 0, []);
    c := new BlockChain(Header(1, ZERO_HASH, 0, 1, 0, 0, []));
    var stored := c.WriteBlockAndSetHead(block, [[Log(7, false)]], true, None, _ => false, false);
    assert c.currentBlock == block;
    removed, added := c.removedLogs, c.logs;
    var _ := c.SetCanonical(block, StatePresent);
    OneLog(c.receipts, block, Log(7, false));
    AncestorSelf(c.headers, block);
    StreamExact(c.headers, c.receipts, block, block, c.removedLogs[|removed|..], c.logs[|added|..]);
    removed, added := c.removedLogs[|removed|..], c.logs[|added|..];
  }
}
