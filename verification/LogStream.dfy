/** The log notifications of a head change, seen by a subscriber. */
module LogStream {
  import opened Wrappers
  import opened Ancestry
  import opened ForkIndex

  datatype Log = Log(payload: nat, removed: bool)

  /** The logs of each block, transaction by transaction. */
  type Receipts = map<Hash, seq<seq<Log>>>

  const BATCH_LIMIT: nat := 512

  function Flatten(lists: seq<seq<Log>>): seq<Log> {
    if lists == [] then [] else Flatten(lists[..|lists| - 1]) + lists[|lists| - 1]
  }

  lemma {:induction false} FlattenConcat(a: seq<seq<Log>>, b: seq<seq<Log>>)
    ensures Flatten(a + b) == Flatten(a) + Flatten(b)
  {
    if b == [] {
      assert a + b == a;
    } else {
      var c := b[..|b| - 1];
      assert (a + b)[..|a + b| - 1] == a + c;
      FlattenConcat(a, c);
    }
  }

  function Flag(l: Log, removed: bool): Log {
    if removed then l.(removed := true) else l
  }

  function FlagAll(logs: seq<Log>, removed: bool): seq<Log> {
    seq(|logs|, i requires 0 <= i < |logs| => Flag(logs[i], removed))
  }

  lemma FlagAllConcat(a: seq<Log>, b: seq<Log>, removed: bool)
    ensures FlagAll(a + b, removed) == FlagAll(a, removed) + FlagAll(b, removed)
  {
  }

  lemma FlagNone(logs: seq<Log>)
    ensures FlagAll(logs, false) == logs
  {
  }

  function BlockLogs(receipts: Receipts, b: Header): seq<Log> {
    if b.hash in receipts then Flatten(receipts[b.hash]) else []
  }

  /** The logs of a chain listed from its top down, in the order they were emitted. */
  function SegmentLogs(receipts: Receipts, chain: seq<Header>): seq<Log> {
    if chain == [] then [] else SegmentLogs(receipts, chain[1..]) + BlockLogs(receipts, chain[0])
  }

  /** All logs on the path of `head`, oldest first. */
  ghost function PathLogs(s: Store, receipts: Receipts, head: Header): seq<Log>
    requires Closed(s) && Stored(s, head)
    decreases head.number
  {
    (if head.number == 0 then [] else PathLogs(s, receipts, s[head.parent])) + BlockLogs(receipts, head)
  }

  lemma {:induction false} PathLogsSplit(s: Store, receipts: Receipts, top: Header, chain: seq<Header>, bottom: Header)
    requires Closed(s) && Stored(s, top) && Descent(s, top, chain, bottom)
    ensures Stored(s, bottom)
    ensures PathLogs(s, receipts, top) == PathLogs(s, receipts, bottom) + SegmentLogs(receipts, chain)
    decreases |chain|
  {
    hide BlockLogs;
    if chain == [] {
      assert bottom == top;
    } else {
      assert Walk(s, top, 0) == Some(chain[0]);
      WalkPrefix(s, top, |chain|, 1);
      var p := ParentOf(s, top).value;
      forall i | 0 <= i < |chain| - 1
        ensures Walk(s, p, i) == Some(chain[1..][i])
      {
        assert Walk(s, top, i + 1) == Some(chain[i + 1]);
      }
      PathLogsSplit(s, receipts, p, chain[1..], bottom);
    }
  }

  /** A subscriber that holds `held`, withdraws the logs announced as removed from
      its end and appends those announced as new, ends up with `result`. */
  ghost predicate Reconciles(held: seq<Log>, removed: seq<seq<Log>>, added: seq<seq<Log>>, result: seq<Log>) {
    && |Flatten(removed)| <= |held|
    && var keep := |held| - |Flatten(removed)|;
       && Flatten(removed) == FlagAll(held[keep..], true)
       && result == held[..keep] + Flatten(added)
  }

  /** No batch is empty and only the last one may be small. */
  ghost predicate Batched(batches: seq<seq<Log>>) {
    && (forall i :: 0 <= i < |batches| ==> batches[i] != [])
    && forall i :: 0 <= i < |batches| - 1 ==> |batches[i]| > BATCH_LIMIT
  }

  method CollectLogs(receipts: Receipts, b: Header, removed: bool) returns (logs: seq<Log>)
    ensures logs == FlagAll(BlockLogs(receipts, b), removed)
    ensures |logs| == |BlockLogs(receipts, b)|
    ensures forall i :: 0 <= i < |logs| ==>
              && logs[i].payload == BlockLogs(receipts, b)[i].payload
              && logs[i].removed == (removed || BlockLogs(receipts, b)[i].removed)
  {
    logs := [];
    var lists := if b.hash in receipts then receipts[b.hash] else [];
    for i := 0 to |lists|
      invariant logs == FlagAll(Flatten(lists[..i]), removed)
    {
      ghost var before := Flatten(lists[..i]);
      for j := 0 to |lists[i]|
        invariant logs == FlagAll(before + lists[i][..j], removed)
      {
        logs := logs + [Flag(lists[i][j], removed)];
        assert lists[i][..j + 1] == lists[i][..j] + [lists[i][j]];
      }
      assert lists[i][..|lists[i]|] == lists[i];
      assert lists[..i + 1][..i] == lists[..i];
    }
    assert lists[..|lists|] == lists;
  }

  lemma SegmentStep(receipts: Receipts, chain: seq<Header>, i: nat, removed: bool)
    requires i < |chain|
    ensures FlagAll(SegmentLogs(receipts, chain[i..]), removed)
         == FlagAll(SegmentLogs(receipts, chain[i + 1..]), removed) + FlagAll(BlockLogs(receipts, chain[i]), removed)
  {
    assert chain[i..][1..] == chain[i + 1..];
    FlagAllConcat(SegmentLogs(receipts, chain[i + 1..]), BlockLogs(receipts, chain[i]), removed);
  }

  lemma NothingSent(receipts: Receipts, removed: bool)
    ensures Flatten([]) == [] && FlagAll(SegmentLogs(receipts, []), removed) == []
  {
  }

  lemma SendStep(batches: seq<seq<Log>>, batch: seq<Log>)
    ensures Flatten(batches + [batch]) == Flatten(batches) + batch
  {
    assert (batches + [batch])[..|batches|] == batches;
  }

  /** One of the two announcement loops of `reorg`: walk the chain from the bottom
      up to index `from` and send the collected logs in batches. */
  method Announce(receipts: Receipts, chain: seq<Header>, from: nat, removed: bool) returns (batches: seq<seq<Log>>)
    requires from <= |chain|
    ensures Flatten(batches) == FlagAll(SegmentLogs(receipts, chain[from..]), removed)
    ensures Batched(batches)
    ensures forall i :: 0 <= i < |batches| - 1 ==> |batches[i]| > 512
    ensures removed ==> forall i, j :: 0 <= i < |batches| && 0 <= j < |batches[i]| ==> batches[i][j].removed
  {
    hide Flatten, FlagAll, SegmentLogs, BlockLogs;
    batches := [];
    NothingSent(receipts, removed);
    var pending: seq<Log> := [];
    var i := |chain|;
    assert chain[i..] == [];
    while i > from
      invariant from <= i <= |chain|
      invariant Flatten(batches) + pending == FlagAll(SegmentLogs(receipts, chain[i..]), removed)
      invariant forall k :: 0 <= k < |batches| ==> |batches[k]| > BATCH_LIMIT
      invariant removed ==> forall k :: 0 <= k < |pending| ==> pending[k].removed
      invariant removed ==> forall k, j :: 0 <= k < |batches| && 0 <= j < |batches[k]| ==> batches[k][j].removed
    {
      i := i - 1;
      var logs := CollectLogs(receipts, chain[i], removed);
      SegmentStep(receipts, chain, i, removed);
      ghost var sent := Flatten(batches);
      assert sent + (pending + logs) == (sent + pending) + logs;
      if |logs| > 0 {
        pending := pending + logs;
      }
      if |pending| > BATCH_LIMIT {
        SendStep(batches, pending);
        batches := batches + [pending];
        pending := [];
      }
    }
    if |pending| > 0 {
      SendStep(batches, pending);
      batches := batches + [pending];
    }
  }

  /** What the batches of a reorg, followed by the new head's own logs, do to a
      subscriber. When the new head was already canonical its logs come twice. */
  lemma ReorgReconciles(s: Store, receipts: Receipts, oldHead: Header, newHead: Header, fork: Fork,
                        removed: seq<seq<Log>>, reborn: seq<seq<Log>>, headLogs: seq<seq<Log>>)
    requires Closed(s) && Stored(s, oldHead) && Stored(s, newHead) && IsFork(s, oldHead, newHead, fork)
    requires Flatten(removed) == FlagAll(SegmentLogs(receipts, fork.oldChain), true)
    requires Flatten(reborn) == SegmentLogs(receipts, if fork.newChain == [] then [] else fork.newChain[1..])
    requires Flatten(headLogs) == BlockLogs(receipts, newHead)
    ensures Reconciles(PathLogs(s, receipts, oldHead), removed, reborn + headLogs,
              PathLogs(s, receipts, newHead) + if fork.newChain == [] then BlockLogs(receipts, newHead) else [])
  {
    PathLogsSplit(s, receipts, oldHead, fork.oldChain, fork.common);
    var base := PathLogs(s, receipts, fork.common);
    Replaced(base, SegmentLogs(receipts, fork.oldChain), removed, reborn + headLogs);
    FlattenConcat(reborn, headLogs);
    NewPathLogs(s, receipts, newHead, fork.newChain, fork.common);
  }

  /** The path of the new head is the shared path, the reborn blocks and the head. */
  lemma NewPathLogs(s: Store, receipts: Receipts, newHead: Header, chain: seq<Header>, common: Header)
    requires Closed(s) && Stored(s, newHead) && Descent(s, newHead, chain, common)
    ensures Stored(s, common)
    ensures PathLogs(s, receipts, newHead) + (if chain == [] then BlockLogs(receipts, newHead) else [])
         == PathLogs(s, receipts, common)
            + (SegmentLogs(receipts, if chain == [] then [] else chain[1..]) + BlockLogs(receipts, newHead))
  {
    PathLogsSplit(s, receipts, newHead, chain, common);
    if chain != [] {
      assert Walk(s, newHead, 0) == Some(chain[0]);
    }
  }

  lemma Replaced(base: seq<Log>, dropped: seq<Log>, removed: seq<seq<Log>>, added: seq<seq<Log>>)
    requires Flatten(removed) == FlagAll(dropped, true)
    ensures Reconciles(base + dropped, removed, added, base + Flatten(added))
  {
    var held := base + dropped;
    assert held[|base|..] == dropped && held[..|base|] == base;
  }
}
