/** Processing the transactions of a block in order, against one gas pool. */
module Processor {
  import opened Wrappers
  import opened Gas
  import opened Settlement

  datatype Receipt = Receipt(cumulativeGasUsed: nat, gasUsed: nat, failed: bool)

  datatype BlockError = BadSender(index: nat) | Rejected(index: nat, cause: Error)

  datatype Processed = Processed(receipts: seq<Receipt>, usedGas: nat)

  function GasSum(receipts: seq<Receipt>): nat {
    if receipts == [] then 0 else GasSum(receipts[..|receipts| - 1]) + receipts[|receipts| - 1].gasUsed
  }

  lemma GasSumAppend(receipts: seq<Receipt>, x: Receipt)
    ensures GasSum(receipts + [x]) == GasSum(receipts) + x.gasUsed
  {
    assert (receipts + [x])[..|receipts|] == receipts;
  }

  lemma BurnAdds(block: Block, a: nat, b: nat)
    ensures Burn(block, a + b) == Burn(block, a) + Burn(block, b)
  {
    if block.baseFee.Some? {
      assert (a + b) * block.baseFee.value == a * block.baseFee.value + b * block.baseFee.value;
    }
  }

  /** The cumulative gas of every receipt is the sum up to it. */
  ghost predicate Cumulative(receipts: seq<Receipt>) {
    forall i :: 0 <= i < |receipts| ==> receipts[i].cumulativeGasUsed == GasSum(receipts[..i + 1])
  }

  lemma CumulativeAppend(receipts: seq<Receipt>, x: Receipt)
    requires Cumulative(receipts) && x.cumulativeGasUsed == GasSum(receipts) + x.gasUsed
    ensures Cumulative(receipts + [x])
  {
    GasSumAppend(receipts, x);
    var more := receipts + [x];
    forall i | 0 <= i < |more|
      ensures more[i].cumulativeGasUsed == GasSum(more[..i + 1])
    {
      if i < |receipts| {
        assert more[..i + 1] == receipts[..i + 1];
      } else {
        assert more[..i + 1] == more;
      }
    }
  }

  /** After every prefix, what the pool still holds and the gas used make up the limit. */
  ghost predicate PoolsAgree(pools: seq<nat>, receipts: seq<Receipt>, gasLimit: nat) {
    && |pools| == |receipts| + 1
    && forall i :: 0 <= i < |pools| ==> pools[i] + GasSum(receipts[..i]) == gasLimit
  }

  lemma PoolsAppend(pools: seq<nat>, receipts: seq<Receipt>, gasLimit: nat, pool: nat, x: Receipt)
    requires PoolsAgree(pools, receipts, gasLimit) && pool + GasSum(receipts) + x.gasUsed == gasLimit
    ensures PoolsAgree(pools + [pool], receipts + [x], gasLimit)
  {
    GasSumAppend(receipts, x);
    var more := receipts + [x];
    forall i | 0 <= i < |pools| + 1
      ensures (pools + [pool])[i] + GasSum(more[..i]) == gasLimit
    {
      if i < |pools| {
        assert more[..i] == receipts[..i];
      } else {
        assert more[..i] == more;
      }
    }
  }

  /** `worlds` are the worlds between the transactions: each transaction is applied to
      the one before it, with the outcome its receipt reports. */
  ghost predicate Replays(txs: seq<Tx>, block: Block, evms: nat -> Evm, worlds: seq<World>, receipts: seq<Receipt>) {
    && |worlds| == |receipts| + 1 && |receipts| <= |txs|
    && forall i :: 0 <= i < |receipts| ==>
                     && TransactionToMessage(txs[i], block.baseFee).Some?
                     && Applied(TransactionToMessage(txs[i], block.baseFee).value, block, worlds[i], evms(i),
                                worlds[i + 1], Outcome(receipts[i].gasUsed, receipts[i].failed))
  }

  lemma ReplaysAppend(txs: seq<Tx>, block: Block, evms: nat -> Evm, worlds: seq<World>, receipts: seq<Receipt>,
                      m: Message, w: World, x: Receipt)
    requires Replays(txs, block, evms, worlds, receipts) && |receipts| < |txs|
    requires TransactionToMessage(txs[|receipts|], block.baseFee) == Some(m)
    requires Applied(m, block, worlds[|receipts|], evms(|receipts|), w, Outcome(x.gasUsed, x.failed))
    ensures Replays(txs, block, evms, worlds + [w], receipts + [x])
  {
    hide Applied, TransactionToMessage;
  }

  lemma ReplaysNothing(txs: seq<Tx>, block: Block, evms: nat -> Evm, w: World)
    ensures Replays(txs, block, evms, [w], [])
  {
  }

  lemma NothingUsed(block: Block, gasLimit: nat)
    ensures GasSum([]) == 0 && Burn(block, 0) == 0 && Cumulative([]) && PoolsAgree([gasLimit], [], gasLimit)
  {
    if block.baseFee.Some? {
      assert 0 * block.baseFee.value == 0;
    }
  }

  /** A transaction has a sender and passes every check on this world and pool. */
  ghost predicate Passes(tx: Tx, block: Block, w: World, pool: nat) {
    && TransactionToMessage(tx, block.baseFee).Some?
    && var m := TransactionToMessage(tx, block.baseFee).value;
       PreCheckError(m, block, w, pool).None? && Payable(m, block.rules)
  }

  /** Apply all transactions in order. It succeeds exactly when every transaction passes
      on the world and pool its predecessors left, and fails at the first that does not.
      Through every prefix gas is accounted for; over the whole block ether is conserved
      up to the burnt base fees. */
  method Process(txs: seq<Tx>, gasLimit: Uint64, block: Block, state: StateDB, evms: nat -> Evm)
    returns (r: Result<Processed, BlockError>, ghost done: seq<Receipt>, ghost pools: seq<nat>, ghost worlds: seq<World>)
    requires ValidBlock(block) && (forall i :: Conserving(evms(i)))
    requires forall i :: 0 <= i < |txs| ==> |txs[i].data| <= MAX_UINT64
    modifies state
    ensures Replays(txs, block, evms, worlds, done) && PoolsAgree(pools, done, gasLimit) && Cumulative(done)
    ensures |worlds| == |pools| == |done| + 1 && worlds[0] == old(state.world)
    ensures forall i :: 0 <= i < |done| ==> Passes(txs[i], block, worlds[i], pools[i])
    ensures r.Ok? <==> |done| == |txs|
    ensures r.Err? ==> !Passes(txs[|done|], block, worlds[|done|], pools[|done|])
    ensures r.Err? ==> r.error.index == |done| && (r.error.BadSender? <==> txs[|done|].sender.None?)
    ensures r.Ok? ==> r.value.receipts == done && worlds[|txs|] == state.world
    ensures r.Ok? ==> r.value.usedGas == GasSum(r.value.receipts) <= gasLimit
    ensures r.Ok? ==> Total(state.world.balances) + Burn(block, r.value.usedGas) == old(Total(state.world.balances))
    ensures r.Ok? && old(Solvent(state.world.balances)) ==> Solvent(state.world.balances)
    ensures r.Err? && r.error.Rejected? ==>
      r.error.cause != InsufficientFundsForTransfer && r.error.cause != Panic
  {
    hide Total, Burn, Solvent, GasSum, Cumulative, PoolsAgree, Conserving, PreCheckError, Payable, Priced, Applied, Replays,
         Balance, EffectiveTip, Nonce, IntrinsicOf, Min;
    var gp := new GasPool(gasLimit);
    var receipts: seq<Receipt>, usedGas := [], 0;
    done, pools, worlds := [], [gasLimit], [state.world];
    ReplaysNothing(txs, block, evms, state.world);
    NothingUsed(block, gasLimit);
    for i := 0 to |txs|
      invariant |receipts| == i && done == receipts && usedGas == GasSum(receipts) && gp.gas + usedGas == gasLimit
      invariant Cumulative(receipts) && PoolsAgree(pools, receipts, gasLimit) && |pools| == i + 1 && pools[i] == gp.gas
      invariant Total(state.world.balances) + Burn(block, usedGas) == old(Total(state.world.balances))
      invariant old(Solvent(state.world.balances)) ==> Solvent(state.world.balances)
      invariant Replays(txs, block, evms, worlds, receipts)
      invariant |worlds| == i + 1 && worlds[0] == old(state.world) && worlds[i] == state.world
      invariant forall k :: 0 <= k < i ==> Passes(txs[k], block, worlds[k], pools[k])
      invariant fresh(gp)
    {
      var msg := TransactionToMessage(txs[i], block.baseFee);
      if msg.None? {
        return Err(BadSender(i)), done, pools, worlds;
      }
      var st := new StateTransition(msg.value, block, gp, state);
      var outcome, _, _ := st.TransitionDb(evms(i));
      if outcome.Err? {
        return Err(Rejected(i, outcome.error)), done, pools, worlds;
      }
      var used := outcome.value.usedGas;
      BurnAdds(block, usedGas, used);
      usedGas := usedGas + used;
      var receipt := Receipt(usedGas, used, outcome.value.failed);
      CumulativeAppend(receipts, receipt);
      GasSumAppend(receipts, receipt);
      PoolsAppend(pools, receipts, gasLimit, gp.gas, receipt);
      ReplaysAppend(txs, block, evms, worlds, receipts, msg.value, state.world, receipt);
      receipts, pools, worlds := receipts + [receipt], pools + [gp.gas], worlds + [state.world];
      done := receipts;
    }
    return Ok(Processed(receipts, usedGas)), done, pools, worlds;
  }
}
