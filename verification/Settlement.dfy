/** Applying one message: buying gas, executing, refunding, paying the coinbase. */
module Settlement {
  import opened Wrappers
  import opened Gas

  type Address = nat
  type Balances = map<Address, int>

  const TWO_256: nat := 0x1_0000_0000_0000_0000_0000_0000_0000_0000_0000_0000_0000_0000_0000_0000_0000_0000
  const MAX_INIT_CODE_SIZE: nat := 49152
  const REFUND_QUOTIENT: nat := 2
  const REFUND_QUOTIENT_EIP3529: nat := 5

  // ------------------------------------------------------------------- ether

  function Balance(b: Balances, a: Address): int {
    if a in b then b[a] else 0
  }

  function Credit(b: Balances, a: Address, amount: int): Balances {
    b[a := Balance(b, a) + amount]
  }

  /** All ether there is. */
  ghost function Total(b: Balances): int {
    if b == map[] then 0
    else
      var a :| a in b;
      b[a] + Total(b - {a})
  }

  lemma {:induction false} TotalWithout(b: Balances, a: Address)
    requires a in b
    ensures Total(b) == b[a] + Total(b - {a})
    decreases |b|
  {
    var c :| c in b && Total(b) == b[c] + Total(b - {c});
    if c != a {
      TotalWithout(b - {c}, a);
      TotalWithout(b - {a}, c);
      assert b - {c} - {a} == b - {a} - {c};
    }
  }

  lemma TotalCredit(b: Balances, a: Address, amount: int)
    ensures Total(Credit(b, a, amount)) == Total(b) + amount
  {
    var c := Credit(b, a, amount);
    TotalWithout(c, a);
    if a in b {
      TotalWithout(b, a);
      assert c - {a} == b - {a};
    } else {
      assert c - {a} == b;
    }
  }

  ghost predicate Solvent(b: Balances) {
    forall a :: a in b ==> b[a] >= 0
  }

  // ---------------------------------------------------------------- messages

  /** What a transaction offers for gas: one price, or a tip and a cap. */
  datatype Pricing = Single(price: nat) | Dynamic(tip: nat, cap: nat)

  datatype Tx = Tx(sender: Option<Address>, to: Option<Address>, nonce: Uint64, value: nat, gas: Uint64,
                   pricing: Pricing, data: Bytes, list: AccessList)

  datatype Message = Message(from: Address, to: Option<Address>, nonce: Uint64, value: nat, gasLimit: Uint64,
                             gasPrice: nat, feeCap: nat, tipCap: nat, data: Bytes, list: AccessList)

  function FeeCap(p: Pricing): nat {
    match p case Single(price) => price case Dynamic(_, cap) => cap
  }

  function TipCap(p: Pricing): nat {
    match p case Single(price) => price case Dynamic(tip, _) => tip
  }

  function Min(x: int, y: int): int {
    if x > y then y else x
  }

  /** The gas price a block with this base fee charges. */
  ghost predicate Priced(m: Message, baseFee: Option<nat>) {
    && m.gasPrice <= m.feeCap
    && match baseFee
       case None => m.gasPrice == m.feeCap
       case Some(fee) => m.gasPrice == Min(m.tipCap + fee, m.feeCap)
  }

  /** The message of a transaction; `None` when the sender cannot be recovered. */
  function TransactionToMessage(tx: Tx, baseFee: Option<nat>): (r: Option<Message>)
    ensures r.Some? <==> tx.sender.Some?
    ensures r.Some? ==> Priced(r.value, baseFee) && r.value.data == tx.data && r.value.gasLimit == tx.gas
    ensures r.Some? ==> r.value.from == tx.sender.value && r.value.to == tx.to && r.value.value == tx.value
    ensures r.Some? ==> r.value.feeCap == FeeCap(tx.pricing) && r.value.tipCap == TipCap(tx.pricing)
    ensures r.Some? ==> r.value.nonce == tx.nonce && r.value.list == tx.list
  {
    var feeCap, tipCap := FeeCap(tx.pricing), TipCap(tx.pricing);
    var price := match baseFee case None => feeCap case Some(fee) => Min(tipCap + fee, feeCap);
    if tx.sender.None? then None
    else Some(Message(tx.sender.value, tx.to, tx.nonce, tx.value, tx.gas, price, feeCap, tipCap, tx.data, tx.list))
  }

  datatype Rules = Rules(homestead: bool, istanbul: bool, london: bool, shanghai: bool)

  /** The block a message runs in. Header validation has checked that there is a base
      fee exactly from the London rules on. */
  datatype Block = Block(rules: Rules, baseFee: Option<nat>, coinbase: Address)

  predicate ValidBlock(block: Block) {
    block.rules.london <==> block.baseFee.Some?
  }

  // --------------------------------------------------------------- execution

  datatype World = World(balances: Balances, nonces: map<Address, Uint64>, code: set<Address>)

  function Nonce(w: World, a: Address): Uint64 {
    if a in w.nonces then w.nonces[a] else 0
  }

  datatype Execution = Execution(world: World, gasLeft: nat, refund: Uint64, failed: bool)

  /** The virtual machine: from the world, the message and the gas to a new world. */
  type Evm = (World, Message, nat) -> Execution

  /** It neither mints nor burns, overdraws nobody and returns no more gas than it got. */
  ghost predicate Conserving(evm: Evm) {
    forall w, m, gas ::
      var x := evm(w, m, gas);
      && x.gasLeft <= gas
      && Total(x.world.balances) == Total(w.balances)
      && (Solvent(w.balances) ==> Solvent(x.world.balances))
  }

  datatype Error = NonceTooHigh | NonceTooLow | NonceMax | SenderNoEOA | FeeCapVeryHigh | TipVeryHigh | TipAboveFeeCap
                 | FeeCapTooLow | InsufficientFunds | GasLimitReached | GasOverflow | IntrinsicGasTooLow
                 | InsufficientFundsForTransfer | MaxInitCodeSizeExceeded | Panic

  datatype Outcome = Outcome(usedGas: nat, failed: bool)

  /** What a block burns for the gas used. */
  function Burn(block: Block, gas: nat): nat {
    match block.baseFee case None => 0 case Some(fee) => gas * fee
  }

  /** The part of the gas price that goes to the coinbase. */
  function EffectiveTip(m: Message, block: Block): int {
    match block.baseFee case None => m.gasPrice case Some(fee) => Min(m.tipCap, m.feeCap - fee)
  }

  /** Payments of a message that uses `used` of `limit` gas at `price`: all that the
      sender does not get back goes to the coinbase or is burnt. */
  lemma FeesBalance(limit: nat, used: nat, price: int, tip: int, fee: int)
    requires used <= limit && price == tip + fee
    ensures -(limit * price) + (limit - used) * price + used * tip == -(used * fee)
  {
    assert (limit - used) * price == limit * price - used * price;
    assert used * price == used * tip + used * fee;
  }

  lemma TipPlusFee(m: Message, block: Block)
    requires ValidBlock(block) && Priced(m, block.baseFee)
    requires block.baseFee.Some? ==> m.feeCap >= block.baseFee.value
    ensures EffectiveTip(m, block) >= 0
    ensures m.gasPrice == EffectiveTip(m, block) + if block.baseFee.Some? then block.baseFee.value else 0
  {
  }

  lemma SolventCredit(b: Balances, a: Address, amount: int)
    requires amount >= 0
    ensures Solvent(b) ==> Solvent(Credit(b, a, amount))
  {
  }

  lemma FeesSettle(m: Message, block: Block, used: nat)
    requires ValidBlock(block) && Priced(m, block.baseFee) && FeeError(m, block).None? && used <= m.gasLimit
    ensures used * EffectiveTip(m, block) >= 0
    ensures (m.gasLimit - used) * m.gasPrice + used * EffectiveTip(m, block) + Burn(block, used)
         == m.gasLimit * m.gasPrice
  {
    TipPlusFee(m, block);
    var fee := if block.baseFee.Some? then block.baseFee.value else 0;
    FeesBalance(m.gasLimit, used, m.gasPrice, EffectiveTip(m, block), fee);
  }

  lemma CostWithinCap(m: Message)
    requires m.gasPrice <= m.feeCap
    ensures m.gasLimit * m.gasPrice <= m.gasLimit * m.feeCap
  {
  }

  lemma ShareIsSmaller(used: nat, quotient: nat)
    requires quotient > 0
    ensures 0 <= used / quotient <= used
  {
    var q := used / quotient;
    assert q * quotient <= used;
    MulMonotone(1, quotient, q);
    assert 1 * q == q && quotient * q == q * quotient;
  }

  // --------------------------------------------------------- the transition

  /** The state database a block works on. */
  class StateDB {
    var world: World

    constructor (w: World)
      ensures world == w
    {
      world := w;
    }
  }

  /** What the fee rules demand of a message in this block. */
  function FeeError(m: Message, block: Block): Option<Error> {
    match block.baseFee
    case None => None
    case Some(fee) =>
      if m.feeCap >= TWO_256 then Some(FeeCapVeryHigh)
      else if m.tipCap >= TWO_256 then Some(TipVeryHigh)
      else if m.feeCap < m.tipCap then Some(TipAboveFeeCap)
      else if m.feeCap < fee then Some(FeeCapTooLow)
      else None
  }

  function AccountError(m: Message, w: World): Option<Error> {
    var nonce := Nonce(w, m.from);
    if nonce < m.nonce then Some(NonceTooHigh)
    else if nonce > m.nonce then Some(NonceTooLow)
    else if (nonce + 1) % TWO_64 < nonce then Some(NonceMax)
    else if m.from in w.code then Some(SenderNoEOA)
    else None
  }

  /** The checks that decide whether gas is bought, in the order they are made. */
  ghost function PreCheckError(m: Message, block: Block, w: World, pool: nat): Option<Error> {
    var account, fee := AccountError(m, w), FeeError(m, block);
    if account.Some? then account
    else if fee.Some? then fee
    else if Balance(w.balances, m.from) < m.gasLimit * m.feeCap + m.value then Some(InsufficientFunds)
    else if pool < m.gasLimit then Some(GasLimitReached)
    else None
  }

  /** Which message is refused for what. */
  lemma PreCheckIs(m: Message, block: Block, w: World, pool: nat)
    ensures var error, nonce, fee := PreCheckError(m, block, w, pool), Nonce(w, m.from), block.baseFee;
      var account := nonce == m.nonce < MAX_UINT64 && m.from !in w.code;
      var caps := fee.None? || (m.tipCap <= m.feeCap < TWO_256 && fee.value <= m.feeCap);
      var funds := Balance(w.balances, m.from) >= m.gasLimit * m.feeCap + m.value;
      && (error == Some(NonceTooHigh) <==> m.nonce > nonce)
      && (error == Some(NonceTooLow) <==> m.nonce < nonce)
      && (error == Some(NonceMax) <==> m.nonce == nonce == MAX_UINT64)
      && (error == Some(SenderNoEOA) <==> m.nonce == nonce < MAX_UINT64 && m.from in w.code)
      && (error == Some(FeeCapVeryHigh) <==> account && fee.Some? && m.feeCap >= TWO_256)
      && (error == Some(TipVeryHigh) <==> account && fee.Some? && m.feeCap < TWO_256 <= m.tipCap)
      && (error == Some(TipAboveFeeCap) <==> account && fee.Some? && m.feeCap < m.tipCap < TWO_256)
      && (error == Some(FeeCapTooLow) <==> account && fee.Some? && m.tipCap <= m.feeCap < TWO_256 && m.feeCap < fee.value)
      && (error == Some(InsufficientFunds) <==> account && caps && !funds)
      && (error == Some(GasLimitReached) <==> account && caps && funds && pool < m.gasLimit)
      && (error.None? <==> account && caps && funds && pool >= m.gasLimit)
  {
  }

  /** The intrinsic gas, as the unguarded access-list addition leaves it. */
  ghost function IntrinsicOf(m: Message, rules: Rules): nat {
    (Cost(m.data, m.to.None?, rules.homestead, rules.istanbul, rules.shanghai) + AccessCost(m.list)) % TWO_64
  }

  /** The clauses about the message itself: the bought gas covers the intrinsic gas
      and the init code is not too large. */
  ghost predicate Payable(m: Message, rules: Rules) {
    && Cost(m.data, m.to.None?, rules.homestead, rules.istanbul, rules.shanghai) <= MAX_UINT64
    && IntrinsicOf(m, rules) <= m.gasLimit
    && !(rules.shanghai && m.to.None? && |m.data| > MAX_INIT_CODE_SIZE)
  }

  function RefundQuotient(rules: Rules): nat {
    if rules.london then REFUND_QUOTIENT_EIP3529 else REFUND_QUOTIENT
  }

  /** The world the machine starts from: the gas is bought and, for a call, the sender's
      nonce raised. */
  ghost function Entered(m: Message, w: World): World
    requires AccountError(m, w).None?
  {
    var nonces := if m.to.None? then w.nonces else w.nonces[m.from := Nonce(w, m.from) + 1];
    World(Credit(w.balances, m.from, -(m.gasLimit * m.gasPrice)), nonces, w.code)
  }

  ghost function Ran(m: Message, rules: Rules, w: World, evm: Evm): Execution
    requires AccountError(m, w).None? && Payable(m, rules)
  {
    evm(Entered(m, w), m, m.gasLimit - IntrinsicOf(m, rules))
  }

  /** The sender gets the unused gas back, the coinbase its tip for the used. */
  ghost function Settled(m: Message, block: Block, w: World, used: nat): World {
    var refunded := Credit(w.balances, m.from, (m.gasLimit - used) * m.gasPrice);
    w.(balances := Credit(refunded, block.coinbase, used * EffectiveTip(m, block)))
  }

  /** Applying `m` to `w` gives `w'` and `o`: what the machine does, then the capped
      refund and the payments. */
  ghost predicate Applied(m: Message, block: Block, w: World, evm: Evm, w': World, o: Outcome) {
    && AccountError(m, w).None? && Payable(m, block.rules)
    && var x := Ran(m, block.rules, w, evm);
       && x.gasLeft <= m.gasLimit && 0 <= o.usedGas <= m.gasLimit
       && o.usedGas == AfterRefund(m.gasLimit - x.gasLeft, block.rules, x.refund)
       && o.failed == x.failed
       && w' == Settled(m, block, x.world, o.usedGas)
  }

  function AfterRefund(used: nat, rules: Rules, counter: Uint64): int {
    used - Min(used / RefundQuotient(rules), counter)
  }

  lemma RefundIsCapped(burnt: nat, rules: Rules, refund: Uint64, used: nat)
    requires AfterRefund(burnt, rules, refund) == used
    ensures Capped(burnt, refund, rules.london, used)
  {
  }

  /** Account by account: the sender pays for all the gas it may use, and its nonce goes up
      by one for a call and not for a creation. Nothing else changes. */
  ghost predicate Bought(m: Message, w: World, w': World) {
    && w'.code == w.code
    && forall a ::
         && Nonce(w', a) == Nonce(w, a) + (if a == m.from && m.to.Some? then 1 else 0)
         && Balance(w'.balances, a) == Balance(w.balances, a) - if a == m.from then m.gasLimit * m.gasPrice else 0
  }

  /** Account by account: the sender gets the unused gas back, the coinbase its tip for the
      used. Nothing else changes. */
  ghost predicate PaidOut(m: Message, block: Block, w: World, w': World, used: nat) {
    && w'.code == w.code && w'.nonces == w.nonces
    && forall a ::
         Balance(w'.balances, a) == Balance(w.balances, a)
                                    + (if a == m.from then (m.gasLimit - used) * m.gasPrice else 0)
                                    + (if a == block.coinbase then used * EffectiveTip(m, block) else 0)
  }

  lemma EnteredTotal(m: Message, w: World)
    requires AccountError(m, w).None?
    ensures Total(Entered(m, w).balances) == Total(w.balances) - m.gasLimit * m.gasPrice
  {
    hide Total, AccountError;
    TotalCredit(w.balances, m.from, -(m.gasLimit * m.gasPrice));
  }

  lemma ConservesAt(evm: Evm, w: World, m: Message, gas: nat)
    requires Conserving(evm)
    ensures var x := evm(w, m, gas);
      && x.gasLeft <= gas && Total(x.world.balances) == Total(w.balances)
      && (Solvent(w.balances) ==> Solvent(x.world.balances))
  {
    hide Total, Solvent;
  }

  /** The refund is at most a fifth of the gas from the London rules on, half before. */
  predicate Capped(burnt: nat, refund: Uint64, london: bool, used: nat) {
    used == burnt - Min(burnt / (if london then 5 else 2), refund)
  }

  lemma EnteredIsBought(m: Message, w: World)
    requires AccountError(m, w).None?
    ensures Bought(m, w, Entered(m, w))
  {
  }

  lemma SettledIsPaidOut(m: Message, block: Block, w: World, used: nat)
    ensures PaidOut(m, block, w, Settled(m, block, w, used), used)
  {
    hide EffectiveTip;
  }

  class StateTransition {
    const msg: Message
    const block: Block
    const gp: GasPool
    const state: StateDB
    var gasRemaining: nat
    var initialGas: nat

    constructor (msg: Message, block: Block, gp: GasPool, state: StateDB)
      ensures this.msg == msg && this.block == block && this.gp == gp && this.state == state
      ensures gasRemaining == 0 && initialGas == 0
    {
      this.msg, this.block, this.gp, this.state := msg, block, gp, state;
      gasRemaining, initialGas := 0, 0;
    }

    function GasUsed(): int
      reads this
    {
      initialGas - gasRemaining
    }

    /** Prepay the whole gas limit. On success what is left covers the value, so the
        sender is never overdrawn and the later transfer check cannot fail. */
    method BuyGas() returns (error: Option<Error>)
      requires gasRemaining == 0 && Priced(msg, block.baseFee)
      modifies this, gp, state
      ensures error.Some? ==> state.world == old(state.world) && gp.gas == old(gp.gas)
      ensures error ==
                if Balance(old(state.world.balances), msg.from) < msg.gasLimit * msg.feeCap + msg.value
                then Some(InsufficientFunds) else if old(gp.gas) < msg.gasLimit then Some(GasLimitReached) else None
      ensures error.None? ==>
                && state.world == old(state.world).(balances :=
                     Credit(old(state.world.balances), msg.from, -(msg.gasLimit * msg.gasPrice)))
                && gp.gas == old(gp.gas) - msg.gasLimit
                && gasRemaining == initialGas == msg.gasLimit
                && Balance(state.world.balances, msg.from) >= msg.value
                && (old(Solvent(state.world.balances)) ==> Solvent(state.world.balances))
    {
      var cost := msg.gasLimit * msg.gasPrice;
      var check := msg.gasLimit * msg.feeCap + msg.value;
      CostWithinCap(msg);
      if Balance(state.world.balances, msg.from) < check {
        return Some(InsufficientFunds);
      }
      var ok := gp.SubGas(msg.gasLimit);
      if !ok {
        return Some(GasLimitReached);
      }
      gasRemaining := gasRemaining + msg.gasLimit;
      initialGas := msg.gasLimit;
      state.world := state.world.(balances := Credit(state.world.balances, msg.from, -cost));
      return None;
    }

    method PreCheck() returns (error: Option<Error>)
      requires gasRemaining == 0 && Priced(msg, block.baseFee)
      modifies this, gp, state
      ensures error.Some? ==> state.world == old(state.world) && gp.gas == old(gp.gas)
      ensures error == PreCheckError(msg, block, old(state.world), old(gp.gas))
      ensures error.Some? ==> error.value != InsufficientFundsForTransfer && error.value != Panic
      ensures error.None? ==>
                && AccountError(msg, old(state.world)).None? && FeeError(msg, block).None?
                && state.world == old(state.world).(balances :=
                     Credit(old(state.world.balances), msg.from, -(msg.gasLimit * msg.gasPrice)))
                && gp.gas == old(gp.gas) - msg.gasLimit
                && gasRemaining == initialGas == msg.gasLimit
                && Balance(state.world.balances, msg.from) >= msg.value
                && (old(Solvent(state.world.balances)) ==> Solvent(state.world.balances))
    {
      var account := AccountError(msg, state.world);
      if account.Some? {
        return account;
      }
      var fee := FeeError(msg, block);
      if fee.Some? {
        return fee;
      }
      error := BuyGas();
    }

    /** Give back unused gas and the refund, which is capped to a share of the gas
        used. Returning it to the pool cannot overflow. */
    method RefundGas(quotient: nat, counter: Uint64) returns (ok: bool)
      requires quotient > 0 && gasRemaining <= initialGas && gp.gas + initialGas <= MAX_UINT64
      modifies this, gp, state
      ensures ok && initialGas == old(initialGas)
      ensures old(GasUsed()) - old(GasUsed()) / quotient <= GasUsed() <= old(GasUsed())
      ensures GasUsed() == old(GasUsed()) - Min(old(GasUsed()) / quotient, counter)
      ensures gasRemaining <= initialGas && gp.gas == old(gp.gas) + gasRemaining
      ensures state.world == old(state.world).(balances :=
                Credit(old(state.world.balances), msg.from, gasRemaining * msg.gasPrice))
    {
      var refund := GasUsed() / quotient;
      ShareIsSmaller(GasUsed(), quotient);
      if refund > counter {
        refund := counter;
      }
      gasRemaining := gasRemaining + refund;
      state.world := state.world.(balances := Credit(state.world.balances, msg.from, gasRemaining * msg.gasPrice));
      ok := gp.AddGas(gasRemaining);
    }

    /** Settle after execution: refund the sender, pay the coinbase. Together with the
        burnt base fee this is all that was prepaid. */
    method Settle(counter: Uint64) returns (ok: bool)
      requires gasRemaining <= initialGas == msg.gasLimit && gp.gas + initialGas <= MAX_UINT64
      requires ValidBlock(block) && Priced(msg, block.baseFee) && FeeError(msg, block).None?
      modifies this, gp, state
      ensures ok && 0 <= GasUsed() <= initialGas == old(initialGas)
      ensures GasUsed() == AfterRefund(old(GasUsed()), block.rules, counter)
      ensures state.world == Settled(msg, block, old(state.world), GasUsed())
      ensures PaidOut(msg, block, old(state.world), state.world, GasUsed())
      ensures gp.gas == old(gp.gas) + initialGas - GasUsed()
      ensures Total(state.world.balances) + Burn(block, GasUsed())
           == old(Total(state.world.balances)) + msg.gasLimit * msg.gasPrice
      ensures old(Solvent(state.world.balances)) ==> Solvent(state.world.balances)
    {
      hide Total, Burn, EffectiveTip, Solvent, Balance, Credit, FeeError, Priced;
      ghost var ran := state.world.balances;
      ok := RefundGas(RefundQuotient(block.rules), counter);
      if !ok {
        return;
      }
      TotalCredit(ran, msg.from, gasRemaining * msg.gasPrice);
      SolventCredit(ran, msg.from, gasRemaining * msg.gasPrice);
      var refunded := state.world.balances;
      var fee := GasUsed() * EffectiveTip(msg, block);
      FeesSettle(msg, block, GasUsed());
      TotalCredit(refunded, block.coinbase, fee);
      SolventCredit(refunded, block.coinbase, fee);
      state.world := state.world.(balances := Credit(refunded, block.coinbase, fee));
      SettledIsPaidOut(msg, block, old(state.world), GasUsed());
    }

    /** Everything before execution: checks, buying gas, intrinsic gas, and the nonce of
        a call. The transfer check cannot fail. */
    method Prepare() returns (error: Option<Error>)
      requires gasRemaining == 0 && Priced(msg, block.baseFee) && |msg.data| <= MAX_UINT64
      modifies this, gp, state
      ensures error.None? <==> PreCheckError(msg, block, old(state.world), old(gp.gas)).None? && Payable(msg, block.rules)
      ensures error != Some(InsufficientFundsForTransfer) && error != Some(Panic)
      ensures PreCheckError(msg, block, old(state.world), old(gp.gas)).None? ==>
                var cost := Cost(msg.data, msg.to.None?, block.rules.homestead, block.rules.istanbul, block.rules.shanghai);
                && (error == Some(GasOverflow) <==> cost > MAX_UINT64)
                && (error == Some(IntrinsicGasTooLow) <==>
                      cost <= MAX_UINT64 && msg.gasLimit < (cost + AccessCost(msg.list)) % TWO_64)
                && (error == Some(MaxInitCodeSizeExceeded) <==>
                      && cost <= MAX_UINT64 && msg.gasLimit >= (cost + AccessCost(msg.list)) % TWO_64
                      && block.rules.shanghai && msg.to.None? && |msg.data| > 49152)
      ensures error.None? ==>
                && AccountError(msg, old(state.world)).None? && FeeError(msg, block).None?
                && state.world == Entered(msg, old(state.world))
                && gp.gas == old(gp.gas) - msg.gasLimit && initialGas == msg.gasLimit
                && gasRemaining == msg.gasLimit - IntrinsicOf(msg, block.rules)
                && (old(Solvent(state.world.balances)) ==> Solvent(state.world.balances))
    {
      hide Total, Cost, AccessCost, Solvent, Credit, FeeError, Priced, PreCheckError;
      var failed := PreCheck();
      if failed.Some? {
        return failed;
      }
      var creation := msg.to.None?;
      var gas := IntrinsicGas(msg.data, msg.list, creation, block.rules.homestead, block.rules.istanbul, block.rules.shanghai);
      if gas.Err? {
        return Some(GasOverflow);
      }
      if gasRemaining < gas.value {
        return Some(IntrinsicGasTooLow);
      }
      gasRemaining := gasRemaining - gas.value;
      if msg.value > 0 && Balance(state.world.balances, msg.from) < msg.value {
        return Some(InsufficientFundsForTransfer);
      }
      if block.rules.shanghai && creation && |msg.data| > MAX_INIT_CODE_SIZE {
        return Some(MaxInitCodeSizeExceeded);
      }
      if !creation {
        state.world := state.world.(nonces := state.world.nonces[msg.from := Nonce(state.world, msg.from) + 1]);
      }
      return None;
    }

    /** Apply the message. Ether is conserved up to the burnt base fee, the pool gives
        up exactly the gas used, nobody is overdrawn, and neither the transfer check
        nor the pool's overflow check can fail. */
    method TransitionDb(evm: Evm)
      returns (r: Result<Outcome, Error>, ghost entered: World, ghost ran: Execution)
      requires gasRemaining == 0 && Priced(msg, block.baseFee) && ValidBlock(block) && Conserving(evm)
      requires |msg.data| <= MAX_UINT64
      modifies this, gp, state
      ensures r.Ok? <==> PreCheckError(msg, block, old(state.world), old(gp.gas)).None? && Payable(msg, block.rules)
      ensures r != Err(InsufficientFundsForTransfer) && r != Err(Panic)
      ensures r.Ok? ==>
                && ran == evm(entered, msg, msg.gasLimit - IntrinsicOf(msg, block.rules))
                && ran.gasLeft <= msg.gasLimit
                && r.value.failed == ran.failed
                && Capped(msg.gasLimit - ran.gasLeft, ran.refund, block.rules.london, r.value.usedGas)
      ensures r.Ok? ==> Bought(msg, old(state.world), entered)
      ensures r.Ok? ==> PaidOut(msg, block, ran.world, state.world, r.value.usedGas)
      ensures r.Ok? ==> Applied(msg, block, old(state.world), evm, state.world, r.value)
      ensures r.Ok? ==> r.value.usedGas <= msg.gasLimit && gp.gas == old(gp.gas) - r.value.usedGas
      ensures r.Ok? ==> Total(state.world.balances) + Burn(block, r.value.usedGas) == old(Total(state.world.balances))
      ensures r.Ok? && old(Solvent(state.world.balances)) ==> Solvent(state.world.balances)
    {
      hide Total, Burn, Solvent, Credit, FeeError, AccountError, Priced, PreCheckError, Payable, IntrinsicOf, Settled,
           AfterRefund, Bought, PaidOut, Entered, Balance, Conserving, Capped, ValidBlock;
      entered, ran := state.world, Execution(state.world, 0, 0, false);
      var failed := Prepare();
      if failed.Some? {
        return Err(failed.value), entered, ran;
      }
      entered := state.world;
      EnteredIsBought(msg, old(state.world));
      EnteredTotal(msg, old(state.world));
      ConservesAt(evm, state.world, msg, gasRemaining);
      var x := evm(state.world, msg, gasRemaining);
      ran := x;
      state.world, gasRemaining := x.world, x.gasLeft;
      var ok := Settle(x.refund);
      if !ok {
        return Err(Panic), entered, ran;
      }
      RefundIsCapped(msg.gasLimit - ran.gasLeft, block.rules, ran.refund, GasUsed());
      return Ok(Outcome(GasUsed(), x.failed)), entered, ran;
    }
  }
}
