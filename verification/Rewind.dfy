/** The state-aware rewind: the callback that moves the head block down with the
    header chain until it sits on a block whose state is available. */
module Rewind {
  import opened Wrappers
  import opened Ancestry
  import opened Difficulty
  import H = HeaderChain

  /** Height `n` is at or below the highest block of the path with the requested
      root; without a requested root every height is. */
  ghost predicate BeyondRoot(s: Store, start: Header, root: Hash, n: nat)
    requires Closed(s) && Stored(s, start)
  {
    root == ZERO_HASH || exists m: nat :: n <= m <= start.number && AncestorAt(s, start, m).root == root
  }

  ghost predicate Stateful(s: Store, states: set<Hash>, start: Header, n: nat)
    requires Closed(s) && Stored(s, start) && n <= start.number
  {
    AncestorAt(s, start, n).root in states
  }

  /** A height the rewind may stop at. */
  ghost predicate Acceptable(s: Store, states: set<Hash>, start: Header, root: Hash, n: nat)
    requires Closed(s) && Stored(s, start) && n <= start.number
  {
    Stateful(s, states, start, n) && BeyondRoot(s, start, root, n)
  }

  /** A stateless block at or below the pivot, above `n`, sends the rewind to genesis. */
  ghost predicate PivotBetween(s: Store, states: set<Hash>, start: Header, pivot: Option<nat>, n: nat)
    requires Closed(s) && Stored(s, start)
  {
    pivot.Some? && exists m: nat :: n < m <= start.number && m <= pivot.value && !Stateful(s, states, start, m)
  }

  /** Where the rewind lands: on the highest acceptable height, or on genesis. */
  ghost predicate Landing(s: Store, states: set<Hash>, start: Header, root: Hash, pivot: Option<nat>, n: nat)
    requires Closed(s) && Stored(s, start)
  {
    && n <= start.number
    && (n > 0 ==> Acceptable(s, states, start, root, n) && !PivotBetween(s, states, start, pivot, n))
    && forall k: nat :: n < k <= start.number && Acceptable(s, states, start, root, k) ==>
         PivotBetween(s, states, start, pivot, k)
  }

  /** These conditions leave exactly one height. */
  lemma LandingUnique(s: Store, states: set<Hash>, start: Header, root: Hash, pivot: Option<nat>, n: nat, m: nat)
    requires Closed(s) && Stored(s, start)
    requires Landing(s, states, start, root, pivot, n) && Landing(s, states, start, root, pivot, m)
    ensures n == m
  {
    hide Walk, AncestorAt, Closed, Acceptable, PivotBetween;
  }

  /** Progress of the walk: nothing above `n` was acceptable, and no pivot was hit. */
  ghost predicate Passing(s: Store, states: set<Hash>, start: Header, root: Hash, pivot: Option<nat>, n: nat)
    requires Closed(s) && Stored(s, start)
  {
    && n <= start.number
    && (forall k: nat :: n < k <= start.number ==> !Acceptable(s, states, start, root, k))
    && !PivotBetween(s, states, start, pivot, n)
  }

  lemma PassingStep(s: Store, states: set<Hash>, start: Header, root: Hash, pivot: Option<nat>, n: nat)
    requires Closed(s) && Stored(s, start) && Passing(s, states, start, root, pivot, n) && n > 0
    requires !Acceptable(s, states, start, root, n)
    requires Stateful(s, states, start, n) || pivot.None? || n > pivot.value
    ensures Passing(s, states, start, root, pivot, n - 1)
  {
    hide Walk, AncestorAt, Closed, Acceptable, Stateful;
  }

  lemma BeyondStep(s: Store, start: Header, root: Hash, n: nat)
    requires Closed(s) && Stored(s, start) && n <= start.number
    ensures BeyondRoot(s, start, root, n) <==>
      root == ZERO_HASH || BeyondRoot(s, start, root, n + 1) || AncestorAt(s, start, n).root == root
  {
    hide Walk, AncestorAt, Closed;
  }

  /** `n` is the highest height, of those from `low` up, whose block has the requested
      root; without one it is what was `found` before. */
  ghost predicate RootSeen(s: Store, start: Header, root: Hash, low: nat, found: nat, n: nat)
    requires Closed(s) && Stored(s, start)
  {
    if root != ZERO_HASH && BeyondRoot(s, start, root, low) then
      && low <= n <= start.number && AncestorAt(s, start, n).root == root
      && forall m: nat :: n < m <= start.number ==> AncestorAt(s, start, m).root != root
    else n == found
  }

  lemma RootSeenStart(s: Store, start: Header, root: Hash, found: nat)
    requires Closed(s) && Stored(s, start)
    ensures RootSeen(s, start, root, start.number + 1, found, found)
  {
    hide Walk, AncestorAt, Closed;
  }

  lemma RootSeenStep(s: Store, start: Header, root: Hash, low: nat, found: nat, n: nat)
    requires Closed(s) && Stored(s, start) && low <= start.number && RootSeen(s, start, root, low + 1, found, n)
    ensures var here := root != ZERO_HASH && !BeyondRoot(s, start, root, low + 1) && AncestorAt(s, start, low).root == root;
      RootSeen(s, start, root, low, found, if here then low else n)
  {
    hide Walk, AncestorAt, Closed;
    BeyondStep(s, start, root, low);
    assert forall m: nat :: low < m <= start.number && AncestorAt(s, start, m).root == root ==>
             BeyondRoot(s, start, root, low + 1);
  }

  /** The walk went down to `low`: to where it landed, or to a stateless block at or below
      the pivot, from where it went straight to genesis. */
  ghost predicate Reached(s: Store, states: set<Hash>, start: Header, pivot: Option<nat>, low: nat, n: nat)
    requires Closed(s) && Stored(s, start)
  {
    && low <= start.number
    && (n == low || (n == 0 && pivot.Some? && low <= pivot.value && !Stateful(s, states, start, low)))
  }

  /** The walk of the callback, starting at the block of the new head header. */
  method FindStateful(s: Store, states: set<Hash>, genesis: Header, start: Header, root: Hash, pivot: Option<nat>,
                      found: nat) returns (head: Header, rootNumber: nat, ghost low: nat)
    requires Closed(s) && Rooted(s, genesis.hash) && Stored(s, genesis) && Stored(s, start)
    ensures Landing(s, states, start, root, pivot, head.number) && head == AncestorAt(s, start, head.number)
    ensures Reached(s, states, start, pivot, low, head.number)
    ensures RootSeen(s, start, root, low, found, rootNumber)
  {
    hide Walk, AncestorAt, Closed, Rooted, Acceptable, Stateful, PivotBetween, Passing, Landing, BeyondRoot, RootSeen;
    head, rootNumber := start, found;
    var beyondRoot := root == ZERO_HASH;
    PassingStart(s, states, start, root, pivot);
    RootSeenStart(s, start, root, found);
    NothingBeyond(s, start, root);
    while true
      invariant Passing(s, states, start, root, pivot, head.number)
      invariant head.number <= start.number && head == AncestorAt(s, start, head.number)
      invariant beyondRoot <==> root == ZERO_HASH || BeyondRoot(s, start, root, head.number + 1)
      invariant RootSeen(s, start, root, head.number + 1, found, rootNumber)
      decreases head.number
    {
      var here := head.number;
      BeyondStep(s, start, root, here);
      RootSeenStep(s, start, root, here, found, rootNumber);
      PathDown(s, genesis, start, head);
      Verdict(s, states, start, root, pivot, here);
      if root != ZERO_HASH && !beyondRoot && head.root == root {
        beyondRoot, rootNumber := true, here;
      }
      low := here;
      if head.root !in states {
        if pivot.None? || here > pivot.value {
          var parent := ParentOf(s, head);
          if parent.Some? {
            PassingStep(s, states, start, root, pivot, here);
            head := parent.value;
            continue;
          }
        }
        head := genesis;
      }
      if beyondRoot || head.number == 0 {
        return;
      }
      PassingStep(s, states, start, root, pivot, here);
      head := ParentOf(s, head).value;
    }
  }

  lemma NothingBeyond(s: Store, start: Header, root: Hash)
    requires Closed(s) && Stored(s, start)
    ensures BeyondRoot(s, start, root, start.number + 1) <==> root == ZERO_HASH
  {
  }

  lemma PassingStart(s: Store, states: set<Hash>, start: Header, root: Hash, pivot: Option<nat>)
    requires Closed(s) && Stored(s, start)
    ensures Passing(s, states, start, root, pivot, start.number) && AncestorAt(s, start, start.number) == start
  {
    AncestorSelf(s, start);
  }

  lemma PathDown(s: Store, genesis: Header, start: Header, b: Header)
    requires Closed(s) && Rooted(s, genesis.hash) && Stored(s, genesis) && Stored(s, start)
    requires b.number <= start.number && b == AncestorAt(s, start, b.number)
    ensures AncestorAt(s, start, 0) == genesis && genesis.number == 0
    ensures b.number > 0 ==> ParentOf(s, b) == Some(AncestorAt(s, start, b.number - 1))
    ensures b.number == 0 ==> ParentOf(s, b).None?
  {
    hide Walk, AncestorAt;
    if b.number > 0 {
      AncestorIsParent(s, start, b.number);
    }
  }

  /** What the checks at one height mean for where the rewind lands. */
  lemma Verdict(s: Store, states: set<Hash>, start: Header, root: Hash, pivot: Option<nat>, n: nat)
    requires Closed(s) && Stored(s, start) && Passing(s, states, start, root, pivot, n) && n <= start.number
    ensures Stateful(s, states, start, n) <==> AncestorAt(s, start, n).root in states
    ensures Acceptable(s, states, start, root, n) <==> Stateful(s, states, start, n) && BeyondRoot(s, start, root, n)
    ensures Acceptable(s, states, start, root, n) ==> Landing(s, states, start, root, pivot, n)
    ensures n == 0 ==> Landing(s, states, start, root, pivot, 0)
    ensures pivot.Some? && n <= pivot.value && !Stateful(s, states, start, n) ==>
      Landing(s, states, start, root, pivot, 0)
  {
    hide Walk, AncestorAt, Closed, BeyondRoot;
    if pivot.Some? && n <= pivot.value && !Stateful(s, states, start, n) {
      forall k: nat | 0 < k <= start.number && Acceptable(s, states, start, root, k)
        ensures PivotBetween(s, states, start, pivot, k)
      {
        assert k < n;
      }
    }
  }

  /** A landing above genesis has its state. */
  lemma LandingHasState(s: Store, states: set<Hash>, start: Header, root: Hash, pivot: Option<nat>, n: nat)
    requires Closed(s) && Stored(s, start) && Landing(s, states, start, root, pivot, n)
    ensures n <= start.number
    ensures n > 0 ==> AncestorAt(s, start, n).root in states
  {
    hide Walk, AncestorAt, Closed;
  }

  lemma StoredLookup(s: Store, hash: Hash)
    requires Closed(s) && hash in s
    ensures Stored(s, s[hash])
  {
  }

  lemma GenesisIsZero(s: Store, genesis: Header, b: Header)
    requires Closed(s) && Rooted(s, genesis.hash) && Stored(s, genesis) && Stored(s, b)
    ensures b.number == 0 <==> b == genesis
  {
  }

  /** The head block marker and the states it depends on. */
  class HeadBlock {
    const genesis: Header
    var headers: Store
    var states: set<Hash>
    var headBlockHash: Hash
    var currentBlock: Header

    ghost predicate Valid()
      reads this
    {
      && Closed(headers) && Rooted(headers, genesis.hash) && Stored(headers, genesis)
      && Stored(headers, currentBlock) && headBlockHash == currentBlock.hash
    }

    constructor (g: Header, s: Store, available: set<Hash>)
      requires Closed(s) && Rooted(s, g.hash) && Stored(s, g)
      ensures Valid() && genesis == g && headers == s && states == available && currentBlock == g
    {
      genesis, headers, states := g, s, available;
      headBlockHash, currentBlock := g.hash, g;
    }

    /** The database was cut above the head block. */
    method Cut(s: Store)
      requires Valid() && Closed(s) && Rooted(s, genesis.hash) && Stored(s, genesis) && Stored(s, currentBlock)
      modifies `headers
      ensures Valid() && headers == s
    {
      headers := s;
    }

    /** Degrade the head block to the header chain's new head `header`. A head that
        is already lower stays. A missing block sends the head to genesis. Otherwise
        the head lands on the nearest acceptable ancestor-or-self, with its state
        present: at genesis it is committed again if it was gone. `found` is where the
        requested root was met so far. */
    method UpdateHead(header: Header, root: Hash, pivot: Option<nat>, found: nat) returns (rootNumber: nat, ghost low: nat)
      requires Valid()
      modifies `states, `headBlockHash, `currentBlock
      ensures Valid()
      ensures header.number > old(currentBlock).number ==> unchanged(this)
      ensures header.number <= old(currentBlock).number && Lookup(headers, header.hash, header.number).None? ==>
                currentBlock == genesis && states == old(states)
      ensures header.number > old(currentBlock).number || Lookup(headers, header.hash, header.number).None? ==>
                rootNumber == found
      ensures header.number <= old(currentBlock).number && Lookup(headers, header.hash, header.number) == Some(header) ==>
                && Stored(headers, header)
                && Landing(headers, old(states), header, root, pivot, currentBlock.number)
                && currentBlock == AncestorAt(headers, header, currentBlock.number)
                && currentBlock.root in states
                && Reached(headers, old(states), header, pivot, low, currentBlock.number)
                && RootSeen(headers, header, root, low, found, rootNumber)
      ensures states == old(states) || (currentBlock == genesis && states == old(states) + {genesis.root})
    {
      hide Walk, AncestorAt, Closed, Rooted, Landing, Reached, RootSeen;
      rootNumber, low := found, 0;
      if header.number <= currentBlock.number {
        var newHead := genesis;
        var block := Lookup(headers, header.hash, header.number);
        if block.Some? {
          StoredLookup(headers, header.hash);
          newHead, rootNumber, low := FindStateful(headers, states, genesis, block.value, root, pivot, found);
          LandingHasState(headers, states, block.value, root, pivot, newHead.number);
          GenesisIsZero(headers, genesis, newHead);
          if newHead.number == 0 && genesis.root !in states {
            states := states + {genesis.root};
          }
        }
        headBlockHash := newHead.hash;
        currentBlock := newHead;
      }
    }
  }

  /** `b` is on the path of `head`. */
  ghost predicate OnPath(s: Store, head: Header, b: Header)
    requires Closed(s) && Stored(s, head)
  {
    b.number <= head.number && b == AncestorAt(s, head, b.number)
  }

  lemma OnPathDown(s: Store, head: Header, b: Header, c: Header)
    requires Closed(s) && Stored(s, head) && Stored(s, b) && OnPath(s, head, b) && OnPath(s, b, c)
    ensures OnPath(s, head, c)
  {
    hide Walk, Closed;
    AncestorOfAncestor(s, head, b.number, c.number);
  }

  lemma OnPathSelf(s: Store, head: Header)
    requires Closed(s) && Stored(s, head)
    ensures OnPath(s, head, head)
  {
    AncestorSelf(s, head);
  }

  lemma ParentOnPath(s: Store, genesis: Header, head: Header, b: Header)
    requires Closed(s) && Rooted(s, genesis.hash) && Stored(s, genesis) && Stored(s, head) && OnPath(s, head, b)
    ensures b.number == 0 ==> b == genesis
    ensures b.number > 0 ==>
              && ParentOf(s, b).Some? && ParentOf(s, b).value.number == b.number - 1
              && Stored(s, ParentOf(s, b).value) && OnPath(s, head, ParentOf(s, b).value)
  {
    hide Walk, AncestorAt, Closed, Rooted;
    PathDown(s, genesis, head, b);
  }

  /** Of two blocks on the path, a lower one is on the path of the higher. */
  lemma OnPathBetween(s: Store, head: Header, b: Header, c: Header)
    requires Closed(s) && Stored(s, head) && OnPath(s, head, b) && OnPath(s, head, c) && c.number <= b.number
    ensures Stored(s, b) && OnPath(s, b, c)
  {
    hide Walk, Closed;
    AncestorOfAncestor(s, head, b.number, c.number);
  }

  /** A header that is not done is not the genesis, and nothing is done from it up. */
  lemma NotDoneDown(s: Store, genesis: Header, head: Header, b: Header, headBlock: nat, headTime: nat)
    requires Closed(s) && Stored(s, head) && OnPath(s, head, b) && (b.number == 0 ==> b == genesis)
    requires headTime > 0 ==> genesis.time <= headTime
    requires !H.Done(headBlock, headTime, b) && H.NotDoneAbove(s, head, b.number, headBlock, headTime)
    ensures b.number > 0 && H.NotDoneAbove(s, head, b.number - 1, headBlock, headTime)
  {
    hide Walk, AncestorAt, Closed;
    H.NotDoneStep(s, head, b, headBlock, headTime);
  }

  lemma LandsOnPath(s: Store, states: set<Hash>, start: Header, root: Hash, pivot: Option<nat>, b: Header)
    requires Closed(s) && Stored(s, start) && Landing(s, states, start, root, pivot, b.number)
    ensures b.number <= start.number && (b == AncestorAt(s, start, b.number) ==> OnPath(s, start, b))
  {
    hide Walk, AncestorAt, Closed;
  }

  /** One run of the callback: the header it was run for, the states there were, how far
      down it walked, and the root number found before. */
  datatype Callback = Callback(start: Header, states: set<Hash>, low: nat, found: nat)

  /** `c` ran for a header of the path of `head`, landed on `b` and reported `n`. */
  ghost predicate Landed(s: Store, head: Header, c: Callback, root: Hash, pivot: Option<nat>, b: Header, n: nat)
    requires Closed(s) && Stored(s, head)
  {
    && Stored(s, c.start) && OnPath(s, head, c.start) && OnPath(s, c.start, b)
    && Landing(s, c.states, c.start, root, pivot, b.number)
    && Reached(s, c.states, c.start, pivot, c.low, b.number)
    && RootSeen(s, c.start, root, c.low, c.found, n)
  }

  lemma IsLanded(s: Store, head: Header, c: Callback, root: Hash, pivot: Option<nat>, b: Header, n: nat)
    requires Closed(s) && Stored(s, head) && Stored(s, c.start) && OnPath(s, head, c.start) && OnPath(s, c.start, b)
    requires Landing(s, c.states, c.start, root, pivot, b.number)
    requires Reached(s, c.states, c.start, pivot, c.low, b.number)
    requires RootSeen(s, c.start, root, c.low, c.found, n)
    ensures Landed(s, head, c, root, pivot, b, n)
  {
    hide OnPath, Landing, Reached, RootSeen;
  }

  lemma StoredRow(s: Store, b: Header)
    requires Stored(s, b)
    ensures Lookup(s, b.hash, b.number) == Some(b)
  {
  }

  /** The rewind target is unique: done, with nothing done above it. */
  lemma TargetUnique(s: Store, head: Header, headBlock: nat, headTime: nat, b: Header, c: Header)
    requires Closed(s) && Stored(s, head) && OnPath(s, head, b) && OnPath(s, head, c)
    requires H.Done(headBlock, headTime, b) && H.NotDoneAbove(s, head, b.number, headBlock, headTime)
    requires H.Done(headBlock, headTime, c) && H.NotDoneAbove(s, head, c.number, headBlock, headTime)
    ensures b == c
  {
    hide Walk, AncestorAt, Closed, H.Done;
  }

  /** The header chain rewinds to where the callback walked. */
  lemma SameTarget(s: Store, head: Header, current: Header, headBlock: nat, headTime: nat, target: Header)
    requires Closed(s) && Stored(s, head) && OnPath(s, head, target)
    requires H.Done(headBlock, headTime, target) && H.NotDoneAbove(s, head, target.number, headBlock, headTime)
    requires current.number <= head.number && current == AncestorAt(s, head, current.number)
    requires if H.Done(headBlock, headTime, head) then current == head
             else H.Done(headBlock, headTime, current) && H.NotDoneAbove(s, head, current.number, headBlock, headTime)
    ensures current == target && (target == head <==> H.Done(headBlock, headTime, head))
  {
    hide Walk, AncestorAt, Closed, H.Done, H.NotDoneAbove;
    H.NotDoneAtHead(s, head, headBlock, headTime);
    TargetUnique(s, head, headBlock, headTime, current, target);
  }

  /** Cutting the store at `target` keeps what is on its path. */
  lemma CutKeeps(s: Store, genesis: Hash, target: Header, b: Header)
    requires Closed(s) && Rooted(s, genesis) && Stored(s, target) && OnPath(s, target, b)
    ensures var t := H.Below(s, s, target.number);
      Closed(t) && Rooted(t, genesis) && Stored(t, target) && Stored(t, b) && OnPath(t, target, b)
  {
    hide Walk, AncestorAt;
    H.BelowIsClosed(s, genesis, target.number);
    H.SamePath(s, H.Below(s, s, target.number), target, b.number);
  }

  /** The header chain and the head block over one database. */
  class Rewinder {
    const chain: H.Chain
    const block: HeadBlock

    /** The head block is on the path of the head header. */
    ghost predicate Valid()
      reads this, chain, block
    {
      && chain.Valid() && block.Valid()
      && block.headers == chain.headers && block.genesis == chain.genesis
      && OnPath(chain.headers, chain.currentHeader, block.currentBlock)
    }

    constructor (g: Header)
      requires g.number == 0 && g.parent == ZERO_HASH && g.hash != ZERO_HASH
      ensures Valid() && fresh(chain) && fresh(block)
    {
      chain := new H.Chain(g);
      block := new HeadBlock(g, map[g.hash := g], {g.root});
      new;
      OnPathSelf(chain.headers, g);
    }

    /** The callback, run for every header the rewind steps on. Reads see the database
        as it was before the batch, so the header rows can be cut afterwards. */
    method Degrade(headBlock: nat, headTime: nat, root: Hash, pivot: Option<nat>)
      returns (target: Header, rootNumber: nat, ghost last: Option<Callback>)
      requires Valid() && (headTime > 0 ==> chain.genesis.time <= headTime)
      modifies block
      ensures block.Valid() && block.headers == chain.headers
      ensures Stored(chain.headers, target) && OnPath(chain.headers, chain.currentHeader, target)
      ensures OnPath(chain.headers, target, block.currentBlock)
      ensures H.Done(headBlock, headTime, target)
      ensures H.NotDoneAbove(chain.headers, chain.currentHeader, target.number, headBlock, headTime)
      ensures old(block.states) <= block.states
      ensures last.None? ==> unchanged(block) && rootNumber == 0
      ensures last.Some? ==>
                && block.currentBlock.root in block.states && target.number <= last.value.start.number
                && Landed(chain.headers, chain.currentHeader, last.value, root, pivot, block.currentBlock, rootNumber)
    {
      hide Walk, AncestorAt, Closed, Rooted, IsPath, TdExact, H.NotDoneAbove, OnPath, Landing, Landed, Reached, RootSeen, Stored;
      ghost var s, head := chain.headers, chain.currentHeader;
      target, rootNumber, last := chain.currentHeader, 0, None;
      OnPathSelf(s, head);
      H.NotDoneAtHead(s, head, headBlock, headTime);
      while !H.Done(headBlock, headTime, target)
        invariant block.Valid() && block.headers == s
        invariant Stored(s, target) && OnPath(s, head, target) && OnPath(s, target, block.currentBlock)
        invariant H.NotDoneAbove(s, head, target.number, headBlock, headTime)
        invariant old(block.states) <= block.states
        invariant last.None? ==> unchanged(block) && rootNumber == 0
        invariant last.Some? ==>
                    && block.currentBlock.root in block.states && target.number <= last.value.start.number
                    && Landed(s, head, last.value, root, pivot, block.currentBlock, rootNumber)
        decreases target.number
      {
        ParentOnPath(s, chain.genesis, head, target);
        NotDoneDown(s, chain.genesis, head, target, headBlock, headTime);
        var parent := ParentOf(chain.headers, target).value;
        ghost var before, had := block.currentBlock, block.states;
        OnPathDown(s, head, target, before);
        StoredRow(s, parent);
        var number, low := block.UpdateHead(parent, root, pivot, rootNumber);
        if parent.number > before.number {
          OnPathBetween(s, head, parent, before);
        } else {
          LandsOnPath(s, had, parent, root, pivot, block.currentBlock);
          last := Some(Callback(parent, had, low, rootNumber));
          IsLanded(s, head, last.value, root, pivot, block.currentBlock, number);
        }
        rootNumber := number;
        target := parent;
      }
    }

    /** Rewind to a number or time, or only repair the head block. The head block ends on
        the path of the head header, where the last callback landed, with state; unless
        no callback had to move it. Every table is cut at the head header. */
    method SetHeadBeyondRoot(headBlock: nat, headTime: nat, root: Hash, pivot: Option<nat>, repair: bool)
      returns (ok: bool, rootNumber: nat, ghost last: Option<Callback>)
      requires Valid()
      modifies chain, block
      ensures Valid()
      ensures ok <==> repair || headTime == 0 || chain.genesis.time <= headTime
      ensures !ok ==> unchanged(chain) && unchanged(block)
      ensures repair ==> unchanged(chain) && last.Some? && last.value.start == old(block.currentBlock)
      ensures last.None? ==>
                && block.currentBlock == old(block.currentBlock) && block.states == old(block.states) && rootNumber == 0
      ensures last.Some? ==>
                && block.currentBlock.root in block.states
                && (!repair ==> chain.currentHeader.number <= last.value.start.number)
                && Landed(old(chain.headers), old(chain.currentHeader), last.value, root, pivot, block.currentBlock, rootNumber)
      ensures old(block.states) <= block.states
      ensures OnPath(old(chain.headers), old(chain.currentHeader), chain.currentHeader)
      ensures ok && !repair ==>
                && H.Done(headBlock, headTime, chain.currentHeader)
                && H.NotDoneAbove(old(chain.headers), old(chain.currentHeader), chain.currentHeader.number,
                                  headBlock, headTime)
      ensures ok && !repair && headTime == 0 ==>
                chain.currentHeader.number == H.Lower(old(chain.currentHeader).number, headBlock)
      ensures ok && !repair && chain.currentHeader != old(chain.currentHeader) ==>
                && chain.headers == H.Below(old(chain.headers), old(chain.headers), chain.currentHeader.number)
                && chain.tds == H.Below(old(chain.headers), old(chain.tds), chain.currentHeader.number)
                && chain.canon == H.CanonBelow(old(chain.canon), chain.currentHeader.number)
    {
      hide Walk, AncestorAt, Closed, Rooted, IsPath, TdExact, H.NotDoneAbove, OnPath, Landing, Landed, Reached, RootSeen,
           H.Below, H.CanonBelow, Stored;
      ok, rootNumber, last := true, 0, None;
      ghost var s, head := chain.headers, chain.currentHeader;
      OnPathSelf(s, head);
      if repair {
        ghost var before, had := block.currentBlock, block.states;
        StoredRow(s, before);
        var number, low := block.UpdateHead(block.currentBlock, root, pivot, 0);
        LandsOnPath(s, had, before, root, pivot, block.currentBlock);
        OnPathDown(s, head, before, block.currentBlock);
        last := Some(Callback(before, had, low, 0));
        IsLanded(s, head, last.value, root, pivot, block.currentBlock, number);
        rootNumber := number;
        return;
      }
      if headTime > 0 && chain.genesis.time > headTime {
        return false, 0, None;
      }
      var target, number, callback := Degrade(headBlock, headTime, root, pivot);
      rootNumber, last := number, callback;
      ok := chain.SetHead(headBlock, headTime, _ => None);
      SameTarget(s, head, chain.currentHeader, headBlock, headTime, target);
      CutKeeps(s, chain.genesis.hash, target, block.currentBlock);
      block.Cut(chain.headers);
    }
  }
}
