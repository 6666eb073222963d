/** Regenerating a historical state: search backwards for an available state, then
    re-execute the canonical blocks on top of it. */
module Replay {
  import opened Wrappers
  import opened Ancestry

  datatype Error = GenesisStateMissing | MissingBlock | StateUnavailable | BlockNotFound | ProcessingFailed

  /** The state of a block by definition: execute the chain from genesis to it. */
  ghost function StateOf<S>(s: Store, initial: S, exec: (S, Header) -> Option<S>, b: Header): Option<S>
    requires Closed(s) && Stored(s, b)
    decreases b.number
  {
    if b.number == 0 then Some(initial)
    else
      match StateOf(s, initial, exec, s[b.parent])
      case None => None
      case Some(st) => exec(st, b)
  }

  /** Every state root of the path that a database holds is the state of its block. */
  ghost predicate Honest<S>(s: Store, initial: S, exec: (S, Header) -> Option<S>, head: Header, db: map<Hash, S>)
    requires Closed(s) && Stored(s, head)
  {
    forall n: nat :: n <= head.number && AncestorAt(s, head, n).root in db ==>
      StateOf(s, initial, exec, AncestorAt(s, head, n)) == Some(db[AncestorAt(s, head, n).root])
  }

  /** The state of the `j`-th ancestor of `block` can be opened: the block's own in
      the database consulted first, the others on disk. */
  ghost predicate Available<S>(s: Store, first: map<Hash, S>, disk: map<Hash, S>, block: Header, j: nat)
    requires Closed(s) && Stored(s, block)
  {
    j <= block.number && AncestorAt(s, block, block.number - j).root in if j == 0 then first else disk
  }

  ghost predicate WithinReach<S>(s: Store, first: map<Hash, S>, disk: map<Hash, S>, block: Header, reexec: nat)
    requires Closed(s) && Stored(s, block)
  {
    exists j: nat :: j <= reexec && Available(s, first, disk, block, j)
  }

  lemma StateOfPath<S>(s: Store, initial: S, exec: (S, Header) -> Option<S>, head: Header, n: nat)
    requires Closed(s) && Stored(s, head) && 0 < n <= head.number
    ensures var prev := StateOf(s, initial, exec, AncestorAt(s, head, n - 1));
      StateOf(s, initial, exec, AncestorAt(s, head, n)) ==
      if prev.None? then None else exec(prev.value, AncestorAt(s, head, n))
  {
    hide Walk, AncestorAt;
    AncestorIsParent(s, head, n);
  }

  lemma {:induction false} StateOfFails<S>(s: Store, initial: S, exec: (S, Header) -> Option<S>, head: Header, n: nat)
    requires Closed(s) && Stored(s, head) && n <= head.number
    requires StateOf(s, initial, exec, AncestorAt(s, head, n)).None?
    ensures StateOf(s, initial, exec, head).None?
    decreases head.number - n
  {
    hide Walk, AncestorAt, StateOf;
    if n == head.number {
      AncestorSelf(s, head);
    } else {
      StateOfPath(s, initial, exec, head, n + 1);
      StateOfFails(s, initial, exec, head, n + 1);
    }
  }

  /** The backward half: step to parents until one has its state on disk. */
  method SearchBack<S>(s: Store, disk: map<Hash, S>, block: Header, reexec: nat)
    returns (r: Result<Header, Error>, ghost back: nat)
    requires Closed(s) && Stored(s, block)
    ensures back <= reexec && back <= block.number
    ensures r.Ok? ==> 0 < back && r.value == AncestorAt(s, block, block.number - back) && r.value.root in disk
    ensures r.Ok? ==> forall j: nat :: 0 < j < back ==> !Available(s, disk, disk, block, j)
    ensures r.Err? ==> forall j: nat :: 0 < j <= reexec ==> !Available(s, disk, disk, block, j)
    ensures r.Err? ==> r.error == if block.number < reexec then GenesisStateMissing else StateUnavailable
  {
    hide Walk, AncestorAt, Closed;
    AncestorSelf(s, block);
    var current := block;
    back := 0;
    for i := 0 to reexec
      invariant back == i <= block.number && current == AncestorAt(s, block, block.number - back)
      invariant forall j: nat :: 0 < j <= back ==> !Available(s, disk, disk, block, j)
    {
      if current.number == 0 {
        return Err(GenesisStateMissing), back;
      }
      AncestorIsParent(s, block, current.number);
      ParentLookup(s, current);
      var parent := ParentOf(s, current);
      if parent.None? {
        return Err(MissingBlock), back;
      }
      current, back := parent.value, back + 1;
      if current.root in disk {
        return Ok(current), back;
      }
    }
    return Err(StateUnavailable), back;
  }

  lemma ParentLookup(s: Store, b: Header)
    requires Closed(s) && Stored(s, b) && b.number > 0
    ensures ParentOf(s, b).Some? && ParentOf(s, b).value.hash == b.parent && Stored(s, ParentOf(s, b).value)
  {
  }

  /** The forward half: re-execute the canonical blocks above `from` up to `block`. */
  method ReplayForward<S>(s: Store, canon: CanonIndex, exec: (S, Header) -> Option<S>, from: Header, base: S,
                          origin: nat, ghost head: Header, ghost initial: S) returns (r: Result<S, Error>)
    requires Closed(s) && Stored(s, head) && IsPath(s, canon, head)
    requires from.number <= origin <= head.number && from == AncestorAt(s, head, from.number)
    requires StateOf(s, initial, exec, from) == Some(base)
    ensures r.Ok? <==> StateOf(s, initial, exec, AncestorAt(s, head, origin)).Some?
    ensures r.Ok? ==> StateOf(s, initial, exec, AncestorAt(s, head, origin)) == Some(r.value)
  {
    hide Walk, AncestorAt, Closed, StateOf, IsPath;
    var current, state := from, base;
    while current.number < origin
      invariant current.number <= origin && current == AncestorAt(s, head, current.number)
      invariant StateOf(s, initial, exec, current) == Some(state)
      decreases origin - current.number
    {
      var next := current.number + 1;
      CanonicalBlock(s, canon, head, next);
      var block := Lookup(s, ReadCanonicalHash(canon, next), next);
      if block.None? {
        return Err(BlockNotFound);
      }
      StateOfPath(s, initial, exec, head, next);
      current := block.value;
      var result := exec(state, current);
      if result.None? {
        PrefixFails(s, initial, exec, head, next, origin);
        return Err(ProcessingFailed);
      }
      state := result.value;
    }
    return Ok(state);
  }

  lemma CanonicalBlock(s: Store, canon: CanonIndex, head: Header, n: nat)
    requires Closed(s) && Stored(s, head) && IsPath(s, canon, head) && n <= head.number
    ensures Lookup(s, ReadCanonicalHash(canon, n), n) == Some(AncestorAt(s, head, n))
  {
    hide Walk, AncestorAt;
  }

  lemma PrefixFails<S>(s: Store, initial: S, exec: (S, Header) -> Option<S>, head: Header, n: nat, m: nat)
    requires Closed(s) && Stored(s, head) && n <= m <= head.number
    requires StateOf(s, initial, exec, AncestorAt(s, head, n)).None?
    ensures StateOf(s, initial, exec, AncestorAt(s, head, m)).None?
  {
    hide Walk, AncestorAt, StateOf;
    AncestorOfAncestor(s, head, m, n);
    StateOfFails(s, initial, exec, AncestorAt(s, head, m), n);
  }

  /** The state of a canonical block, stepping back at most `reexec` blocks. It is
      the state the definition gives, and it is found whenever the chain executes
      and one of the states within reach can be opened. */
  method StateAtBlock<S>(s: Store, canon: CanonIndex, exec: (S, Header) -> Option<S>, live: map<Hash, S>, disk: map<Hash, S>,
                         block: Header, reexec: nat, readOnly: bool, ghost head: Header, ghost initial: S)
    returns (r: Result<S, Error>, ghost back: nat)
    requires Closed(s) && Stored(s, head) && IsPath(s, canon, head)
    requires block.number <= head.number && AncestorAt(s, head, block.number) == block
    requires Honest(s, initial, exec, head, live) && Honest(s, initial, exec, head, disk)
    ensures back <= reexec
    ensures r.Ok? ==> StateOf(s, initial, exec, block) == Some(r.value)
    ensures StateOf(s, initial, exec, block).Some? ==>
      (r.Ok? <==> WithinReach(s, if readOnly then live else disk, disk, block, reexec))
  {
    hide Walk, AncestorAt, Closed, StateOf, IsPath;
    AncestorSelf(s, block);
    back := 0;
    var first := if readOnly then live else disk;
    if block.root in first {
      assert Available(s, first, disk, block, 0);
      return Ok(first[block.root]), 0;
    }
    var found;
    found, back := SearchBack(s, disk, block, reexec);
    if found.Err? {
      NoneAvailable(s, first, disk, block, reexec);
      return Err(found.error), back;
    }
    var from := found.value;
    AncestorOfAncestor(s, head, block.number, from.number);
    assert Available(s, first, disk, block, back);
    r := ReplayForward(s, canon, exec, from, disk[from.root], block.number, head, initial);
  }

  lemma NoneAvailable<S>(s: Store, first: map<Hash, S>, disk: map<Hash, S>, block: Header, reexec: nat)
    requires Closed(s) && Stored(s, block) && block.root !in first && AncestorAt(s, block, block.number) == block
    requires forall j: nat :: 0 < j <= reexec ==> !Available(s, disk, disk, block, j)
    ensures forall j: nat :: j <= reexec ==> !Available(s, first, disk, block, j)
  {
    hide Walk, AncestorAt, Closed;
    forall j: nat | j <= reexec
      ensures !Available(s, first, disk, block, j)
    {
      if j > 0 {
        assert !Available(s, disk, disk, block, j);
      }
    }
  }
}
