/** Garbage collection of in-memory state tries: every written root is referenced and
    queued, and references are released once their block is old enough. */
module TrieRetention {
  import opened Wrappers
  import opened Ancestry

  const TRIES_IN_MEMORY: nat := 128

  /** A queued root with the number of its block. */
  datatype Entry = Entry(root: Hash, number: nat)

  function RootsOf(queue: seq<Entry>): seq<Hash> {
    seq(|queue|, i requires 0 <= i < |queue| => queue[i].root)
  }

  function Roots(queue: seq<Entry>): multiset<Hash> {
    multiset(RootsOf(queue))
  }

  /** The entries of blocks above `chosen`. */
  function Newer(queue: seq<Entry>, chosen: nat): seq<Entry> {
    if queue == [] then []
    else
      var rest, last := Newer(queue[..|queue| - 1], chosen), queue[|queue| - 1];
      if last.number > chosen then rest + [last] else rest
  }

  lemma {:induction false} NewerConcat(a: seq<Entry>, b: seq<Entry>, chosen: nat)
    ensures Newer(a + b, chosen) == Newer(a, chosen) + Newer(b, chosen)
  {
    if b == [] {
      assert a + b == a;
    } else {
      assert (a + b)[..|a + b| - 1] == a + b[..|b| - 1];
      NewerConcat(a, b[..|b| - 1], chosen);
    }
  }

  lemma {:induction false} NewerAll(queue: seq<Entry>, chosen: nat)
    requires forall i :: 0 <= i < |queue| ==> queue[i].number > chosen
    ensures Newer(queue, chosen) == queue
  {
    if queue == [] {
    } else {
      NewerAll(queue[..|queue| - 1], chosen);
    }
  }

  function Without(queue: seq<Entry>, i: nat): seq<Entry>
    requires i < |queue|
  {
    queue[..i] + queue[i + 1..]
  }

  lemma WithoutRoots(queue: seq<Entry>, i: nat)
    requires i < |queue|
    ensures Roots(Without(queue, i)) + multiset{queue[i].root} == Roots(queue)
  {
    var a, b := RootsOf(queue[..i]), RootsOf(queue[i + 1..]);
    assert RootsOf(Without(queue, i)) == a + b;
    assert RootsOf(queue) == a + ([queue[i].root] + b);
  }

  lemma AppendRoots(queue: seq<Entry>, e: Entry)
    ensures Roots(queue + [e]) == Roots(queue) + multiset{e.root}
  {
    assert RootsOf(queue + [e]) == RootsOf(queue) + [e.root];
  }

  /** Dropping an old entry does not change the newer ones. */
  lemma WithoutOld(queue: seq<Entry>, i: nat, chosen: nat)
    requires i < |queue| && queue[i].number <= chosen
    ensures Newer(Without(queue, i), chosen) == Newer(queue, chosen)
  {
    hide Newer;
    var a, x, b := queue[..i], [queue[i]], queue[i + 1..];
    NewerConcat(a, b, chosen);
    NewerConcat(a, x + b, chosen);
    NewerConcat(x, b, chosen);
    assert queue == a + (x + b);
    NewerOfOld(queue[i], chosen);
  }

  lemma NewerOfOld(e: Entry, chosen: nat)
    requires e.number <= chosen
    ensures Newer([e], chosen) == []
  {
    assert [e][..0] == [];
  }

  ghost predicate Oldest(queue: seq<Entry>, i: nat) {
    i < |queue| && forall j :: 0 <= j < |queue| ==> queue[i].number <= queue[j].number
  }

  /** Popping and pushing back only moves an entry to the end; if it is new, the
      oldest entry is new, and so are all. */
  lemma PushBack(queue: seq<Entry>, i: nat, chosen: nat)
    requires Oldest(queue, i) && queue[i].number > chosen
    ensures multiset(Without(queue, i) + [queue[i]]) == multiset(queue)
    ensures Roots(Without(queue, i) + [queue[i]]) == Roots(queue)
    ensures forall e :: e in Without(queue, i) + [queue[i]] ==> e.number > chosen
    ensures Newer(queue, chosen) == queue
  {
    hide Newer, Roots;
    var a, b := queue[..i], queue[i + 1..];
    assert queue == a + ([queue[i]] + b);
    WithoutRoots(queue, i);
    AppendRoots(Without(queue, i), queue[i]);
    NewerAll(queue, chosen);
  }

  lemma WithoutLength(queue: seq<Entry>, i: nat)
    requires Oldest(queue, i)
    ensures i < |queue| && |Without(queue, i)| == |queue| - 1
  {
  }

  lemma NothingNewer(chosen: nat)
    ensures Newer([], chosen) == []
  {
  }

  lemma NothingQueued()
    ensures Roots([]) == multiset{}
  {
  }

  /** A queued root is still referenced: more references were taken than released. */
  lemma QueuedIsReferenced(queue: seq<Entry>, taken: multiset<Hash>, released: multiset<Hash>, i: nat)
    requires taken == released + Roots(queue) && i < |queue|
    ensures taken[queue[i].root] > released[queue[i].root]
  {
    assert RootsOf(queue)[i] == queue[i].root;
  }

  class Collector {
    /** The priority queue, lowest block number first. */
    var queue: seq<Entry>

    /** Every reference taken and released so far, root by root. */
    ghost var taken: multiset<Hash>
    ghost var released: multiset<Hash>

    /** What was taken and not released is exactly what is queued. */
    ghost predicate Valid()
      reads this
    {
      taken == released + Roots(queue)
    }

    constructor ()
      ensures Valid() && queue == [] && taken == multiset{}
    {
      queue := [];
      taken, released := multiset{}, multiset{};
    }

    /** Pop an entry with the lowest number. */
    method Pop() returns (e: Entry, ghost i: nat)
      requires queue != []
      modifies `queue
      ensures Oldest(old(queue), i) && e == old(queue)[i] && queue == Without(old(queue), i)
    {
      var k := 0;
      for j := 0 to |queue|
        invariant 0 <= k < |queue|
        invariant forall m :: 0 <= m < j ==> queue[k].number <= queue[m].number
      {
        if queue[j].number < queue[k].number {
          k := j;
        }
      }
      e, i := queue[k], k;
      queue := queue[..k] + queue[k + 1..];
    }

    method Dereference(root: Hash)
      modifies `released
      ensures released == old(released) + multiset{root}
    {
      released := released + multiset{root};
    }

    /** Release everything at or below `chosen`, and nothing above it. */
    method Collect(chosen: nat)
      requires Valid()
      modifies `queue, `released
      ensures Valid()
      ensures multiset(queue) == multiset(Newer(old(queue), chosen))
      ensures forall i :: 0 <= i < |queue| ==> queue[i].number > chosen
    {
      hide Newer, Roots, Oldest, Without;
      ghost var all := queue;
      while queue != []
        invariant Valid()
        invariant Newer(queue, chosen) == Newer(all, chosen)
        decreases |queue|
      {
        ghost var before := queue;
        var e, i := Pop();
        WithoutLength(before, i);
        if e.number > chosen {
          PushBack(before, i, chosen);
          queue := queue + [e];
          return;
        }
        WithoutOld(before, i, chosen);
        WithoutRoots(before, i);
        Dereference(e.root);
      }
      NothingNewer(chosen);
    }

    /** Write the state of a block. A pruning node references and queues the root, and
        above the first blocks releases what fell out of the window: afterwards the
        queue holds exactly the entries above `number - 128`. */
    method WriteState(root: Hash, number: nat, archive: bool)
      requires Valid()
      modifies this
      ensures Valid()
      ensures archive ==> unchanged(this)
      ensures !archive ==> taken == old(taken) + multiset{root}
      ensures !archive && number <= TRIES_IN_MEMORY ==>
                queue == old(queue) + [Entry(root, number)] && released == old(released)
      ensures !archive && number > TRIES_IN_MEMORY ==>
                multiset(queue) == multiset(Newer(old(queue) + [Entry(root, number)], number - TRIES_IN_MEMORY))
      ensures !archive && number > TRIES_IN_MEMORY ==>
                forall i :: 0 <= i < |queue| ==> queue[i].number > number - TRIES_IN_MEMORY
    {
      hide Newer, Roots;
      if archive {
        return;
      }
      taken := taken + multiset{root};
      AppendRoots(queue, Entry(root, number));
      queue := queue + [Entry(root, number)];
      if number <= TRIES_IN_MEMORY {
        return;
      }
      Collect(number - TRIES_IN_MEMORY);
    }

    /** Release everything that is left at shutdown. */
    method Stop()
      requires Valid()
      modifies this
      ensures queue == [] && released == taken == old(taken)
    {
      hide Roots;
      while queue != []
        invariant Valid() && taken == old(taken)
        decreases |queue|
      {
        ghost var before := queue;
        var e, i := Pop();
        WithoutRoots(before, i);
        Dereference(e.root);
      }
      NothingQueued();
    }

    /** Any run of writes followed by a shutdown releases what it took. */
    method Run(writes: seq<(Hash, nat)>, archive: bool)
      requires Valid()
      modifies this
      ensures queue == [] && released == taken
    {
      for i := 0 to |writes|
        invariant Valid()
      {
        WriteState(writes[i].0, writes[i].1, archive);
      }
      Stop();
    }
  }
}
