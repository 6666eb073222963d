/** Block import: the first-block dispatch, the side-chain path and the recovery of
    pruned ancestors, which call each other.

    Decisions taken elsewhere (fork choice, failing head updates, the interrupt flag,
    the passing of time) are arbitrary choices here, so what is proved holds for all
    of them. */
module Import {
  import opened Wrappers
  import opened Ancestry
  import opened TrieRetention

  const MAX_BATCH_BLOCKS: nat := 2048
  const MAX_BATCH_MEMORY: nat := 64 * 1024 * 1024

  /** What the consensus engine, the body validator and the processor say of a block. */
  datatype Engine = Engine(accepts: Header -> bool,
                           futureUntil: Header -> nat,
                           bodyValid: Header -> bool,
                           executes: Header -> bool,
                           banned: Header -> bool,
                           size: Header -> nat)

  datatype Verdict = Fine | KnownBlock | FutureBlock | UnknownAncestor | PrunedAncestor | BadBlock

  datatype Error = Rejected(verdict: Verdict) | BannedHash | MissingState | ExecutionFailed | ForkChoiceFailed
                 | HeadUpdateFailed | TooFarInFuture | GhostState | MissingParent | Interrupted | NonContiguous

  type Outcome = Result<(), Error>

  predicate InMemory(queue: seq<Entry>, root: Hash) {
    exists e :: e in queue && e.root == root
  }

  /** A state can be opened if its trie is on disk or still referenced in memory. */
  predicate Available(disk: set<Hash>, queue: seq<Entry>, root: Hash) {
    root in disk || InMemory(queue, root)
  }

  /** The lookup of a block together with its state. */
  predicate BlockAndState(s: Store, disk: set<Hash>, queue: seq<Entry>, hash: Hash, number: int) {
    Lookup(s, hash, number).Some? && Available(disk, queue, s[hash].root)
  }

  /** The effect of writing a state: an archive node flushes it, a pruning node queues
      it and releases what fell out of the window. */
  ghost predicate Written(archive: bool, disk: set<Hash>, queue: seq<Entry>, disk': set<Hash>, queue': seq<Entry>,
                          b: Header)
  {
    if archive then disk' == disk + {b.root} && queue' == queue
    else
      && disk' == disk
      && (forall e :: e in queue' ==> e in queue || e == Entry(b.root, b.number))
      && (forall e :: e in queue' && b.number > TRIES_IN_MEMORY ==> e.number > b.number - TRIES_IN_MEMORY)
      && (forall e :: (e in queue || e == Entry(b.root, b.number)) && e.number > b.number - TRIES_IN_MEMORY ==>
                        e in queue')
  }

  lemma {:induction false} NewerMember(queue: seq<Entry>, chosen: nat, e: Entry)
    ensures e in Newer(queue, chosen) <==> e in queue && e.number > chosen
  {
    if queue == [] {
    } else {
      var rest, last := queue[..|queue| - 1], queue[|queue| - 1];
      NewerMember(rest, chosen, e);
      assert queue == rest + [last];
    }
  }

  lemma WrittenNewer(disk: set<Hash>, queue: seq<Entry>, queue': seq<Entry>, b: Header)
    requires b.number > TRIES_IN_MEMORY
    requires multiset(queue') == multiset(Newer(queue + [Entry(b.root, b.number)], b.number - TRIES_IN_MEMORY))
    ensures Written(false, disk, queue, disk, queue', b)
  {
    hide Newer;
    var all := queue + [Entry(b.root, b.number)];
    forall e
      ensures e in queue' <==> e in all && e.number > b.number - TRIES_IN_MEMORY
    {
      NewerMember(all, b.number - TRIES_IN_MEMORY, e);
      assert e in queue' <==> e in multiset(queue');
    }
  }

  /** A state that was just written is available. */
  lemma WrittenIsAvailable(archive: bool, disk: set<Hash>, queue: seq<Entry>, disk': set<Hash>, queue': seq<Entry>,
                           b: Header)
    requires Written(archive, disk, queue, disk', queue', b)
    ensures Available(disk', queue', b.root)
  {
    if !archive {
      assert Entry(b.root, b.number) in queue';
    }
  }

  // ------------------------------------------------ what a recovery leaves behind

  /** `segment` lists a block and its stateless ancestors, newest first. */
  ghost predicate Descending(segment: seq<Header>) {
    forall i :: 0 < i < |segment| ==> segment[i].number == segment[i - 1].number - 1
  }

  lemma {:induction false} DescendingNumber(segment: seq<Header>, i: nat)
    requires Descending(segment) && i < |segment|
    ensures segment[i].number == segment[0].number - i
  {
    if i == 0 {
    } else {
      DescendingNumber(segment, i - 1);
    }
  }

  ghost predicate DistinctRoots(segment: seq<Header>) {
    forall i, j :: 0 <= i < j < |segment| ==> segment[i].root != segment[j].root
  }

  /** Every block of the segment, from `k` on, that shares the root of `segment[c]` lies
      in the retention window ending at `number`. */
  ghost predicate InWindow(segment: seq<Header>, k: nat, c: nat, number: nat)
    requires k <= c < |segment|
  {
    forall d :: k <= d < |segment| && segment[d].root == segment[c].root ==>
                  segment[d].number > number - TRIES_IN_MEMORY
  }

  ghost predicate OfSegment(segment: seq<Header>, k: nat, e: Entry) {
    exists j :: k <= j < |segment| && e == Entry(segment[j].root, segment[j].number)
  }

  ghost predicate Stateless(disk: set<Hash>, queue: seq<Entry>, segment: seq<Header>) {
    forall i :: 0 <= i < |segment| ==> !Available(disk, queue, segment[i].root)
  }

  /** The blocks `segment[k..]` were imported, oldest first, from `disk` and `queue`. */
  ghost predicate Recovered(archive: bool, disk: set<Hash>, queue: seq<Entry>, disk': set<Hash>, queue': seq<Entry>,
                            segment: seq<Header>, k: nat)
    requires k <= |segment|
  {
    && (!archive ==> disk' == disk)
    && (forall e :: e in queue' ==> e in queue || OfSegment(segment, k, e))
    && (k < |segment| ==>
          && (forall c :: k <= c < |segment| && (archive || InWindow(segment, k, c, segment[k].number)) ==>
                            Available(disk', queue', segment[c].root))
          && (!archive && DistinctRoots(segment) && segment[k].number > TRIES_IN_MEMORY ==>
                forall e :: e in queue' ==> e.number > segment[k].number - TRIES_IN_MEMORY))
  }

  /** A block of a distinct-root segment is not available before its own import. */
  lemma NotYetAvailable(disk: set<Hash>, queue: seq<Entry>, disk': set<Hash>, queue': seq<Entry>,
                        segment: seq<Header>, k: nat)
    requires k < |segment| && Stateless(disk, queue, segment) && DistinctRoots(segment)
    requires Recovered(false, disk, queue, disk', queue', segment, k + 1)
    ensures !Available(disk', queue', segment[k].root)
  {
    forall e | e in queue'
      ensures e.root != segment[k].root
    {
      assert !Available(disk, queue, segment[k].root);
      if e !in queue {
        assert OfSegment(segment, k + 1, e);
      }
    }
    assert !Available(disk, queue, segment[k].root);
  }

  /** An available block of the segment that is old enough to be in the window was
      queued by a block of the segment, which the next write does not release. */
  lemma StillAvailable(disk: set<Hash>, queue: seq<Entry>, disk': set<Hash>, queue': seq<Entry>, queue'': seq<Entry>,
                       segment: seq<Header>, k: nat, c: nat)
    requires k < c < |segment| && Stateless(disk, queue, segment) && Descending(segment)
    requires Recovered(false, disk, queue, disk', queue', segment, k + 1)
    requires Written(false, disk', queue', disk', queue'', segment[k])
    requires InWindow(segment, k, c, segment[k].number)
    ensures Available(disk', queue'', segment[c].root)
  {
    assert segment[k + 1].number == segment[k].number - 1;
    assert InWindow(segment, k + 1, c, segment[k + 1].number);
    assert !Available(disk, queue, segment[c].root);
    var e :| e in queue' && e.root == segment[c].root;
    assert OfSegment(segment, k + 1, e);
    assert e in queue'';
  }

  lemma RecoveredKnown(archive: bool, disk: set<Hash>, queue: seq<Entry>, disk': set<Hash>, queue': seq<Entry>,
                       segment: seq<Header>, k: nat)
    requires k < |segment| && Stateless(disk, queue, segment) && Descending(segment)
    requires Recovered(archive, disk, queue, disk', queue', segment, k + 1)
    requires Available(disk', queue', segment[k].root)
    ensures Recovered(archive, disk, queue, disk', queue', segment, k)
  {
    hide Available;
    if !archive && DistinctRoots(segment) {
      NotYetAvailable(disk, queue, disk', queue', segment, k);
    }
    OlderOfSegment(queue, queue', segment, k);
    forall c | k < c < |segment| && (archive || InWindow(segment, k, c, segment[k].number))
      ensures Available(disk', queue', segment[c].root)
    {
      assert segment[k + 1].number == segment[k].number - 1;
      assert !archive ==> InWindow(segment, k + 1, c, segment[k + 1].number);
    }
  }

  lemma OlderOfSegment(queue: seq<Entry>, queue': seq<Entry>, segment: seq<Header>, k: nat)
    requires forall e :: e in queue' ==> e in queue || OfSegment(segment, k + 1, e)
    ensures forall e :: e in queue' ==> e in queue || OfSegment(segment, k, e)
  {
  }

  lemma RecoveredWrite(archive: bool, disk: set<Hash>, queue: seq<Entry>, disk': set<Hash>, queue': seq<Entry>,
                       disk'': set<Hash>, queue'': seq<Entry>, segment: seq<Header>, k: nat)
    requires k < |segment| && Stateless(disk, queue, segment) && Descending(segment)
    requires Recovered(archive, disk, queue, disk', queue', segment, k + 1)
    requires Written(archive, disk', queue', disk'', queue'', segment[k])
    ensures Recovered(archive, disk, queue, disk'', queue'', segment, k)
  {
    WrittenIsAvailable(archive, disk', queue', disk'', queue'', segment[k]);
    OlderOfSegment(queue, queue', segment, k);
    assert OfSegment(segment, k, Entry(segment[k].root, segment[k].number));
    forall c | k <= c < |segment| && (archive || InWindow(segment, k, c, segment[k].number))
      ensures Available(disk'', queue'', segment[c].root)
    {
      if k < c {
        if archive {
          assert Available(disk', queue', segment[c].root);
        } else {
          StillAvailable(disk, queue, disk', queue', queue'', segment, k, c);
        }
      }
    }
  }

  /** With distinct roots the window decides exactly which states are there. */
  lemma WindowIsExact(archive: bool, disk: set<Hash>, queue: seq<Entry>, disk': set<Hash>, queue': seq<Entry>,
                      segment: seq<Header>, c: nat)
    requires c < |segment| && Stateless(disk, queue, segment) && DistinctRoots(segment)
    requires forall i :: 0 <= i < |segment| ==> segment[i].number > 0
    requires Recovered(archive, disk, queue, disk', queue', segment, 0)
    ensures Available(disk', queue', segment[c].root) <==>
              archive || segment[c].number > segment[0].number - TRIES_IN_MEMORY
  {
    if archive || segment[c].number > segment[0].number - TRIES_IN_MEMORY {
      assert archive || InWindow(segment, 0, c, segment[0].number);
    } else {
      assert !Available(disk, queue, segment[c].root);
      forall e | e in queue'
        ensures e.root != segment[c].root
      {
        if e !in queue {
          assert OfSegment(segment, 0, e);
        }
      }
    }
  }

  // -------------------------------------------------------------------- verdicts

  /** The block verdicts: known, malformed, orphan, without parent state, or fine. */
  function ValidateBody(engine: Engine, s: Store, disk: set<Hash>, queue: seq<Entry>, b: Header): Verdict {
    if BlockAndState(s, disk, queue, b.hash, b.number) then KnownBlock
    else if !engine.bodyValid(b) then BadBlock
    else if !BlockAndState(s, disk, queue, b.parent, b.number - 1) then
      if ParentOf(s, b).None? then UnknownAncestor else PrunedAncestor
    else Fine
  }

  /** Header verification first (the parent is the previous header of the batch), then
      the body; past the end of the batch there is nothing to complain about. */
  function VerdictAt(engine: Engine, clock: nat, s: Store, disk: set<Hash>, queue: seq<Entry>,
                     chain: seq<Header>, i: nat): Verdict
    requires i <= |chain|
  {
    if i == |chain| then Fine
    else if i == 0 && ParentOf(s, chain[0]).None? then UnknownAncestor
    else if clock < engine.futureUntil(chain[i]) then FutureBlock
    else if !engine.accepts(chain[i]) then BadBlock
    else ValidateBody(engine, s, disk, queue, chain[i])
  }

  /** Rows are content addressed (a hash names one block of the universe only), and only
      headers that were not from the future when they were verified are stored. */
  ghost predicate Sound(universe: Store, engine: Engine, clock: nat, s: Store) {
    && Keyed(universe)
    && Extends(s, universe)
    && forall h :: h in s ==> clock >= engine.futureUntil(s[h])
  }

  ghost predicate NoneFuture(engine: Engine, clock: nat, chain: seq<Header>) {
    forall i :: 0 <= i < |chain| ==> clock >= engine.futureUntil(chain[i])
  }

  /** The import stands at `i`: what precedes is stored, and the previous block has
      state. */
  ghost predicate Reached(s: Store, disk: set<Hash>, queue: seq<Entry>, chain: seq<Header>, i: nat)
    requires i <= |chain|
  {
    && AllStored(s, chain[..i])
    && (i > 0 ==> Available(disk, queue, chain[i - 1].root))
  }

  lemma StoredIsReal(universe: Store, engine: Engine, clock: nat, s: Store, b: Header)
    requires Sound(universe, engine, clock, s) && Stored(s, b)
    ensures Stored(universe, b) && clock >= engine.futureUntil(b)
  {
  }

  /** Later is still sound. */
  lemma SoundLater(universe: Store, engine: Engine, clock: nat, s: Store, now: nat)
    requires Sound(universe, engine, clock, s) && clock <= now
    ensures Sound(universe, engine, now, s)
  {
  }

  lemma SoundWrite(universe: Store, engine: Engine, clock: nat, s: Store, b: Header)
    requires Sound(universe, engine, clock, s) && Stored(universe, b) && clock >= engine.futureUntil(b)
    ensures Sound(universe, engine, clock, s[b.hash := b])
    ensures Extends(s, s[b.hash := b]) && Stored(s[b.hash := b], b)
  {
  }

  lemma ExtendsTrans(s: Store, s': Store, s'': Store)
    requires Extends(s, s') && Extends(s', s'')
    ensures Extends(s, s'')
  {
  }

  /** A known block is stored as given, with state. */
  lemma KnownStep(universe: Store, engine: Engine, clock: nat, s: Store, disk: set<Hash>, queue: seq<Entry>,
                  chain: seq<Header>, i: nat)
    requires Sound(universe, engine, clock, s) && i < |chain| && AllStored(universe, chain)
    requires Reached(s, disk, queue, chain, i)
    requires VerdictAt(engine, clock, s, disk, queue, chain, i) == KnownBlock
    ensures BlockAndState(s, disk, queue, chain[i].hash, chain[i].number)
    ensures Reached(s, disk, queue, chain, i + 1)
  {
    assert chain[..i + 1] == chain[..i] + [chain[i]];
    assert Stored(s, chain[i]);
  }

  lemma WriteStep(archive: bool, s: Store, disk: set<Hash>, queue: seq<Entry>, s': Store, disk': set<Hash>,
                  queue': seq<Entry>, chain: seq<Header>, i: nat)
    requires i < |chain| && Reached(s, disk, queue, chain, i)
    requires Extends(s, s') && Stored(s', chain[i])
    requires Written(archive, disk, queue, disk', queue', chain[i])
    ensures Reached(s', disk', queue', chain, i + 1)
  {
    assert chain[..i + 1] == chain[..i] + [chain[i]];
    WrittenIsAvailable(archive, disk, queue, disk', queue', chain[i]);
  }

  /** The importer works on verdict `v`: the validator's own, or fine for a known block
      that fork choice prefers over the head. */
  ghost predicate Agrees(engine: Engine, clock: nat, s: Store, disk: set<Hash>, queue: seq<Entry>,
                         chain: seq<Header>, i: nat, v: Verdict)
    requires i <= |chain|
  {
    var judged := VerdictAt(engine, clock, s, disk, queue, chain, i);
    v == judged || (v == Fine && judged == KnownBlock)
  }

  /** A fine block is not from the future, and its parent is there: with state, unless
      the block was known already. */
  lemma FineParent(engine: Engine, clock: nat, s: Store, disk: set<Hash>, queue: seq<Entry>,
                   chain: seq<Header>, i: nat)
    requires i < |chain| && Contiguous(chain) && Reached(s, disk, queue, chain, i)
    requires Agrees(engine, clock, s, disk, queue, chain, i, Fine)
    ensures clock >= engine.futureUntil(chain[i])
    ensures ParentOf(s, chain[i]).Some?
    ensures !Available(disk, queue, ParentOf(s, chain[i]).value.root) ==>
              i == 0 && BlockAndState(s, disk, queue, chain[0].hash, chain[0].number)
    ensures i > 0 ==> ParentOf(s, chain[i]) == Some(chain[i - 1])
  {
    if i > 0 {
      assert chain[..i][i - 1] == chain[i - 1];
    }
  }

  /** With the parent's state in place a block is neither an orphan nor pruned. */
  lemma NeverPruned(engine: Engine, clock: nat, s: Store, disk: set<Hash>, queue: seq<Entry>,
                    chain: seq<Header>, i: nat)
    requires i < |chain| && Contiguous(chain) && Reached(s, disk, queue, chain, i)
    requires i == 0 ==> BlockAndState(s, disk, queue, chain[0].parent, chain[0].number - 1)
    ensures VerdictAt(engine, clock, s, disk, queue, chain, i) != PrunedAncestor
    ensures VerdictAt(engine, clock, s, disk, queue, chain, i) != UnknownAncestor
    ensures VerdictAt(engine, clock, s, disk, queue, chain, i) == FutureBlock ==> !NoneFuture(engine, clock, chain)
  {
    if i > 0 {
      assert chain[..i][i - 1] == chain[i - 1];
    }
  }

  lemma NotFutureLater(engine: Engine, clock: nat, now: nat, chain: seq<Header>)
    requires clock <= now
    ensures NoneFuture(engine, clock, chain) ==> NoneFuture(engine, now, chain)
  {
  }

  // ------------------------------------------------------------- gathered segments

  /** The block below `segment[k - 1]`. */
  ghost function Older(segment: seq<Header>, base: Option<Header>, k: nat): Header
    requires k <= |segment| && base.Some?
  {
    if k < |segment| then segment[k] else base.value
  }

  /** `segment` is `start` and its ancestors in turn, and `next` is what comes below. */
  ghost predicate Lineage(s: Store, start: Header, segment: seq<Header>, next: Option<Header>) {
    && (segment == [] ==> next == Some(start))
    && (segment != [] ==> segment[0] == start && ParentOf(s, segment[|segment| - 1]) == next)
    && (forall k :: 0 < k < |segment| ==> ParentOf(s, segment[k - 1]) == Some(segment[k]))
  }

  /** The gathered blocks are those of the parent walk. */
  lemma {:induction false} LineageIsWalk(s: Store, start: Header, segment: seq<Header>, next: Option<Header>, k: nat)
    requires Lineage(s, start, segment, next) && k <= |segment|
    ensures Walk(s, start, k) == if k < |segment| then Some(segment[k]) else next
  {
    if k == 0 {
    } else {
      LineageIsWalk(s, start, segment, next, k - 1);
      WalkStep(s, start, k - 1);
    }
  }

  lemma LineageDescends(s: Store, start: Header, segment: seq<Header>, next: Option<Header>)
    requires Lineage(s, start, segment, next)
    ensures Descending(segment)
  {
  }

  lemma NothingRecovered(archive: bool, s: Store, disk: set<Hash>, queue: seq<Entry>, segment: seq<Header>)
    ensures Recovered(archive, disk, queue, disk, queue, segment, |segment|)
    ensures AllStored(s, segment[|segment|..])
  {
  }

  lemma LineageIsReal(universe: Store, engine: Engine, clock: nat, s: Store, start: Header, segment: seq<Header>,
                      next: Option<Header>)
    requires Sound(universe, engine, clock, s) && Lineage(s, start, segment, next) && Stored(universe, start)
    ensures AllStored(universe, segment)
    ensures segment != [] ==> segment[0] == start
  {
    forall k | 0 < k < |segment|
      ensures Stored(universe, segment[k])
    {
      assert ParentOf(s, segment[k - 1]) == Some(segment[k]);
    }
  }

  /** The `n` blocks of the segment from `k` on, oldest first. */
  function OldestFirst(segment: seq<Header>, k: nat, n: nat): seq<Header>
    requires k + n <= |segment|
  {
    seq(n, j requires 0 <= j < n => segment[k + n - 1 - j])
  }

  /** The memory a batch takes. */
  function Size(engine: Engine, batch: seq<Header>): nat {
    if batch == [] then 0 else Size(engine, batch[..|batch| - 1]) + engine.size(batch[|batch| - 1])
  }

  lemma SizeStep(engine: Engine, batch: seq<Header>, b: Header)
    ensures Size(engine, batch + [b]) == Size(engine, batch) + engine.size(b)
    ensures (batch + [b])[..|batch|] == batch
    ensures Size(engine, []) == 0
  {
  }

  lemma SizeShrinks(engine: Engine, batch: seq<Header>)
    requires batch != []
    ensures Size(engine, batch[..|batch| - 1]) <= Size(engine, batch)
  {
  }

  lemma OldestFirstStep(segment: seq<Header>, k: nat, n: nat)
    requires k + 1 + n <= |segment|
    ensures OldestFirst(segment, k + 1, n) + [segment[k]] == OldestFirst(segment, k, n + 1)
  {
  }

  lemma OldestFirstNone(segment: seq<Header>, k: nat)
    requires k <= |segment|
    ensures OldestFirst(segment, k, 0) == []
  {
  }

  /** A batch of a segment hangs together, stands on a block with state, and holds
      nothing from the future. */
  lemma BatchLinked(universe: Store, engine: Engine, clock: nat, s0: Store, s: Store, disk: set<Hash>,
                    queue: seq<Entry>, segment: seq<Header>, base: Option<Header>, k: nat, batch: seq<Header>)
    requires Sound(universe, engine, clock, s) && AllStored(s0, segment) && Extends(s0, s)
    requires batch != [] && k + |batch| <= |segment| && batch == OldestFirst(segment, k, |batch|)
    requires Lineage(s0, segment[0], segment, base) && base.Some?
    requires Available(disk, queue, Older(segment, base, k + |batch|).root)
    ensures Contiguous(batch) && AllStored(universe, batch) && NoneFuture(engine, clock, batch)
    ensures BlockAndState(s, disk, queue, batch[0].parent, batch[0].number - 1)
    ensures batch[|batch| - 1] == segment[k]
  {
    hide Available, Sound, AllStored, Lineage, Extends, Contiguous, NoneFuture, BlockAndState;
    ParentReady(s0, s, disk, queue, segment, base, k + |batch| - 1);
    SoundKeys(universe, engine, clock, s0, s);
    forall j | 0 < j < |batch|
      ensures Linked(batch[j - 1], batch[j])
    {
      LineageLink(s0, segment, base, k + |batch| - 1 - j);
    }
    LinkedBatch(batch);
    forall j | 0 <= j < |batch|
      ensures Stored(universe, batch[j]) && clock >= engine.futureUntil(batch[j])
    {
      StoredAt(s0, segment, k + |batch| - 1 - j);
      StoredExtends(s0, s, batch[j]);
      StoredIsReal(universe, engine, clock, s, batch[j]);
    }
    BatchReal(universe, engine, clock, batch);
  }

  ghost predicate Linked(parent: Header, b: Header) {
    b.parent == parent.hash && b.number == parent.number + 1
  }

  lemma LinkedBatch(batch: seq<Header>)
    requires forall j :: 0 < j < |batch| ==> Linked(batch[j - 1], batch[j])
    ensures Contiguous(batch)
  {
  }

  lemma BatchReal(universe: Store, engine: Engine, clock: nat, batch: seq<Header>)
    requires forall j :: 0 <= j < |batch| ==> Stored(universe, batch[j]) && clock >= engine.futureUntil(batch[j])
    ensures AllStored(universe, batch) && NoneFuture(engine, clock, batch)
  {
  }

  lemma SoundKeys(universe: Store, engine: Engine, clock: nat, s0: Store, s: Store)
    requires Sound(universe, engine, clock, s) && Extends(s0, s)
    ensures Keyed(s0)
  {
  }

  lemma LineageLink(s: Store, segment: seq<Header>, next: Option<Header>, m: nat)
    requires Keyed(s) && m + 1 < |segment| && Lineage(s, segment[0], segment, next)
    ensures Linked(segment[m + 1], segment[m])
  {
    assert ParentOf(s, segment[m + 1 - 1]) == Some(segment[m + 1]);
  }

  lemma StoredExtends(s: Store, s': Store, b: Header)
    requires Stored(s, b) && Extends(s, s')
    ensures Stored(s', b)
  {
  }

  lemma AllReached(s: Store, disk: set<Hash>, queue: seq<Entry>, chain: seq<Header>)
    requires chain != []
    ensures Reached(s, disk, queue, chain, |chain|) ==>
              AllStored(s, chain) && Available(disk, queue, chain[|chain| - 1].root)
  {
    assert chain[..|chain|] == chain;
  }

  lemma LastReached(s: Store, disk: set<Hash>, queue: seq<Entry>, chain: seq<Header>)
    requires chain != [] && Reached(s, disk, queue, chain, |chain|)
    ensures Stored(s, chain[|chain| - 1]) && Available(disk, queue, chain[|chain| - 1].root)
  {
    assert chain[..|chain|][|chain| - 1] == chain[|chain| - 1];
  }

  /** All that `t` has more than `s` are blocks of `chain[..i]`. */
  ghost predicate Added(s: Store, t: Store, chain: seq<Header>, i: nat)
    requires i <= |chain|
  {
    forall h :: h in t ==> (h in s && s[h] == t[h]) || exists k :: 0 <= k < i && t[h] == chain[k]
  }

  lemma NothingAdded(s: Store, chain: seq<Header>)
    ensures Added(s, s, chain, 0)
  {
  }

  /** What was added lies below the next block, so a lookup at its height is unchanged. */
  lemma AddedBelow(s: Store, t: Store, chain: seq<Header>, i: nat, hash: Hash)
    requires i < |chain| && Contiguous(chain) && Added(s, t, chain, i) && Extends(s, t)
    ensures Lookup(t, hash, chain[i].number) == Lookup(s, hash, chain[i].number)
  {
    forall k | 0 <= k < i
      ensures chain[k].number < chain[i].number
    {
      ContiguousRises(chain, k, i);
    }
  }

  lemma {:induction false} ContiguousRises(chain: seq<Header>, k: nat, i: nat)
    requires k < i < |chain| && Contiguous(chain)
    ensures chain[k].number < chain[i].number
  {
    if k < i - 1 {
      ContiguousRises(chain, k, i - 1);
    }
  }

  lemma AddedStep(s: Store, t: Store, t': Store, chain: seq<Header>, i: nat)
    requires i < |chain| && Added(s, t, chain, i) && AllStored(t, chain[..i]) && Extends(t, t')
    requires t' == t[chain[i].hash := chain[i]] || (t' == t && Stored(t, chain[i]))
    ensures Added(s, t', chain, i + 1) && AllStored(t', chain[..i + 1])
  {
    assert chain[..i + 1] == chain[..i] + [chain[i]];
  }

  /** A pruned block may be written: it is not from the future, and a row of its hash
      can only be its own. */
  lemma PrunedWrite(universe: Store, engine: Engine, clock: nat, s: Store, disk: set<Hash>, queue: seq<Entry>,
                    chain: seq<Header>, i: nat)
    requires Sound(universe, engine, clock, s) && i < |chain| && Stored(universe, chain[i])
    requires VerdictAt(engine, clock, s, disk, queue, chain, i) == PrunedAncestor
    ensures Sound(universe, engine, clock, s[chain[i].hash := chain[i]])
    ensures Extends(s, s[chain[i].hash := chain[i]])
    ensures Lookup(s, chain[i].hash, chain[i].number).Some? ==> Stored(s, chain[i])
  {
  }

  lemma LineageIsStored(universe: Store, engine: Engine, clock: nat, s: Store, start: Header, segment: seq<Header>,
                        next: Option<Header>)
    requires Sound(universe, engine, clock, s) && Lineage(s, start, segment, next) && Stored(s, start)
    ensures AllStored(s, segment)
    ensures segment == [] ==> next == Some(start)
    ensures segment != [] ==> segment[0] == start
  {
    forall k | 0 < k < |segment|
      ensures Stored(s, segment[k])
    {
      assert ParentOf(s, segment[k - 1]) == Some(segment[k]);
    }
  }

  /** What a complete re-import of a gap leaves behind. */
  lemma RecoveryLeaves(archive: bool, s: Store, disk: set<Hash>, queue: seq<Entry>, disk': set<Hash>,
                       queue': seq<Entry>, segment: seq<Header>, base: Option<Header>)
    requires segment != [] && base.Some? && Lineage(s, segment[0], segment, base) && Stateless(disk, queue, segment)
    requires Recovered(archive, disk, queue, disk', queue', segment, 0)
    ensures archive || segment[0].number - base.value.number <= TRIES_IN_MEMORY ==>
              forall c :: 0 <= c < |segment| ==> Available(disk', queue', segment[c].root)
    ensures DistinctRoots(segment) ==>
              forall c :: 0 <= c < |segment| ==>
                            (Available(disk', queue', segment[c].root) <==>
                               archive || segment[c].number > segment[0].number - TRIES_IN_MEMORY)
  {
    hide Lineage, Recovered, Available, Stateless, InWindow, DistinctRoots;
    LineageNumbers(s, segment, base);
    if archive || segment[0].number - base.value.number <= TRIES_IN_MEMORY {
      forall c | 0 <= c < |segment|
        ensures Available(disk', queue', segment[c].root)
      {
        if !archive {
          ShortGap(segment, base.value, c);
        }
        WindowSuffices(archive, disk, queue, disk', queue', segment, c);
      }
    }
    if DistinctRoots(segment) {
      forall c | 0 <= c < |segment|
        ensures Available(disk', queue', segment[c].root) <==>
                  archive || segment[c].number > segment[0].number - TRIES_IN_MEMORY
      {
        WindowIsExact(archive, disk, queue, disk', queue', segment, c);
      }
    }
  }

  lemma WindowSuffices(archive: bool, disk: set<Hash>, queue: seq<Entry>, disk': set<Hash>, queue': seq<Entry>,
                       segment: seq<Header>, c: nat)
    requires c < |segment| && (archive || InWindow(segment, 0, c, segment[0].number))
    requires Recovered(archive, disk, queue, disk', queue', segment, 0)
    ensures Available(disk', queue', segment[c].root)
  {
    hide Available, InWindow;
  }

  lemma ShortGap(segment: seq<Header>, base: Header, c: nat)
    requires c < |segment| && segment[0].number - base.number <= TRIES_IN_MEMORY
    requires forall i :: 0 <= i < |segment| ==> segment[i].number > base.number
    ensures InWindow(segment, 0, c, segment[0].number)
  {
  }

  lemma LineageNumbers(s: Store, segment: seq<Header>, base: Option<Header>)
    requires segment != [] && base.Some? && Lineage(s, segment[0], segment, base)
    ensures forall i :: 0 <= i < |segment| ==> segment[i].number > base.value.number
  {
    LineageDescends(s, segment[0], segment, base);
    DescendingNumber(segment, |segment| - 1);
    forall i | 0 <= i < |segment|
      ensures segment[i].number > base.value.number
    {
      DescendingNumber(segment, i);
    }
  }

  // ----------------------------------------------------------- a gap that is too long

  function GapBlock(h: Hash): Header {
    Header(h, if h == 0 then 0 else h - 1, if h == 0 then 0 else h - 1, 0, 0, h, [])
  }

  /** A gap of one block more than the window, newest first, on top of block zero. */
  function Gap(): seq<Header> {
    seq(129, i requires 0 <= i < 129 => GapBlock(130 - i))
  }

  function GapStore(): Store {
    map h: Hash | 1 <= h <= 130 :: GapBlock(h)
  }

  lemma GapParent(h: Hash)
    requires 2 <= h <= 130
    ensures ParentOf(GapStore(), GapBlock(h)) == Some(GapBlock(h - 1))
  {
    assert GapBlock(h - 1).hash == h - 1;
  }

  lemma GapLinks()
    ensures Lineage(GapStore(), GapBlock(130), Gap(), Some(GapBlock(1)))
  {
    hide GapStore, GapBlock, Lookup;
    var gap := Gap();
    forall k | 0 < k < |gap|
      ensures ParentOf(GapStore(), gap[k - 1]) == Some(gap[k])
    {
      GapParent(130 - (k - 1));
    }
    GapParent(2);
  }

  lemma GapIsStateless()
    ensures Stateless({1}, [], Gap()) && Available({1}, [], GapBlock(1).root)
    ensures DistinctRoots(Gap())
  {
    hide GapBlock;
    forall i | 0 <= i < 129
      ensures Gap()[i].root == 130 - i
    {
      GapRoot(130 - i);
    }
    GapRoot(1);
  }

  lemma GapRoot(h: Hash)
    ensures GapBlock(h).root == h
  {
  }

  lemma GapAt(i: nat)
    ensures |Gap()| == 129 && |GapQueue()| == 128
    ensures i < 129 ==> Gap()[i].root == 130 - i && Gap()[i].number == 129 - i
    ensures i < 128 ==> GapQueue()[i] == Entry(130 - i, 129 - i)
  {
  }

  /** Such a re-import exists: the last 128 writes stay queued. */
  lemma GapRecovers()
    ensures Recovered(false, {1}, [], {1}, GapQueue(), Gap(), 0)
  {
    hide Gap, GapQueue, Available, OfSegment, InWindow;
    var gap, queue := Gap(), GapQueue();
    GapAt(0);
    forall e | e in queue
      ensures OfSegment(gap, 0, e) && e.number > 1
    {
      var j :| 0 <= j < |queue| && queue[j] == e;
      GapAt(j);
      InSegment(gap, j, e);
    }
    forall c: nat | c < |gap| && InWindow(gap, 0, c, 129)
      ensures Available({1}, queue, gap[c].root)
    {
      GapAt(c);
      OwnNumberInWindow(gap, c, 129);
      InQueue({1}, queue, c);
    }
  }

  lemma InSegment(segment: seq<Header>, j: nat, e: Entry)
    requires j < |segment| && e == Entry(segment[j].root, segment[j].number)
    ensures OfSegment(segment, 0, e)
  {
  }

  lemma OwnNumberInWindow(segment: seq<Header>, c: nat, number: nat)
    requires c < |segment| && InWindow(segment, 0, c, number)
    ensures segment[c].number > number - TRIES_IN_MEMORY
  {
  }

  lemma InQueue(disk: set<Hash>, queue: seq<Entry>, i: nat)
    requires i < |queue|
    ensures Available(disk, queue, queue[i].root)
  {
    assert queue[i] in queue;
  }

  function GapQueue(): seq<Entry> {
    seq(128, i requires 0 <= i < 128 => Entry(130 - i, 129 - i))
  }

  /** Only block zero has its state, on disk. However a pruning node re-imports the gap,
      the state of its oldest block is gone again afterwards. */
  lemma LongGapForgets(disk: set<Hash>, queue: seq<Entry>)
    requires Recovered(false, {1}, [], disk, queue, Gap(), 0)
    ensures Lineage(GapStore(), GapBlock(130), Gap(), Some(GapBlock(1)))
    ensures Stateless({1}, [], Gap()) && Available({1}, [], GapBlock(1).root)
    ensures !Available(disk, queue, Gap()[128].root) && Available(disk, queue, Gap()[127].root)
  {
    hide Lineage, Stateless, Recovered, Available, DistinctRoots, GapStore;
    GapLinks();
    GapIsStateless();
    assert Gap()[0] == GapBlock(130) && Gap()[127] == GapBlock(3) && Gap()[128] == GapBlock(2);
    RecoveryLeaves(false, GapStore(), {1}, [], disk, queue, Gap(), Some(GapBlock(1)));
  }

  // --------------------------------------------------------------- steps of the import

  lemma NothingStored(s: Store)
    ensures AllStored(s, [])
  {
  }

  /** The ancestors are stored, so they are not from the future. */
  lemma LineageOnTime(universe: Store, engine: Engine, clock: nat, s: Store, start: Header, segment: seq<Header>,
                      next: Option<Header>, k: nat)
    requires Sound(universe, engine, clock, s) && Lineage(s, start, segment, next) && k < |segment|
    ensures k > 0 ==> clock >= engine.futureUntil(segment[k])
    ensures segment[0] == start
  {
    assert k > 0 ==> ParentOf(s, segment[k - 1]) == Some(segment[k]);
  }

  lemma ParentReady(s0: Store, s: Store, disk: set<Hash>, queue: seq<Entry>, segment: seq<Header>,
                    base: Option<Header>, k: nat)
    requires k < |segment| && base.Some? && Lineage(s0, segment[0], segment, base) && Extends(s0, s)
    requires Available(disk, queue, Older(segment, base, k + 1).root)
    ensures BlockAndState(s, disk, queue, segment[k].parent, segment[k].number - 1)
  {
    assert ParentOf(s0, segment[k]) == Some(Older(segment, base, k + 1));
  }

  lemma KnownIsStored(universe: Store, engine: Engine, clock: nat, s: Store, disk: set<Hash>, queue: seq<Entry>,
                      b: Header)
    requires Sound(universe, engine, clock, s) && Stored(universe, b)
    requires BlockAndState(s, disk, queue, b.hash, b.number)
    ensures Stored(s, b) && Available(disk, queue, b.root)
  {
  }

  lemma StoredLater(s: Store, s': Store, segment: seq<Header>, k: nat)
    requires k < |segment| && AllStored(s, segment[k + 1..]) && Extends(s, s') && Stored(s', segment[k])
    ensures AllStored(s', segment[k..])
  {
    assert segment[k..] == [segment[k]] + segment[k + 1..];
  }

  /** A pruned verdict can only fall on the first block of a batch. */
  lemma PrunedIsFirst(engine: Engine, clock: nat, s: Store, disk: set<Hash>, queue: seq<Entry>,
                      chain: seq<Header>, i: nat)
    requires i < |chain| && Contiguous(chain) && Reached(s, disk, queue, chain, i)
    requires VerdictAt(engine, clock, s, disk, queue, chain, i) == PrunedAncestor
    ensures i == 0 && ParentOf(s, chain[0]).Some?
  {
    if i > 0 {
      NeverPruned(engine, clock, s, disk, queue, chain, i);
    }
  }

  lemma EndIsFine(engine: Engine, clock: nat, s: Store, disk: set<Hash>, queue: seq<Entry>, chain: seq<Header>)
    ensures VerdictAt(engine, clock, s, disk, queue, chain, |chain|) == Fine
  {
  }

  lemma StoredAt(s: Store, chain: seq<Header>, i: nat)
    requires AllStored(s, chain) && i < |chain|
    ensures Stored(s, chain[i])
  {
  }

  lemma PrefixStored(s: Store, chain: seq<Header>, i: nat)
    requires 0 < i <= |chain| && AllStored(s, chain[..i])
    ensures Stored(s, chain[i - 1])
  {
    assert chain[..i][i - 1] == chain[i - 1];
  }

  lemma ExtendsStored(s: Store, t: Store, chain: seq<Header>)
    requires Extends(s, t) && AllStored(s, chain)
    ensures AllStored(t, chain)
  {
  }

  lemma ExtendsSelf(s: Store)
    ensures Extends(s, s)
  {
  }

  lemma FutureNow(engine: Engine, before: nat, clock: nat, s: Store, disk: set<Hash>, queue: seq<Entry>,
                  chain: seq<Header>, i: nat)
    requires i < |chain| && before <= clock
    requires VerdictAt(engine, clock, s, disk, queue, chain, i) == FutureBlock
    ensures !NoneFuture(engine, before, chain)
  {
    assert clock < engine.futureUntil(chain[i]);
  }

  lemma NothingReached(s: Store, disk: set<Hash>, queue: seq<Entry>, chain: seq<Header>)
    ensures Reached(s, disk, queue, chain, 0)
  {
  }

  // ------------------------------------------------------ what got into the database

  /** Blocks, states on disk and states in memory. */
  datatype Database = Database(blocks: Store, disk: set<Hash>, queue: seq<Entry>)

  /** A stored block with this state root passed every check and its execution. */
  ghost predicate Proven(engine: Engine, s: Store, root: Hash) {
    exists h :: h in s && s[h].root == root
                && engine.accepts(s[h]) && engine.bodyValid(s[h]) && engine.executes(s[h]) && !engine.banned(s[h])
  }

  /** From `a` to `b`: new blocks have valid headers and bodies, and a new state is that of
      a block that was executed. */
  ghost predicate Vetted(engine: Engine, a: Database, b: Database) {
    && (forall h :: h in b.blocks && h !in a.blocks ==> engine.accepts(b.blocks[h]) && engine.bodyValid(b.blocks[h]))
    && (forall root :: Available(b.disk, b.queue, root) && !Available(a.disk, a.queue, root) ==>
                         Proven(engine, b.blocks, root))
  }

  /** A block that must not get in: an orphan whose parent is not waiting either, or one
      that is due and neither known nor accepted with a valid body. */
  ghost predicate Refused(engine: Engine, clock: nat, db: Database, waiting: set<Hash>, b: Header) {
    if ParentOf(db.blocks, b).None? then b.parent !in waiting
    else
      && clock >= engine.futureUntil(b)
      && (!engine.accepts(b) || (!engine.bodyValid(b) && !BlockAndState(db.blocks, db.disk, db.queue, b.hash, b.number)))
  }

  lemma KnownNotRefused(engine: Engine, clock: nat, db: Database, waiting: set<Hash>, b: Header)
    requires BlockAndState(db.blocks, db.disk, db.queue, b.hash, b.number)
    requires ParentOf(db.blocks, b).Some? && engine.accepts(b)
    ensures !Refused(engine, clock, db, waiting, b)
  {
    hide BlockAndState, Lookup;
  }

  lemma KnownAccepted(engine: Engine, clock: nat, s: Store, disk: set<Hash>, queue: seq<Entry>, chain: seq<Header>, i: nat)
    requires i < |chain| && VerdictAt(engine, clock, s, disk, queue, chain, i) == KnownBlock
    ensures engine.accepts(chain[i]) && (i == 0 ==> ParentOf(s, chain[0]).Some?)
  {
  }

  lemma RefusedVerdict(engine: Engine, clock: nat, now: nat, db: Database, waiting: set<Hash>, chain: seq<Header>)
    requires chain != [] && clock <= now
    ensures Refused(engine, clock, db, waiting, chain[0]) ==>
              var v := VerdictAt(engine, now, db.blocks, db.disk, db.queue, chain, 0);
              v == BadBlock || (v == UnknownAncestor && chain[0].parent !in waiting)
  {
  }

  lemma VettedSelf(engine: Engine, a: Database)
    ensures Vetted(engine, a, a)
  {
  }

  lemma VettedTrans(engine: Engine, a: Database, b: Database, c: Database)
    requires Vetted(engine, a, b) && Vetted(engine, b, c) && Extends(b.blocks, c.blocks)
    ensures Vetted(engine, a, c)
  {
    hide Available;
    forall root | Available(c.disk, c.queue, root) && !Available(a.disk, a.queue, root)
      ensures Proven(engine, c.blocks, root)
    {
      if Available(b.disk, b.queue, root) {
        ProvenLater(engine, b.blocks, c.blocks, root);
      }
    }
  }

  lemma ProvenLater(engine: Engine, s: Store, t: Store, root: Hash)
    requires Proven(engine, s, root) && Extends(s, t)
    ensures Proven(engine, t, root)
  {
  }

  /** Executing a block that was found fine, or known, adds its state and no other. */
  lemma ExecutedVetted(engine: Engine, clock: nat, archive: bool, universe: Store, a: Database, b: Database,
                       chain: seq<Header>, i: nat)
    requires i < |chain| && Sound(universe, engine, clock, a.blocks) && Stored(universe, chain[i])
    requires Agrees(engine, clock, a.blocks, a.disk, a.queue, chain, i, Fine)
    requires engine.executes(chain[i]) && !engine.banned(chain[i])
    requires b.blocks == a.blocks[chain[i].hash := chain[i]]
    requires Written(archive, a.disk, a.queue, b.disk, b.queue, chain[i])
    ensures Vetted(engine, a, b)
  {
    hide Sound;
    var x := chain[i];
    var known := BlockAndState(a.blocks, a.disk, a.queue, x.hash, x.number);
    if known {
      KnownIsStored(universe, engine, clock, a.blocks, a.disk, a.queue, x);
    } else {
      assert engine.accepts(x) && engine.bodyValid(x);
      assert b.blocks[x.hash] == x;
      assert Proven(engine, b.blocks, x.root);
    }
    forall root | Available(b.disk, b.queue, root) && root != x.root
      ensures Available(a.disk, a.queue, root)
    {
    }
  }

  /** So does storing a pruned one, without a state. */
  lemma PrunedVetted(engine: Engine, clock: nat, a: Database, b: Database, chain: seq<Header>, i: nat)
    requires i < |chain| && VerdictAt(engine, clock, a.blocks, a.disk, a.queue, chain, i) == PrunedAncestor
    requires b == a || b == a.(blocks := a.blocks[chain[i].hash := chain[i]])
    ensures Vetted(engine, a, b)
  {
  }

  // ------------------------------------------------------------------ the importer

  class Importer {
    const archive: bool
    const engine: Engine
    const gc: Collector

    /** All blocks there are. */
    ghost const universe: Store

    var blocks: Store
    var disk: set<Hash>
    var futureBlocks: set<Hash>
    var canon: CanonIndex
    var current: Header
    var stopped: bool
    var clock: nat

    ghost predicate Valid()
      reads this, gc
    {
      gc.Valid() && Sound(universe, engine, clock, blocks)
    }

    ghost function Now(): Database
      reads this, gc
    {
      Database(blocks, disk, gc.queue)
    }

    /** The verdict on the block at `i`, now. */
    function Judge(chain: seq<Header>, i: nat): Verdict
      requires i <= |chain|
      reads this, gc
    {
      VerdictAt(engine, clock, blocks, disk, gc.queue, chain, i)
    }

    ghost predicate Agree(chain: seq<Header>, i: nat, v: Verdict)
      requires i <= |chain|
      reads this, gc
    {
      Agrees(engine, clock, blocks, disk, gc.queue, chain, i, v)
    }

    predicate HasState(root: Hash)
      reads this, gc
    {
      Available(disk, gc.queue, root)
    }

    predicate HasBlockAndState(hash: Hash, number: int)
      reads this, gc
    {
      BlockAndState(blocks, disk, gc.queue, hash, number)
    }

    ghost predicate At(chain: seq<Header>, i: nat)
      requires i <= |chain|
      reads this, gc
    {
      Reached(blocks, disk, gc.queue, chain, i)
    }

    constructor (archive: bool, engine: Engine, genesis: Header, ghost universe: Store)
      requires Keyed(universe) && Stored(universe, genesis) && engine.futureUntil(genesis) == 0
      ensures Valid() && fresh(gc)
      ensures this.archive == archive && this.engine == engine && this.universe == universe
      ensures HasBlockAndState(genesis.hash, genesis.number)
    {
      this.archive, this.engine, this.universe := archive, engine, universe;
      gc := new Collector();
      blocks, disk := map[genesis.hash := genesis], {genesis.root};
      futureBlocks, canon, current := {}, map[genesis.number := genesis.hash], genesis;
      stopped, clock := false, 0;
    }

    /** Advance the iterator; time passes. */
    method Next(chain: seq<Header>, i: nat) returns (v: Verdict)
      requires Valid() && i <= |chain|
      modifies `clock
      ensures Valid() && clock >= old(clock)
      ensures v == Judge(chain, i)
    {
      hide VerdictAt, Sound;
      var now: nat :| now >= clock;
      SoundLater(universe, engine, clock, blocks, now);
      clock := now;
      v := Judge(chain, i);
    }

    /** The interrupt flag, once raised, stays raised. */
    method InsertStopped() returns (s: bool)
      modifies `stopped
      ensures s == stopped && (old(stopped) ==> stopped)
    {
      var raised: bool := *;
      stopped := stopped || raised;
      s := stopped;
    }

    /** Make `b` the head; the canonical table follows, or the update fails. */
    method UpdateHead(b: Header) returns (r: Outcome)
      modifies `canon, `current
    {
      var failed: bool := *;
      if failed {
        return Err(HeadUpdateFailed);
      }
      canon := *;
      current := b;
      return Ok(());
    }

    /** Blocks of the external consensus layer have no difficulty and are never queued. */
    method AddFutureBlock(b: Header) returns (r: Outcome)
      modifies `futureBlocks
      ensures futureBlocks == if r.Ok? && b.difficulty > 0 then old(futureBlocks) + {b.hash} else old(futureBlocks)
    {
      var tooFar: bool := *;
      if tooFar {
        return Err(TooFarInFuture);
      }
      if b.difficulty > 0 {
        futureBlocks := futureBlocks + {b.hash};
      }
      return Ok(());
    }

    /** Store an executed block with its state. */
    method WriteBlockWithState(b: Header)
      requires Valid() && Stored(universe, b) && clock >= engine.futureUntil(b)
      modifies `blocks, `disk, gc
      ensures Valid()
      ensures blocks == old(blocks)[b.hash := b] && Extends(old(blocks), blocks) && Stored(blocks, b)
      ensures Written(archive, old(disk), old(gc.queue), disk, gc.queue, b)
    {
      hide Newer, Roots, Sound;
      SoundWrite(universe, engine, clock, blocks, b);
      blocks := blocks[b.hash := b];
      gc.WriteState(b.root, b.number, archive);
      if archive {
        disk := disk + {b.root};
      } else if b.number > TRIES_IN_MEMORY {
        WrittenNewer(disk, old(gc.queue), gc.queue, b);
      }
    }

    /** Left-trim the known blocks, up to one that is preferred over the head: that one
        counts as fine and is executed again. */
    method SkipKnown(chain: seq<Header>) returns (r: Outcome, i: nat, v: Verdict)
      requires Valid() && chain != [] && AllStored(universe, chain)
      modifies `clock
      ensures Valid() && clock >= old(clock)
      ensures i <= |chain|
      ensures r.Ok? ==> Agree(chain, i, v) && (v == KnownBlock ==> i == |chain|) && At(chain, i)
      ensures r.Err? || i > 0 ==>
                && HasBlockAndState(chain[0].hash, chain[0].number)
                && ParentOf(blocks, chain[0]).Some? && engine.accepts(chain[0])
      ensures r.Ok? && i < |chain| && v == Fine && Judge(chain, i) == KnownBlock ==>
                chain[i].number > current.number || ReadCanonicalHash(canon, chain[i].number) != chain[i].hash
    {
      hide VerdictAt, Sound, Reached, Lookup;
      i := 0;
      v := Next(chain, i);
      NothingReached(blocks, disk, gc.queue, chain);
      while i < |chain| && v == KnownBlock
        invariant Valid() && clock >= old(clock)
        invariant i <= |chain| && v == Judge(chain, i) && At(chain, i)
        invariant i > 0 ==>
                    && HasBlockAndState(chain[0].hash, chain[0].number)
                    && ParentOf(blocks, chain[0]).Some? && engine.accepts(chain[0])
      {
        KnownAccepted(engine, clock, blocks, disk, gc.queue, chain, i);
        KnownStep(universe, engine, clock, blocks, disk, gc.queue, chain, i);
        var failed: bool, reorg: bool := *, *;
        if failed {
          return Err(ForkChoiceFailed), i, v;
        }
        var b := chain[i];
        if reorg && (b.number > current.number || ReadCanonicalHash(canon, b.number) != b.hash) {
          return Ok(()), i, Fine;
        }
        i := i + 1;
        v := Next(chain, i);
      }
      r := Ok(());
    }

    /** Queue blocks as future ones while they are orphans (the very first one always). */
    method QueueFuture(chain: seq<Header>, from: nat, verdict: Verdict) returns (r: Outcome)
      requires Valid() && from <= |chain|
      modifies `clock, `futureBlocks
      ensures Valid() && clock >= old(clock)
      ensures old(futureBlocks) <= futureBlocks <= old(futureBlocks) + set i | 0 <= i < |chain| :: chain[i].hash
      ensures r.Ok? && from == 0 && chain != [] && chain[0].difficulty > 0 ==> chain[0].hash in futureBlocks
    {
      hide VerdictAt, Sound;
      var i, v := from, verdict;
      while i < |chain| && (i == 0 || v == UnknownAncestor)
        invariant Valid() && clock >= old(clock)
        invariant from <= i <= |chain|
        invariant old(futureBlocks) <= futureBlocks <= old(futureBlocks) + set k | 0 <= k < |chain| :: chain[k].hash
        invariant i > 0 && from == 0 && chain[0].difficulty > 0 ==> chain[0].hash in futureBlocks
      {
        var a := AddFutureBlock(chain[i]);
        if a.Err? {
          return a;
        }
        i := i + 1;
        v := Next(chain, i);
      }
      r := if v == Fine then Ok(()) else Err(Rejected(v));
    }

    /** Queue a future block and the orphans behind it. */
    method QueueRest(chain: seq<Header>, i: nat) returns (r: Outcome)
      requires Valid() && i < |chain|
      modifies `clock, `futureBlocks
      ensures Valid() && clock >= old(clock)
    {
      hide VerdictAt, Sound;
      r := AddFutureBlock(chain[i]);
      if r.Err? {
        return;
      }
      var v := Next(chain, i + 1);
      r := QueueFuture(chain, i + 1, v);
    }

    /** Execute one block on the state of its parent and store it. The state can only be
        missing when the block was known already. */
    method Execute(chain: seq<Header>, i: nat) returns (r: Outcome)
      requires Valid() && i < |chain| && Contiguous(chain) && AllStored(universe, chain)
      requires Agree(chain, i, Fine) && At(chain, i) && !engine.banned(chain[i])
      modifies `blocks, `disk, gc
      ensures Valid() && Extends(old(blocks), blocks) && Vetted(engine, old(Now()), Now())
      ensures old(ParentOf(blocks, chain[i]).Some?)
      ensures r.Ok? <==> old(HasState(ParentOf(blocks, chain[i]).value.root)) && engine.executes(chain[i])
      ensures r == Err(MissingState) <==> !old(HasState(ParentOf(blocks, chain[i]).value.root))
      ensures r == Err(ExecutionFailed) <==>
                old(HasState(ParentOf(blocks, chain[i]).value.root)) && !engine.executes(chain[i])
      ensures r.Err? ==> unchanged(`blocks, `disk, gc)
      ensures r == Err(MissingState) ==> i == 0 && old(HasBlockAndState(chain[0].hash, chain[0].number))
      ensures r.Ok? ==> At(chain, i + 1) && Written(archive, old(disk), old(gc.queue), disk, gc.queue, chain[i])
    {
      hide Agrees, Sound, Reached, Lookup, Written, Available, Extends, Contiguous, AllStored, Vetted;
      FineParent(engine, clock, blocks, disk, gc.queue, chain, i);
      ExtendsSelf(blocks);
      VettedSelf(engine, Now());
      var parent := if i > 0 then chain[i - 1] else ParentOf(blocks, chain[i]).value;
      if !HasState(parent.root) {
        return Err(MissingState);
      }
      if !engine.executes(chain[i]) {
        return Err(ExecutionFailed);
      }
      StoredAt(universe, chain, i);
      WriteBlockWithState(chain[i]);
      WriteStep(archive, old(blocks), old(disk), old(gc.queue), blocks, disk, gc.queue, chain, i);
      ExecutedVetted(engine, clock, archive, universe, old(Now()), Now(), chain, i);
      r := Ok(());
    }

    /** One round of the import loop: a known block only becomes the head, a fine one is
        executed, stored and maybe adopted. */
    method ImportOne(chain: seq<Header>, i: nat, v: Verdict, setHead: bool) returns (r: Outcome)
      requires Valid() && i < |chain| && Contiguous(chain) && AllStored(universe, chain)
      requires Agree(chain, i, v) && (v == Fine || v == KnownBlock) && At(chain, i)
      modifies `canon, `current, `blocks, `disk, gc
      ensures Valid() && Extends(old(blocks), blocks) && Vetted(engine, old(Now()), Now())
      ensures r.Ok? ==> At(chain, i + 1)
      ensures r.Ok? && v == Fine ==> Written(archive, old(disk), old(gc.queue), disk, gc.queue, chain[i])
    {
      hide VerdictAt, Sound, Reached, Written, Available, Extends, Contiguous, AllStored, Vetted;
      ExtendsSelf(blocks);
      VettedSelf(engine, Now());
      assert v == KnownBlock ==> Judge(chain, i) == KnownBlock;
      if engine.banned(chain[i]) {
        return Err(BannedHash);
      }
      if v == KnownBlock {
        KnownStep(universe, engine, clock, blocks, disk, gc.queue, chain, i);
        r := UpdateHead(chain[i]);
      } else {
        r := Execute(chain, i);
        var adopt: bool := *;
        if r.Ok? && setHead && adopt {
          r := UpdateHead(chain[i]);
        }
      }
    }

    /** The round for block `i` and the verdict on the next block, unless interrupted. */
    method Round(chain: seq<Header>, i: nat, v: Verdict, setHead: bool)
      returns (halted: bool, r: Outcome, v': Verdict)
      requires Valid() && i < |chain| && Contiguous(chain) && AllStored(universe, chain)
      requires Agree(chain, i, v) && (v == Fine || v == KnownBlock) && At(chain, i)
      modifies `clock, `canon, `current, `stopped, `blocks, `disk, gc
      ensures Valid() && clock >= old(clock) && (old(stopped) ==> stopped) && Extends(old(blocks), blocks) && Vetted(engine, old(Now()), Now())
      ensures !halted && r.Ok? ==> At(chain, i + 1) && Agree(chain, i + 1, v')
      ensures !halted && r.Ok? && v == Fine ==>
                Written(archive, old(disk), old(gc.queue), disk, gc.queue, chain[i])
      ensures halted ==> stopped
    {
      hide VerdictAt, Sound, Reached, Written, Available, Extends, Contiguous, AllStored, Vetted;
      r, v' := Ok(()), v;
      ExtendsSelf(blocks);
      VettedSelf(engine, Now());
      halted := InsertStopped();
      if halted {
        return;
      }
      r := ImportOne(chain, i, v, setHead);
      if r.Ok? {
        v' := Next(chain, i + 1);
      }
    }

    /** Execute the blocks from `from` on, each on the state of its parent. When it ends
        well the whole batch is stored and its last block has state. */
    method ImportRest(chain: seq<Header>, from: nat, setHead: bool) returns (r: Outcome)
      requires Valid() && from <= |chain| && Contiguous(chain) && AllStored(universe, chain)
      requires Agree(chain, from, Fine) && At(chain, from)
      requires !setHead ==> |chain| == 1
      modifies `clock, `canon, `current, `stopped, `futureBlocks, `blocks, `disk, gc
      ensures Valid() && clock >= old(clock) && (old(stopped) ==> stopped)
      ensures Extends(old(blocks), blocks) && Vetted(engine, old(Now()), Now())
      ensures r.Ok? && !stopped && old(NoneFuture(engine, clock, chain)) ==> At(chain, |chain|)
      ensures r.Ok? && !stopped && from == 0 && |chain| == 1 ==>
                Written(archive, old(disk), old(gc.queue), disk, gc.queue, chain[0])
      ensures from == |chain| ==> disk == old(disk) && gc.queue == old(gc.queue)
    {
      hide Valid, Agree, Agrees, VerdictAt, Available, Sound, Reached, Written, NoneFuture, Extends, Contiguous, AllStored, Vetted;
      var i, v := from, Fine;
      ExtendsSelf(blocks);
      VettedSelf(engine, Now());
      while i < |chain| && (v == Fine || v == KnownBlock)
        invariant Valid() && clock >= old(clock) && (old(stopped) ==> stopped)
        invariant from <= i <= |chain| && Agree(chain, i, v) && At(chain, i)
        invariant Extends(old(blocks), blocks) && Vetted(engine, old(Now()), Now())
        invariant i == from ==> v == Fine && disk == old(disk) && gc.queue == old(gc.queue)
        invariant from == 0 && i == 1 ==> Written(archive, old(disk), old(gc.queue), disk, gc.queue, chain[0])
        decreases |chain| - i
      {
        ghost var s0, db := blocks, Now();
        var halted, u, next := Round(chain, i, v, setHead);
        ExtendsTrans(old(blocks), s0, blocks);
        VettedTrans(engine, old(Now()), db, Now());
        if halted {
          return if v == Fine then Ok(()) else Err(Rejected(v));
        }
        if u.Err? || (v == Fine && !setHead) {
          return u;
        }
        i, v := i + 1, next;
      }
      r := Finish(chain, i, v, old(clock));
    }

    /** After the loop only future blocks are still of interest. */
    method Finish(chain: seq<Header>, i: nat, v: Verdict, ghost began: nat) returns (r: Outcome)
      requires Valid() && i <= |chain| && Agree(chain, i, v) && began <= clock
      requires i == |chain| || (v != Fine && v != KnownBlock)
      modifies `clock, `futureBlocks
      ensures Valid() && clock >= old(clock)
      ensures r.Ok? && NoneFuture(engine, began, chain) ==> i == |chain|
    {
      hide VerdictAt, Sound, NoneFuture;
      if i < |chain| && v == FutureBlock {
        FutureNow(engine, began, clock, blocks, disk, gc.queue, chain, i);
        r := QueueRest(chain, i);
        return;
      }
      r := if v == Fine then Ok(()) else Err(Rejected(v));
    }

    /** Import a batch. `nested` marks the calls made by `InsertSideChain` and
        `RecoverAncestors`: these start where the parent has state, so they never come
        back to the pruned branch, and the recursion is at most two deep. */
    method InsertChain(chain: seq<Header>, setHead: bool, ghost nested: bool) returns (r: Outcome)
      requires Valid() && chain != [] && Contiguous(chain) && AllStored(universe, chain)
      requires nested ==> HasBlockAndState(chain[0].parent, chain[0].number - 1)
      requires !setHead ==> |chain| == 1
      modifies this, gc
      ensures Valid() && clock >= old(clock) && (old(stopped) ==> stopped)
      ensures Extends(old(blocks), blocks) && Vetted(engine, old(Now()), Now())
      ensures old(HasBlockAndState(chain[0].parent, chain[0].number - 1)) ==>
                r.Ok? && !stopped && old(NoneFuture(engine, clock, chain)) ==> At(chain, |chain|)
      ensures nested && r.Ok? && !stopped && old(NoneFuture(engine, clock, chain)) && |chain| == 1 ==>
                || (&& old(HasBlockAndState(chain[0].hash, chain[0].number))
                    && disk == old(disk) && gc.queue == old(gc.queue))
                || Written(archive, old(disk), old(gc.queue), disk, gc.queue, chain[0])
      ensures old(Refused(engine, clock, Now(), futureBlocks, chain[0])) ==> stopped || (r.Err? && r.error.Rejected?)
      decreases if nested then 0 else 1, 1
    {
      hide VerdictAt, Sound, Reached, Written, NoneFuture, Extends, Contiguous, AllStored, BlockAndState, Vetted, Refused;
      ExtendsSelf(blocks);
      VettedSelf(engine, Now());
      var s := InsertStopped();
      if s {
        return Ok(());
      }
      var u, i, v := SkipKnown(chain);
      if u.Err? || i > 0 {
        KnownNotRefused(engine, old(clock), Now(), futureBlocks, chain[0]);
      }
      if u.Err? {
        return u;
      }
      NotFutureLater(engine, old(clock), clock, chain);
      RefusedVerdict(engine, old(clock), clock, Now(), futureBlocks, chain);
      if i < |chain| {
        StoredAt(universe, chain, i);
        if HasBlockAndState(chain[0].parent, chain[0].number - 1) {
          NeverPruned(engine, clock, blocks, disk, gc.queue, chain, i);
        }
      }
      if i < |chain| && v == PrunedAncestor {
        assert !nested;
        if setHead {
          PrunedIsFirst(engine, clock, blocks, disk, gc.queue, chain, i);
          var choice: Option<bool> := *;
          var written: nat;
          r, written := InsertSideChain(chain, choice);
        } else {
          ghost var segment, base;
          r, segment, base := RecoverAncestors(chain[i]);
        }
      } else if i < |chain| && (v == FutureBlock || (v == UnknownAncestor && chain[0].parent in futureBlocks)) {
        r := QueueFuture(chain, i, v);
      } else if i < |chain| && v != Fine {
        futureBlocks := futureBlocks - {chain[i].hash};
        r := Err(Rejected(v));
      } else {
        EndIsFine(engine, clock, blocks, disk, gc.queue, chain);
        r := ImportRest(chain, i, setHead);
      }
    }

    /** The canonical block at the height of `b` is another one and has the state root
        `b` claims. */
    predicate Rivals(s: Store, b: Header)
      reads this
    {
      var canonical := Lookup(s, ReadCanonicalHash(canon, b.number), b.number);
      current.number >= b.number && canonical.Some? && canonical.value.hash != b.hash && canonical.value.root == b.root
    }

    /** Store one block that only lacks its parent's state. */
    method WriteSideBlock(chain: seq<Header>, i: nat)
      requires Valid() && i < |chain| && Stored(universe, chain[i]) && Judge(chain, i) == PrunedAncestor
      modifies `blocks
      ensures Valid() && Extends(old(blocks), blocks) && Vetted(engine, old(Now()), Now())
      ensures blocks == old(blocks)[chain[i].hash := chain[i]] || (blocks == old(blocks) && Stored(blocks, chain[i]))
    {
      hide VerdictAt, Sound, Extends, Vetted;
      var b := chain[i];
      PrunedWrite(universe, engine, clock, blocks, disk, gc.queue, chain, i);
      if Lookup(blocks, b.hash, b.number).None? {
        blocks := blocks[b.hash := b];
      } else {
        ExtendsSelf(blocks);
      }
      PrunedVetted(engine, clock, old(Now()), Now(), chain, i);
    }

    /** Write the blocks that only lack their parent's state, without executing them, up
        to one with another verdict. Refused is exactly a block that claims the state
        root of the canonical block it rivals. */
    method WriteSideBlocks(chain: seq<Header>) returns (r: Outcome, i: nat)
      requires Valid() && chain != [] && Contiguous(chain) && AllStored(universe, chain)
      requires Judge(chain, 0) == PrunedAncestor
      modifies `clock, `blocks
      ensures Valid() && clock >= old(clock) && Extends(old(blocks), blocks) && Vetted(engine, old(Now()), Now())
      ensures i <= |chain| && AllStored(blocks, chain[..i])
      ensures r.Ok? ==> i > 0 && (i == |chain| || Judge(chain, i) != PrunedAncestor)
      ensures r == Err(GhostState) <==>
                i < |chain| && Judge(chain, i) == PrunedAncestor && Rivals(old(blocks), chain[i])
      ensures r.Err? ==> r.error == GhostState
      ensures forall j :: 0 <= j < i ==> !Rivals(old(blocks), chain[j])
    {
      hide VerdictAt, Sound, Extends, AllStored, Contiguous, Added, Vetted;
      ExtendsSelf(blocks);
      VettedSelf(engine, Now());
      NothingStored(blocks);
      i := 0;
      var v := PrunedAncestor;
      NothingAdded(blocks, chain);
      while i < |chain| && v == PrunedAncestor
        invariant Valid() && clock >= old(clock) && Extends(old(blocks), blocks) && Vetted(engine, old(Now()), Now())
        invariant i <= |chain| && v == Judge(chain, i)
        invariant i == 0 ==> v == PrunedAncestor
        invariant AllStored(blocks, chain[..i]) && Added(old(blocks), blocks, chain, i)
        invariant forall j :: 0 <= j < i ==> !Rivals(old(blocks), chain[j])
        decreases |chain| - i
      {
        var b := chain[i];
        StoredAt(universe, chain, i);
        AddedBelow(old(blocks), blocks, chain, i, ReadCanonicalHash(canon, b.number));
        if Rivals(blocks, b) {
          return Err(GhostState), i;
        }
        ghost var s1, db := blocks, Now();
        WriteSideBlock(chain, i);
        ExtendsTrans(old(blocks), s1, blocks);
        VettedTrans(engine, old(Now()), db, Now());
        AddedStep(old(blocks), s1, blocks, chain, i);
        i := i + 1;
        v := Next(chain, i);
      }
      r := Ok(());
    }

    /** Re-import a gathered segment, oldest first, in batches of bounded size. */
    method ReimportBatches(segment: seq<Header>, ghost base: Option<Header>) returns (r: Outcome)
      requires Valid() && segment != [] && AllStored(blocks, segment)
      requires Lineage(blocks, segment[0], segment, base) && base.Some? && HasState(base.value.root)
      modifies this, gc
      ensures Valid() && clock >= old(clock) && (old(stopped) ==> stopped)
      ensures Extends(old(blocks), blocks) && Vetted(engine, old(Now()), Now())
      ensures r.Ok? && !stopped ==> Stored(blocks, segment[0]) && HasState(segment[0].root)
      decreases 0, 3
    {
      hide VerdictAt, Sound, Extends, AllStored, Available, Lineage, OldestFirst, Vetted, BlockAndState, Size;
      ExtendsSelf(blocks);
      VettedSelf(engine, Now());
      StoredAt(blocks, segment, 0);
      OldestFirstNone(segment, |segment|);
      SizeStep(engine, [], segment[0]);
      var k: nat, batch, memory := |segment|, [], 0;
      while k > 0
        invariant Valid() && clock >= old(clock) && (old(stopped) ==> stopped)
        invariant k + |batch| <= |segment| && Extends(old(blocks), blocks) && Vetted(engine, old(Now()), Now())
        invariant batch == OldestFirst(segment, k, |batch|)
        invariant |batch| < MAX_BATCH_BLOCKS && memory == Size(engine, batch) <= MAX_BATCH_MEMORY
        invariant HasState(Older(segment, base, k + |batch|).root)
      {
        k := k - 1;
        OldestFirstStep(segment, k, |batch|);
        SizeStep(engine, batch, segment[k]);
        batch, memory := batch + [segment[k]], memory + engine.size(segment[k]);
        if |batch| >= MAX_BATCH_BLOCKS || memory > MAX_BATCH_MEMORY {
          var halted;
          r, halted := FlushBatch(segment, base, k, batch, old(blocks), old(Now()));
          if r.Err? || halted {
            return;
          }
          batch, memory := [], 0;
          OldestFirstNone(segment, k);
        }
      }
      StoredExtends(old(blocks), blocks, segment[0]);
      r := Ok(());
      if |batch| > 0 {
        SizeShrinks(engine, batch);
        r := InsertBatch(segment, base, 0, batch, old(blocks), old(Now()));
      }
    }

    /** Import a batch before the segment is through, and look at the interrupt flag. */
    method FlushBatch(segment: seq<Header>, ghost base: Option<Header>, ghost k: nat, batch: seq<Header>, ghost s0: Store,
                      ghost began: Database) returns (r: Outcome, halted: bool)
      requires Vetted(engine, began, Now())
      requires 0 < |batch| <= 2048 && Size(engine, batch[..|batch| - 1]) <= 64 * 1024 * 1024
      requires Valid() && AllStored(s0, segment) && Extends(s0, blocks)
      requires k + |batch| <= |segment| && batch == OldestFirst(segment, k, |batch|)
      requires Lineage(s0, segment[0], segment, base) && base.Some?
      requires HasState(Older(segment, base, k + |batch|).root)
      modifies this, gc
      ensures Valid() && clock >= old(clock) && (old(stopped) ==> stopped)
      ensures Extends(s0, blocks) && Vetted(engine, began, Now())
      ensures halted ==> r.Ok? && stopped
      ensures r.Ok? && !halted ==> HasState(segment[k].root)
      decreases 0, 2, 1
    {
      hide Sound, Extends, AllStored, Available, Lineage, OldestFirst, Vetted;
      r := InsertBatch(segment, base, k, batch, s0, began);
      halted := false;
      if r.Ok? {
        halted := InsertStopped();
      }
    }

    /** Import one batch of a segment on top of a block with state. */
    method InsertBatch(segment: seq<Header>, ghost base: Option<Header>, ghost k: nat, batch: seq<Header>, ghost s0: Store,
                       ghost began: Database)
      returns (r: Outcome)
      requires Vetted(engine, began, Now())
      requires 0 < |batch| <= 2048 && Size(engine, batch[..|batch| - 1]) <= 64 * 1024 * 1024
      requires Valid() && AllStored(s0, segment) && Extends(s0, blocks)
      requires k + |batch| <= |segment| && batch == OldestFirst(segment, k, |batch|)
      requires Lineage(s0, segment[0], segment, base) && base.Some?
      requires HasState(Older(segment, base, k + |batch|).root)
      modifies this, gc
      ensures Valid() && clock >= old(clock) && (old(stopped) ==> stopped)
      ensures Extends(s0, blocks) && Vetted(engine, began, Now())
      ensures r.Ok? && !stopped ==> Stored(blocks, segment[k]) && HasState(segment[k].root)
      decreases 0, 2, 0
    {
      hide VerdictAt, Sound, Extends, AllStored, Available, Lineage, Contiguous, NoneFuture, Reached, BlockAndState, Vetted;
      BatchLinked(universe, engine, clock, s0, blocks, disk, gc.queue, segment, base, k, batch);
      ghost var s1, db := blocks, Now();
      r := InsertChain(batch, true, true);
      ExtendsTrans(s0, s1, blocks);
      VettedTrans(engine, began, db, Now());
      if r.Ok? && !stopped {
        LastReached(blocks, disk, gc.queue, batch);
      }
    }

    /** Store a side chain that starts on a pruned block. `choice` is what fork choice
        says of it, if it can tell: when it prefers the side chain, that is re-executed
        from the last ancestor with state. */
    method InsertSideChain(chain: seq<Header>, choice: Option<bool>) returns (r: Outcome, written: nat)
      requires Valid() && chain != [] && Contiguous(chain) && AllStored(universe, chain)
      requires Judge(chain, 0) == PrunedAncestor
      modifies this, gc
      ensures Valid() && clock >= old(clock) && (old(stopped) ==> stopped)
      ensures Extends(old(blocks), blocks) && Vetted(engine, old(Now()), Now())
      ensures written <= |chain| && AllStored(blocks, chain[..written])
      ensures r.Ok? ==> choice.Some? && written > 0
      ensures r.Ok? && !stopped && choice == Some(true) ==> HasState(chain[written - 1].root)
      ensures choice != Some(true) ==> disk == old(disk) && gc.queue == old(gc.queue)
      decreases 1, 0
    {
      hide VerdictAt, Sound, Extends, AllStored, Available, Lineage, Stateless, Vetted;
      r, written := WriteSideBlocks(chain);
      if r.Err? {
        return;
      }
      if choice.None? {
        return Err(ForkChoiceFailed), written;
      }
      if !choice.value {
        return;
      }
      var last := chain[written - 1];
      PrefixStored(blocks, chain, written);
      ghost var s1, db := blocks, Now();
      var halted, segment, base := Gather(last, false);
      if base.None? {
        return Err(MissingParent), written;
      }
      LineageIsStored(universe, engine, clock, blocks, last, segment, base);
      if |segment| > 0 {
        r := ReimportBatches(segment, base);
        ExtendsTrans(old(blocks), s1, blocks);
        VettedTrans(engine, old(Now()), db, Now());
        ExtendsStored(s1, blocks, chain[..written]);
      }
    }

    /** The public entry: refuse a batch that is not ordered and linked. */
    method Insert(chain: seq<Header>) returns (r: Outcome)
      requires Valid() && AllStored(universe, chain)
      modifies this, gc
      ensures Valid() && Extends(old(blocks), blocks) && Vetted(engine, old(Now()), Now())
      ensures !Contiguous(chain) ==> r == Err(NonContiguous) && unchanged(this, gc)
      ensures chain == [] ==> r == Ok(()) && unchanged(this, gc)
      ensures chain != [] && old(Refused(engine, clock, Now(), futureBlocks, chain[0])) ==> r.Err? || stopped
      ensures r.Ok? && !stopped && old(NoneFuture(engine, clock, chain)) && chain != []
              && old(HasBlockAndState(chain[0].parent, chain[0].number - 1)) ==>
                AllStored(blocks, chain) && HasState(chain[|chain| - 1].root)
    {
      hide Sound, Extends, AllStored, Vetted;
      ExtendsSelf(blocks);
      VettedSelf(engine, Now());
      if |chain| == 0 {
        return Ok(());
      }
      for i := 1 to |chain|
        invariant forall j :: 0 < j < i ==> Linked(chain[j - 1], chain[j])
      {
        if chain[i].number != chain[i - 1].number + 1 || chain[i].parent != chain[i - 1].hash {
          return Err(NonContiguous);
        }
      }
      LinkedBatch(chain);
      r := InsertChain(chain, true, false);
      AllReached(blocks, disk, gc.queue, chain);
    }

    /** Collect `start` and its ancestors down to the first one with state. */
    method Gather(start: Header, polling: bool) returns (halted: bool, segment: seq<Header>, base: Option<Header>)
      requires Valid()
      modifies `stopped
      ensures halted ==> stopped
      ensures old(stopped) ==> stopped
      ensures Lineage(blocks, start, segment, base) && Stateless(disk, gc.queue, segment)
      ensures halted ==> polling
      ensures !halted && base.Some? ==> HasState(base.value.root)
    {
      hide Available;
      halted, segment, base := false, [], Some(start);
      while base.Some? && !HasState(base.value.root)
        invariant old(stopped) ==> stopped
        invariant Lineage(blocks, start, segment, base) && Stateless(disk, gc.queue, segment)
        decreases if base.Some? then base.value.number + 1 else 0
      {
        segment, base := segment + [base.value], ParentOf(blocks, base.value);
        if polling {
          halted := InsertStopped();
          if halted {
            return;
          }
        }
      }
    }

    /** Re-import `segment[k]`, whose parent has state. */
    method Reimport(segment: seq<Header>, k: nat, ghost s0: Store, ghost disk0: set<Hash>, ghost queue0: seq<Entry>,
                    ghost base: Option<Header>)
      returns (r: Outcome)
      requires Valid() && k < |segment| && AllStored(universe, segment) && Extends(s0, blocks)
      requires Lineage(s0, segment[0], segment, base) && base.Some? && Stateless(disk0, queue0, segment)
      requires Recovered(archive, disk0, queue0, disk, gc.queue, segment, k + 1)
      requires AllStored(blocks, segment[k + 1..]) && HasState(Older(segment, base, k + 1).root)
      modifies this, gc
      ensures Valid() && clock >= old(clock) && (old(stopped) ==> stopped)
      ensures Extends(old(blocks), blocks) && Vetted(engine, old(Now()), Now())
      ensures r.Ok? && !stopped && old(clock) >= engine.futureUntil(segment[k]) ==>
                && AllStored(blocks, segment[k..]) && HasState(segment[k].root)
                && Recovered(archive, disk0, queue0, disk, gc.queue, segment, k)
      decreases 0, 2
    {
      hide VerdictAt, Sound, Written, Extends, Available, Recovered, Stateless, Lineage, Vetted;
      ghost var s1, disk1, queue1 := blocks, disk, gc.queue;
      ParentReady(s0, s1, disk1, queue1, segment, base, k);
      LineageDescends(s0, segment[0], segment, base);
      ghost var known := HasBlockAndState(segment[k].hash, segment[k].number);
      if known {
        KnownIsStored(universe, engine, clock, s1, disk1, queue1, segment[k]);
      }
      r := InsertChain([segment[k]], false, true);
      if r.Ok? && !stopped && old(clock) >= engine.futureUntil(segment[k]) {
        assert old(NoneFuture(engine, clock, [segment[k]]));
        StoredLater(s1, blocks, segment, k);
        if known && disk == disk1 && gc.queue == queue1 {
          RecoveredKnown(archive, disk0, queue0, disk, gc.queue, segment, k);
        } else {
          RecoveredWrite(archive, disk0, queue0, disk1, queue1, disk, gc.queue, segment, k);
        }
      }
    }

    /** Re-import a gathered segment, oldest first. */
    method ReimportAll(segment: seq<Header>, ghost base: Option<Header>) returns (r: Outcome)
      requires Valid() && segment != [] && AllStored(universe, segment)
      requires Lineage(blocks, segment[0], segment, base) && base.Some? && HasState(base.value.root)
      requires Stateless(disk, gc.queue, segment)
      modifies this, gc
      ensures Valid() && clock >= old(clock) && (old(stopped) ==> stopped)
      ensures Extends(old(blocks), blocks) && Vetted(engine, old(Now()), Now())
      ensures r.Ok? && !stopped && old(clock) >= engine.futureUntil(segment[0]) ==>
                && AllStored(blocks, segment) && HasState(segment[0].root)
                && Recovered(archive, old(disk), old(gc.queue), disk, gc.queue, segment, 0)
      decreases 0, 3
    {
      hide VerdictAt, Sound, Extends, AllStored, Available, Recovered, Stateless, Lineage, Vetted;
      ExtendsSelf(blocks);
      VettedSelf(engine, Now());
      NothingRecovered(archive, blocks, disk, gc.queue, segment);
      var k: nat := |segment|;
      while k > 0
        invariant Valid() && clock >= old(clock) && (old(stopped) ==> stopped)
        invariant k <= |segment| && Extends(old(blocks), blocks) && Vetted(engine, old(Now()), Now())
        invariant !stopped && (k > 0 || old(clock) >= engine.futureUntil(segment[0])) ==>
                    && AllStored(blocks, segment[k..])
                    && Recovered(archive, old(disk), old(gc.queue), disk, gc.queue, segment, k)
                    && HasState(Older(segment, base, k).root)
      {
        var s := InsertStopped();
        if s {
          return Err(Interrupted);
        }
        k := k - 1;
        ghost var s1, db := blocks, Now();
        LineageOnTime(universe, engine, old(clock), old(blocks), segment[0], segment, base, k);
        r := Reimport(segment, k, old(blocks), old(disk), old(gc.queue), base);
        ExtendsTrans(old(blocks), s1, blocks);
        VettedTrans(engine, old(Now()), db, Now());
        if r.Err? {
          return;
        }
      }
      assert segment[0..] == segment;
      r := Ok(());
    }

    /** Re-execute the pruned ancestors of `b`, oldest first, and `b` itself. Unless it
        was interrupted or `b` is from the future, success leaves with state every block
        of the gap, as long as the gap fits into the retention window of a pruning node;
        when the roots of the gap differ, exactly the blocks in the window have state. */
    method RecoverAncestors(b: Header) returns (r: Outcome, ghost segment: seq<Header>, ghost base: Option<Header>)
      requires Valid() && Stored(universe, b)
      modifies this, gc
      ensures Valid() && clock >= old(clock) && (old(stopped) ==> stopped)
      ensures Extends(old(blocks), blocks) && Vetted(engine, old(Now()), Now())
      ensures Lineage(old(blocks), b, segment, base)
      ensures r.Ok? ==> base.Some? && old(HasState(base.value.root))
      ensures r.Ok? && !stopped && old(clock) >= engine.futureUntil(b) ==>
                && AllStored(blocks, segment)
                && (segment != [] ==> HasState(b.root))
                && (base.Some? && (archive || b.number - base.value.number <= TRIES_IN_MEMORY) ==>
                      forall c :: 0 <= c < |segment| ==> HasState(segment[c].root))
                && (DistinctRoots(segment) ==>
                      forall c :: 0 <= c < |segment| ==>
                                    (HasState(segment[c].root) <==>
                                       archive || segment[c].number > b.number - TRIES_IN_MEMORY))
      decreases 1, 0
    {
      hide VerdictAt, Sound, Extends, AllStored, Available, Recovered, Stateless, Lineage, DistinctRoots, Vetted;
      ExtendsSelf(blocks);
      VettedSelf(engine, Now());
      var halted, found, end := Gather(b, true);
      segment, base := found, end;
      if halted {
        return Err(Interrupted), segment, base;
      }
      if end.None? {
        return Err(MissingParent), segment, base;
      }
      if |found| == 0 {
        NothingStored(blocks);
        return Ok(()), segment, base;
      }
      LineageIsReal(universe, engine, clock, blocks, b, segment, base);
      r := ReimportAll(found, base);
      if r.Ok? && !stopped && old(clock) >= engine.futureUntil(b) {
        RecoveryLeaves(archive, old(blocks), old(disk), old(gc.queue), disk, gc.queue, segment, base);
      }
    }
  }
}
