/** The header chain: inserting headers under the fork choice, switching the
    canonical index to another branch, and rewinding. */
module HeaderChain {
  import opened Wrappers
  import opened Ancestry
  import opened Difficulty
  import opened ForkChoice

  datatype Error = UnknownAncestor | Aborted | MissingParent | NoTd

  // -------------------------------------------------------- total difficulty

  /** The fork choice never lowers the difficulty counted up to the terminal one. It
      switches to a lower total difficulty exactly at or past the terminal one. */
  lemma ChoiceKeepsCapped(localTd: nat, externTd: nat, ttd: Option<nat>, current: Header, extern: Header,
                          preserve: Header -> bool, coin: bool)
    ensures var switches := ReorgNeeded(Some(localTd), Some(externTd), ttd, current, extern, preserve, coin) == Decided(true);
      && (switches ==> Capped(externTd, ttd) >= Capped(localTd, ttd))
      && (switches && externTd < localTd <==> ttd.Some? && ttd.value <= externTd < localTd)
  {
  }

  /** Where an insertion lowers the head's total difficulty: the last header is at or
      past the terminal one, below the head, and not canonical yet. */
  ghost predicate Lowers(canon: CanonIndex, localTd: nat, headNumber: nat, tds: map<Hash, nat>, ttd: Option<nat>,
                         last: Header)
  {
    && last.hash in tds && ttd.Some? && ttd.value <= tds[last.hash] < localTd
    && !(ReadCanonicalHash(canon, last.number) == last.hash && last.number <= headNumber)
  }

  /** Two headers past a terminal total difficulty of 10: the choice goes down from 30
      to 20. */
  lemma ChoiceCanLower(preserve: Header -> bool, coin: bool)
    ensures var current, extern := Header(2, 1, 1, 20, 0, 0, []), Header(3, 1, 1, 10, 0, 0, []);
      ReorgNeeded(Some(30), Some(20), Some(10), current, extern, preserve, coin) == Decided(true)
  {
  }

  // ------------------------------------------------------------------ batches

  /** Hashes identify headers, within the batch and against the database. */
  predicate ContentAddressed(s: Store, chain: seq<Header>) {
    && (forall i :: 0 <= i < |chain| ==> chain[i].hash != ZERO_HASH && (chain[i].hash in s ==> s[chain[i].hash] == chain[i]))
    && forall i, j :: 0 <= i < j < |chain| ==> chain[i].hash != chain[j].hash
  }

  lemma {:induction false} ContiguousNumber(chain: seq<Header>, i: nat)
    requires Contiguous(chain) && i < |chain|
    ensures chain[i].number == chain[0].number + i
    ensures i + 1 < |chain| ==> chain[i + 1].parent == chain[i].hash
  {
    if i == 0 {
    } else {
      ContiguousNumber(chain, i - 1);
    }
  }

  /** A stored batch is the top of the path of its last header. */
  lemma {:induction false} BatchPath(s: Store, chain: seq<Header>, i: nat)
    requires Closed(s) && Contiguous(chain) && AllStored(s, chain) && i < |chain|
    ensures chain[|chain| - 1].number == chain[0].number + |chain| - 1
    ensures AncestorAt(s, chain[|chain| - 1], chain[0].number + i) == chain[i]
    decreases |chain| - i
  {
    ContiguousNumber(chain, i);
    ContiguousNumber(chain, |chain| - 1);
    if i < |chain| - 1 {
      BatchPath(s, chain, i + 1);
      AncestorIsParent(s, chain[|chain| - 1], chain[0].number + i + 1);
    }
  }

  /** The writes that `Reorg` collects for the backwards walk from `first`: the
      path of `first` strictly above height `low`. */
  ghost predicate PathWrites(s: Store, first: Header, low: int, writes: CanonIndex) {
    && (forall n: nat :: n in writes <==> low < n <= first.number)
    && forall n: nat :: n in writes ==>
         Walk(s, first, first.number - n).Some? && writes[n] == Walk(s, first, first.number - n).value.hash
  }

  lemma PathWritesStep(s: Store, first: Header, header: Header, writes: CanonIndex)
    requires header.number <= first.number && Walk(s, first, first.number - header.number) == Some(header)
    requires PathWrites(s, first, header.number, writes)
    ensures PathWrites(s, first, header.number - 1, writes[header.number := header.hash])
  {
  }

  /** Everything in the table stays, the batch is added. */
  ghost predicate Imported(s: Store, t: Store, chain: seq<Header>) {
    && (forall h :: h in t <==> h in s || exists i :: 0 <= i < |chain| && chain[i].hash == h)
    && (forall h :: h in s ==> h in t && t[h] == s[h])
    && (forall i :: 0 <= i < |chain| ==> chain[i].hash in t && t[chain[i].hash] == chain[i])
  }

  function HashesAt(s: Store, n: nat): set<Hash> {
    set h | h in s && s[h].number == n
  }

  /** Levels of an ancestor-closed table are contiguous. */
  lemma NothingAbove(s: Store, n: nat, h: Hash)
    requires Closed(s) && HashesAt(s, n) == {} && h in s
    ensures s[h].number < n
  {
    assert s[h].number >= n ==> AncestorAt(s, s[h], n).hash in HashesAt(s, n);
  }

  /** The target of a rewind: a timestamp when one is given, else a number. */
  predicate Done(headBlock: nat, headTime: nat, b: Header) {
    if headTime > 0 then b.time <= headTime else b.number <= headBlock
  }

  /** The rows at or below a height. */
  ghost function Below<T>(s: Store, rows: map<Hash, T>, n: nat): map<Hash, T> {
    map h | h in rows && h in s && s[h].number <= n :: rows[h]
  }

  ghost function CanonBelow(canon: CanonIndex, n: nat): CanonIndex {
    map k | k in canon && k <= n :: canon[k]
  }

  lemma BelowIsClosed(s: Store, genesis: Hash, n: nat)
    requires Closed(s) && Rooted(s, genesis)
    ensures Closed(Below(s, s, n)) && Rooted(Below(s, s, n), genesis)
  {
  }

  /** Cutting the tables at the height of an ancestor leaves a consistent chain. */
  lemma BelowTables(s: Store, tds: map<Hash, nat>, canon: CanonIndex, genesis: Hash, head: Header, target: Header)
    requires Closed(s) && Rooted(s, genesis) && Stored(s, head) && TdExact(s, tds) && IsPath(s, canon, head)
    requires target.number <= head.number && AncestorAt(s, head, target.number) == target
    ensures var t := Below(s, s, target.number);
      && Closed(t) && Rooted(t, genesis) && Stored(t, target)
      && TdExact(t, Below(s, tds, target.number))
      && IsPath(t, CanonBelow(canon, target.number), target)
  {
    hide Walk, AncestorAt, TotalDifficulty, TdExact, IsPath;
    BelowIsClosed(s, genesis, target.number);
    BelowTds(s, tds, target.number);
    BelowPath(s, canon, head, target);
  }

  lemma BelowTds(s: Store, tds: map<Hash, nat>, n: nat)
    requires Closed(s) && TdExact(s, tds) && Closed(Below(s, s, n))
    ensures TdExact(Below(s, s, n), Below(s, tds, n))
  {
    hide TotalDifficulty;
    var t := Below(s, s, n);
    forall h | h in t
      ensures TotalDifficulty(t, t[h]) == TotalDifficulty(s, s[h])
    {
      TotalDifficultyElsewhere(s, t, s[h]);
    }
  }

  lemma BelowPath(s: Store, canon: CanonIndex, head: Header, target: Header)
    requires Closed(s) && Stored(s, head) && IsPath(s, canon, head) && Closed(Below(s, s, target.number))
    requires target.number <= head.number && AncestorAt(s, head, target.number) == target
    ensures Stored(Below(s, s, target.number), target)
    ensures IsPath(Below(s, s, target.number), CanonBelow(canon, target.number), target)
  {
    hide Walk, AncestorAt, Closed;
    var t := Below(s, s, target.number);
    forall n: nat | n <= target.number
      ensures AncestorAt(t, target, n) == AncestorAt(s, head, n)
    {
      AncestorOfAncestor(s, head, target.number, n);
      SamePath(s, t, target, n);
    }
  }

  lemma SamePath(s: Store, t: Store, b: Header, n: nat)
    requires Closed(s) && Closed(t) && Stored(s, b) && Stored(t, b) && n <= b.number
    requires forall h :: h in s && s[h].number <= b.number ==> h in t && t[h] == s[h]
    ensures AncestorAt(t, b, n) == AncestorAt(s, b, n)
  {
    hide Walk, Closed;
    WalkElsewhere(s, t, b, b.number - n);
  }

  // ------------------------------------------------------------ the two loops

  /** Walk back from `first` until the index already agrees, collecting the
      entries to overwrite. `low` is the height of the cross link, or -1. */
  method CrossLink(s: Store, canon: CanonIndex, first: Header) returns (ok: bool, writes: CanonIndex, ghost low: int)
    requires Keyed(s) && Stored(s, first)
    ensures ok ==> -1 <= low <= first.number && PathWrites(s, first, low, writes)
    ensures ok && low >= 0 ==>
      && Walk(s, first, first.number - low).Some?
      && ReadCanonicalHash(canon, low) == Walk(s, first, first.number - low).value.hash
    ensures !ok ==> exists k: nat :: k <= first.number && Walk(s, first, k).None?
  {
    hide Keyed;
    ok, writes, low := true, map[], first.number;
    var header := first;
    while ReadCanonicalHash(canon, header.number) != header.hash
      invariant low == header.number <= first.number
      invariant Walk(s, first, first.number - header.number) == Some(header)
      invariant PathWrites(s, first, low, writes)
      decreases header.number
    {
      PathWritesStep(s, first, header, writes);
      writes := writes[header.number := header.hash];
      if header.number == 0 {
        low := -1;
        return;
      }
      WalkStep(s, first, first.number - header.number);
      var parent := ParentOf(s, header);
      if parent.None? {
        ok := false;
        assert Walk(s, first, first.number - header.number + 1).None?;
        return;
      }
      header, low := parent.value, low - 1;
    }
  }

  /** The import loop: each header's hash is taken from its successor. */
  method ExtendWrites(walk: CanonIndex, chain: seq<Header>) returns (writes: CanonIndex)
    requires chain != [] && Contiguous(chain)
    ensures WritesOf(walk, chain, writes)
  {
    hide Contiguous;
    writes := walk;
    for i := 0 to |chain| - 1
      invariant forall n: nat :: n in writes <==> n in walk || chain[0].number <= n < chain[0].number + i
      invariant forall n: nat :: n in writes ==>
        writes[n] == if chain[0].number <= n < chain[0].number + i then chain[n - chain[0].number].hash else walk[n]
    {
      ContiguousNumber(chain, i);
      writes := writes[chain[i].number := chain[i + 1].parent];
    }
    ContiguousNumber(chain, |chain| - 1);
    writes := writes[chain[|chain| - 1].number := chain[|chain| - 1].hash];
  }

  /** The batch after the import loop wrote `chain` over the entries of the walk. */
  ghost predicate WritesOf(walk: CanonIndex, chain: seq<Header>, writes: CanonIndex)
    requires chain != []
  {
    && (forall n: nat :: n in writes <==> n in walk || chain[0].number <= n < chain[0].number + |chain|)
    && forall n: nat :: n in writes ==>
         writes[n] == if chain[0].number <= n < chain[0].number + |chain| then chain[n - chain[0].number].hash else walk[n]
  }

  /** At every height up to the last header, the batch or else the old index holds
      the path of that header. */
  lemma SwitchAt(s: Store, canon: CanonIndex, head: Header, chain: seq<Header>, low: int,
                 walk: CanonIndex, writes: CanonIndex, n: nat)
    requires Closed(s) && Stored(s, head) && IsPath(s, canon, head)
    requires chain != [] && Contiguous(chain) && AllStored(s, chain) && -1 <= low <= chain[0].number
    requires low >= 0 ==> ReadCanonicalHash(canon, low) == AncestorAt(s, chain[0], low).hash
    requires PathWrites(s, chain[0], low, walk) && WritesOf(walk, chain, writes)
    requires n <= chain[|chain| - 1].number
    ensures n in writes ==> writes[n] == AncestorAt(s, chain[|chain| - 1], n).hash
    ensures n !in writes ==> n in canon && canon[n] == AncestorAt(s, chain[|chain| - 1], n).hash
  {
    hide Walk, Closed, Contiguous, IsPath;
    var first, last := chain[0], chain[|chain| - 1];
    BatchPath(s, chain, 0);
    if n >= first.number {
      BatchPath(s, chain, n - first.number);
    } else {
      AncestorOfAncestor(s, last, first.number, n);
      if n <= low {
        CanonicalAncestor(s, canon, head, AncestorAt(s, first, low));
        AncestorOfAncestor(s, first, low, n);
      }
    }
  }

  /** What the batch of `Reorg` leaves behind, given where the cross link was. */
  lemma SwitchBatch(s: Store, canon: CanonIndex, head: Header, chain: seq<Header>, low: int,
                    dropped: set<nat>, walk: CanonIndex, writes: CanonIndex)
    requires Closed(s) && Stored(s, head) && IsPath(s, canon, head)
    requires chain != [] && Contiguous(chain) && AllStored(s, chain) && -1 <= low <= chain[0].number
    requires low >= 0 ==> ReadCanonicalHash(canon, low) == AncestorAt(s, chain[0], low).hash
    requires PathWrites(s, chain[0], low, walk) && WritesOf(walk, chain, writes)
    requires forall n: nat :: n in dropped <==>
      n in canon && n > chain[|chain| - 1].number && !GapBetween(canon, chain[|chain| - 1].number, n)
    ensures IsPath(s, (canon - dropped) + writes, chain[|chain| - 1])
  {
    hide Walk, AncestorAt, Closed, Contiguous, GapBetween;
    var last := chain[|chain| - 1];
    var after := (canon - dropped) + writes;
    BatchPath(s, chain, 0);
    forall n: nat | n <= last.number
      ensures n in after && after[n] == AncestorAt(s, last, n).hash
    {
      SwitchAt(s, canon, head, chain, low, walk, writes, n);
    }
    forall n: nat | n > last.number
      ensures n !in after
    {
      if n in canon {
        PathHasNoGap(s, canon, head, last.number, n);
      }
    }
  }

  /** Piling a batch onto the head needs no walk and no deletions. */
  lemma ExtendBatch(s: Store, canon: CanonIndex, head: Header, chain: seq<Header>, writes: CanonIndex)
    requires Closed(s) && Stored(s, head) && IsPath(s, canon, head)
    requires chain != [] && Contiguous(chain) && AllStored(s, chain)
    requires chain[0].number == head.number + 1 && chain[0].parent == head.hash
    requires WritesOf(map[], chain, writes)
    ensures IsPath(s, canon + writes, chain[|chain| - 1])
  {
    hide Walk, Closed, Contiguous, AncestorAt;
    var first, last := chain[0], chain[|chain| - 1];
    BatchPath(s, chain, 0);
    AncestorSelf(s, first);
    AncestorIsParent(s, first, first.number);
    assert AncestorAt(s, first, head.number) == head;
    forall n: nat | n <= last.number
      ensures n in canon + writes && (canon + writes)[n] == AncestorAt(s, last, n).hash
    {
      if n <= head.number {
        AncestorOfAncestor(s, last, first.number, n);
        AncestorOfAncestor(s, first, head.number, n);
      } else {
        BatchPath(s, chain, n - first.number);
      }
    }
  }

  // --------------------------------------------------------- importing headers

  /** The tables after `i` headers of an import, the last of which has total
      difficulty `td`. */
  ghost predicate Importing(s: Store, t: Store, tds: map<Hash, nat>, genesis: Hash, chain: seq<Header>, i: nat, td: nat) {
    && i <= |chain| && chain != [] && Contiguous(chain) && ContentAddressed(s, chain)
    && Closed(t) && Rooted(t, genesis) && TdExact(t, tds) && Imported(s, t, chain[..i])
    && var tip := if i == 0 then chain[0].parent else chain[i - 1].hash;
       Lookup(t, tip, chain[0].number + i - 1).Some? && tds[tip] == td
  }

  lemma ImportingStep(s: Store, t: Store, tds: map<Hash, nat>, genesis: Hash, chain: seq<Header>, i: nat, td: nat)
    requires Importing(s, t, tds, genesis, chain, i, td) && i < |chain|
    ensures var b := chain[i];
      && Importing(s, t[b.hash := b], tds[b.hash := td + b.difficulty], genesis, chain, i + 1, td + b.difficulty)
      && (Lookup(s, b.hash, b.number).Some? ==> t[b.hash := b] == t && tds[b.hash := td + b.difficulty] == tds)
  {
    hide TotalDifficulty, Rooted, Closed, Contiguous, ContentAddressed, Imported;
    ContiguousNumber(chain, i);
    if i > 0 { ContiguousNumber(chain, i - 1); }
    ImportedAddress(s, t, chain, i);
    AddHeader(t, tds, genesis, chain[i], td + chain[i].difficulty);
    ImportedStep(s, t, chain, i);
  }

  /** The headers and total difficulties one insertion writes. A header is skipped
      only while all before it were known. */
  method CollectHeaders(s: Store, tds: map<Hash, nat>, ghost genesis: Hash, chain: seq<Header>)
    returns (newHeaders: Store, newTds: map<Hash, nat>, inserted: nat)
    requires Closed(s) && Rooted(s, genesis) && TdExact(s, tds)
    requires chain != [] && Contiguous(chain) && ContentAddressed(s, chain)
    requires Lookup(s, chain[0].parent, chain[0].number - 1).Some?
    ensures Closed(s + newHeaders) && Rooted(s + newHeaders, genesis) && TdExact(s + newHeaders, tds + newTds)
    ensures Imported(s, s + newHeaders, chain)
    ensures inserted == Unknown(s, chain)
  {
    hide Importing, Closed, Rooted, TdExact, Imported, Contiguous, ContentAddressed, Unknown;
    newHeaders, newTds, inserted := map[], map[], 0;
    ImportingStart(s, tds, genesis, chain);
    var newTd: nat := tds[chain[0].parent];
    var parentKnown := true;
    ghost var t, u := s, tds;
    assert t == s + newHeaders && u == tds + newTds;
    for i := 0 to |chain|
      invariant t == s + newHeaders && u == tds + newTds && inserted == Unknown(s, chain[..i])
      invariant Importing(s, t, u, genesis, chain, i, newTd)
      invariant !parentKnown ==> i > 0 && chain[i - 1].hash !in s
    {
      var b := chain[i];
      SkippedIsKnown(s, chain, i, parentKnown);
      ImportingStep(s, t, u, genesis, chain, i, newTd);
      newTd := newTd + b.difficulty;
      var known := parentKnown && Lookup(s, b.hash, b.number).Some?;
      if !known {
        newTds := newTds[b.hash := newTd];
        newHeaders := newHeaders[b.hash := b];
        inserted := inserted + 1;
      }
      t, u := t[b.hash := b], u[b.hash := newTd];
      parentKnown := known;
    }
    ImportingDone(s, t, u, genesis, chain, newTd);
    assert chain[..|chain|] == chain;
  }

  /** How many headers of the batch the table does not have. */
  function Unknown(s: Store, chain: seq<Header>): nat {
    if chain == [] then 0
    else Unknown(s, chain[..|chain| - 1]) + if chain[|chain| - 1].hash in s then 0 else 1
  }

  /** A header is skipped exactly when it is known: in a closed table no known header
      follows an unknown one. */
  lemma SkippedIsKnown(s: Store, chain: seq<Header>, i: nat, parentKnown: bool)
    requires Closed(s) && i < |chain| && Contiguous(chain) && ContentAddressed(s, chain)
    requires chain[0].parent in s && (!parentKnown ==> i > 0 && chain[i - 1].hash !in s)
    ensures var known := parentKnown && Lookup(s, chain[i].hash, chain[i].number).Some?;
      && (known <==> chain[i].hash in s)
      && Unknown(s, chain[..i + 1]) == Unknown(s, chain[..i]) + if known then 0 else 1
  {
    assert chain[..i + 1][..i] == chain[..i];
    if chain[i].hash in s && i > 0 {
      assert chain[i].parent == chain[i - 1].hash;
    }
  }

  lemma ImportingDone(s: Store, t: Store, tds: map<Hash, nat>, genesis: Hash, chain: seq<Header>, td: nat)
    requires Importing(s, t, tds, genesis, chain, |chain|, td)
    ensures Closed(t) && Rooted(t, genesis) && TdExact(t, tds) && Imported(s, t, chain)
  {
    assert chain[..|chain|] == chain;
  }

  lemma ImportingStart(s: Store, tds: map<Hash, nat>, genesis: Hash, chain: seq<Header>)
    requires Closed(s) && Rooted(s, genesis) && TdExact(s, tds)
    requires chain != [] && Contiguous(chain) && ContentAddressed(s, chain)
    requires Lookup(s, chain[0].parent, chain[0].number - 1).Some?
    ensures chain[0].parent in tds && Importing(s, s, tds, genesis, chain, 0, tds[chain[0].parent])
    ensures Unknown(s, chain[..0]) == 0
  {
    assert Imported(s, s, chain[..0]);
  }

  lemma ImportedAddress(s: Store, t: Store, chain: seq<Header>, i: nat)
    requires i < |chain| && ContentAddressed(s, chain) && Imported(s, t, chain[..i])
    ensures chain[i].hash != ZERO_HASH && (chain[i].hash in t ==> chain[i].hash in s && t[chain[i].hash] == chain[i])
    ensures Lookup(s, chain[i].hash, chain[i].number).Some? ==> chain[i].hash in t && t[chain[i].hash] == chain[i]
  {
  }

  lemma ImportedStep(s: Store, t: Store, chain: seq<Header>, i: nat)
    requires i < |chain| && ContentAddressed(s, chain) && Imported(s, t, chain[..i])
    ensures Imported(s, t[chain[i].hash := chain[i]], chain[..i + 1])
  {
    var next := chain[..i + 1];
    assert next[i] == chain[i] && forall k :: 0 <= k < i ==> next[k] == chain[..i][k];
    forall h | h in t && h !in s
      ensures exists k :: 0 <= k < |next| && next[k].hash == h
    {
      hide ContentAddressed;
      var k :| 0 <= k < i && chain[..i][k].hash == h;
      assert next[k].hash == h;
    }
  }

  lemma ImportedPath(s: Store, t: Store, chain: seq<Header>, canon: CanonIndex, head: Header)
    requires Closed(s) && Closed(t) && Stored(s, head) && IsPath(s, canon, head) && Imported(s, t, chain)
    ensures Stored(t, head) && IsPath(t, canon, head)
  {
    hide Walk, AncestorAt;
    forall n: nat | n <= head.number
      ensures AncestorAt(t, head, n) == AncestorAt(s, head, n)
    {
      SamePath(s, t, head, n);
    }
  }

  // -------------------------------------------------------------- the rewind

  /** The first sweep of a rewind: all levels above `num` up to the first empty one. */
  method LevelsAbove(s: Store, num: nat) returns (hashes: set<Hash>, numbers: set<nat>)
    requires Closed(s)
    ensures hashes == set h | h in s && s[h].number > num
    ensures forall n: nat :: n in numbers ==> n > num
    ensures forall h :: h in s && s[h].number > num ==> s[h].number in numbers
  {
    hide Closed;
    hashes, numbers := {}, {};
    var n := num + 1;
    while HashesAt(s, n) != {}
      invariant n > num
      invariant forall h :: h in hashes <==> h in s && num < s[h].number < n
      invariant forall k: nat :: k in numbers <==> num < k < n
      decreases s.Keys - hashes
    {
      var h :| h in HashesAt(s, n);
      assert h in s.Keys - hashes;
      hashes, numbers := hashes + HashesAt(s, n), numbers + {n};
      n := n + 1;
    }
    forall h | h in s
      ensures s[h].number < n
    {
      NothingAbove(s, n, h);
    }
  }

  /** The batch after the head was moved down to `target`: every row above it. */
  ghost predicate RewindBatch(s: Store, canon: CanonIndex, target: nat, hashes: set<Hash>, numbers: set<nat>) {
    && (forall h :: h in hashes <==> h in s && s[h].number > target)
    && (forall n: nat :: n in numbers ==> n > target)
    && forall n: nat :: n in canon && n > target ==> n in numbers
  }

  /** Flushing that batch cuts all three tables at the target. */
  lemma FlushBatch(s: Store, tds: map<Hash, nat>, canon: CanonIndex, target: nat, hashes: set<Hash>, numbers: set<nat>)
    requires RewindBatch(s, canon, target, hashes, numbers) && Closed(s) && TdExact(s, tds)
    ensures s - hashes == Below(s, s, target)
    ensures tds - hashes == Below(s, tds, target)
    ensures canon - numbers == CanonBelow(canon, target)
  {
  }

  datatype Op = Insert(chain: seq<Header>, interrupted: bool, coin: bool)
              | Switch(stored: seq<Header>)
              | Rewind(headBlock: nat, headTime: nat, update: Header -> Option<Header>)

  /** No height of the path strictly above `low` meets the target of the rewind. */
  ghost predicate NotDoneAbove(s: Store, head: Header, low: nat, headBlock: nat, headTime: nat)
    requires Closed(s) && Stored(s, head)
  {
    forall n: nat :: low < n <= head.number ==> !Done(headBlock, headTime, AncestorAt(s, head, n))
  }

  function Lower(a: nat, b: nat): nat {
    if a < b then a else b
  }

  /** By number the rewind ends at the target or stays below it. */
  lemma DoneByNumber(s: Store, head: Header, b: Header, headBlock: nat)
    requires Closed(s) && Stored(s, head) && b.number <= head.number && b == AncestorAt(s, head, b.number)
    requires if Done(headBlock, 0, head) then b == head else Done(headBlock, 0, b) && NotDoneAbove(s, head, b.number, headBlock, 0)
    ensures b.number == Lower(head.number, headBlock)
  {
    hide Walk, AncestorAt, Closed;
    if !Done(headBlock, 0, head) {
      assert b.number < headBlock ==> Done(headBlock, 0, AncestorAt(s, head, b.number + 1));
    }
  }

  /** By time every header above is too young. */
  lemma DoneByTime(s: Store, head: Header, b: Header, headBlock: nat, headTime: nat)
    requires Closed(s) && Stored(s, head) && b.number <= head.number && b == AncestorAt(s, head, b.number) && headTime > 0
    requires if Done(headBlock, headTime, head) then b == head
             else Done(headBlock, headTime, b) && NotDoneAbove(s, head, b.number, headBlock, headTime)
    ensures b.time <= headTime
    ensures forall n: nat :: b.number < n <= head.number ==> AncestorAt(s, head, n).time > headTime
  {
    hide Walk, AncestorAt, Closed;
  }

  lemma DoneIs(s: Store, head: Header, b: Header, headBlock: nat, headTime: nat)
    requires Closed(s) && Stored(s, head) && b.number <= head.number && b == AncestorAt(s, head, b.number)
    requires if Done(headBlock, headTime, head) then b == head
             else Done(headBlock, headTime, b) && NotDoneAbove(s, head, b.number, headBlock, headTime)
    ensures headTime == 0 ==> b.number == Lower(head.number, headBlock)
    ensures headTime > 0 ==>
              && b.time <= headTime
              && forall n: nat :: b.number < n <= head.number ==> AncestorAt(s, head, n).time > headTime
  {
    hide Walk, AncestorAt, Closed;
    if headTime == 0 {
      DoneByNumber(s, head, b, headBlock);
    } else {
      DoneByTime(s, head, b, headBlock, headTime);
    }
  }

  /** `block` is the target of a rewind by number after the callback ran for the headers
      of the path from `low` up: the requested one or the lowest one a callback forced. */
  ghost predicate ForcedTo(s: Store, head: Header, headBlock: nat, update: Header -> Option<Header>, low: nat, block: nat)
    requires Closed(s) && Stored(s, head)
  {
    && block <= headBlock
    && (forall n: nat :: low <= n < head.number && update(AncestorAt(s, head, n)).Some? ==>
                           block <= update(AncestorAt(s, head, n)).value.number)
    && (block == headBlock || exists n: nat :: low <= n < head.number && update(AncestorAt(s, head, n)).Some?
                                               && update(AncestorAt(s, head, n)).value.number == block)
  }

  lemma ForcedStep(s: Store, head: Header, headBlock: nat, update: Header -> Option<Header>, low: nat, block: nat)
    requires Closed(s) && Stored(s, head) && 0 < low <= head.number && ForcedTo(s, head, headBlock, update, low, block)
    ensures var forced := update(AncestorAt(s, head, low - 1));
      ForcedTo(s, head, headBlock, update, low - 1,
               if forced.Some? && forced.value.number < block then forced.value.number else block)
  {
    hide Walk, AncestorAt, Closed;
  }

  lemma NothingForced(s: Store, head: Header, headBlock: nat, update: Header -> Option<Header>)
    requires Closed(s) && Stored(s, head)
    ensures ForcedTo(s, head, headBlock, update, head.number, headBlock)
  {
  }

  /** The rewinding loop: where the head ends up and the deletions batched on the
      way. Reads see the database as it was before the batch. */
  method StepBack(s: Store, canon: CanonIndex, genesis: Header, head: Header, headBlock: nat, headTime: nat,
                  update: Header -> Option<Header>) returns (target: Header, hashes: set<Hash>, numbers: set<nat>)
    requires Closed(s) && Rooted(s, genesis.hash) && Stored(s, genesis) && Stored(s, head) && IsPath(s, canon, head)
    requires headTime > 0 ==> genesis.time <= headTime
    ensures target.number <= head.number && target == AncestorAt(s, head, target.number)
    ensures RewindBatch(s, canon, target.number, hashes, numbers)
    ensures (forall h :: update(h).None?) ==>
      Done(headBlock, headTime, target) && NotDoneAbove(s, head, target.number, headBlock, headTime)
    ensures headTime == 0 && head.number > headBlock ==> ForcedTo(s, head, headBlock, update, target.number, target.number)
  {
    hide Closed, Rooted, Walk, AncestorAt, IsPath, RewindBatch, NotDoneAbove, ForcedTo;
    NothingForced(s, head, headBlock, update);
    var block, time := headBlock, headTime;
    AncestorSelf(s, head);
    target := head;
    hashes, numbers := LevelsAbove(s, head.number);
    FirstSweep(s, canon, head, hashes, numbers);
    NotDoneAtHead(s, head, headBlock, headTime);
    while !Done(block, time, target)
      invariant target.number <= head.number && target == AncestorAt(s, head, target.number)
      invariant RewindBatch(s, canon, target.number, hashes, numbers)
      invariant time > 0 ==> genesis.time <= time
      invariant (forall h :: update(h).None?) ==> block == headBlock && time == headTime
      invariant (forall h :: update(h).None?) ==> NotDoneAbove(s, head, target.number, headBlock, headTime)
      invariant headTime == 0 && head.number > headBlock ==>
                  time == 0 && target.number >= block && ForcedTo(s, head, headBlock, update, target.number, block)
      decreases target.number
    {
      var num := target.number;
      StepDown(s, genesis, head, target);
      if headTime == 0 && head.number > headBlock {
        ForcedStep(s, head, headBlock, update, num, block);
      }
      if forall h :: update(h).None? {
        NotDoneStep(s, head, target, headBlock, headTime);
      }
      RewindStep(s, canon, num, hashes, numbers);
      target := match ParentOf(s, target) case Some(p) => p case None => genesis;
      var forced := update(target);
      if forced.Some? && (if time > 0 then forced.value.time < time else forced.value.number < block) {
        block, time := forced.value.number, 0;
      }
      hashes, numbers := hashes + HashesAt(s, num), numbers + {num};
    }
  }

  lemma NotDoneAtHead(s: Store, head: Header, headBlock: nat, headTime: nat)
    requires Closed(s) && Stored(s, head)
    ensures NotDoneAbove(s, head, head.number, headBlock, headTime)
  {
  }

  datatype Status = NonStat | Side | Canon

  lemma NothingImported(s: Store)
    ensures Imported(s, s, [])
  {
  }

  lemma ImportedKeeps(s: Store, t: Store, chain: seq<Header>, b: Header)
    requires Imported(s, t, chain) && Stored(s, b)
    ensures Stored(t, b)
  {
  }

  lemma ClosedIsKeyed(s: Store)
    requires Closed(s)
    ensures Keyed(s)
  {
  }

  lemma SameTd(s: Store, t: Store, chain: seq<Header>, tds: map<Hash, nat>, newTds: map<Hash, nat>, b: Header)
    requires Closed(s) && Closed(t) && Imported(s, t, chain) && TdExact(s, tds) && TdExact(t, newTds) && Stored(s, b)
    ensures newTds[b.hash] == tds[b.hash]
  {
    TotalDifficultyElsewhere(s, t, b);
  }

  /** At the start of a rewind everything above the head is swept. */
  lemma FirstSweep(s: Store, canon: CanonIndex, head: Header, hashes: set<Hash>, numbers: set<nat>)
    requires Closed(s) && Stored(s, head) && IsPath(s, canon, head)
    requires hashes == set h | h in s && s[h].number > head.number
    requires forall n: nat :: n in numbers ==> n > head.number
    ensures RewindBatch(s, canon, head.number, hashes, numbers)
  {
  }

  lemma RewindStep(s: Store, canon: CanonIndex, n: nat, hashes: set<Hash>, numbers: set<nat>)
    requires RewindBatch(s, canon, n, hashes, numbers) && n > 0
    ensures RewindBatch(s, canon, n - 1, hashes + HashesAt(s, n), numbers + {n})
  {
  }

  lemma StepDown(s: Store, genesis: Header, head: Header, b: Header)
    requires Closed(s) && Rooted(s, genesis.hash) && Stored(s, genesis) && Stored(s, head)
    requires b.number <= head.number && b == AncestorAt(s, head, b.number)
    ensures b.number == 0 ==> b == genesis
    ensures b.number > 0 ==> ParentOf(s, b) == Some(AncestorAt(s, head, b.number - 1))
  {
    hide Walk, AncestorAt;
    if b.number > 0 {
      AncestorIsParent(s, head, b.number);
    }
  }

  lemma NotDoneStep(s: Store, head: Header, b: Header, headBlock: nat, headTime: nat)
    requires Closed(s) && Stored(s, head) && 0 < b.number <= head.number && b == AncestorAt(s, head, b.number)
    requires !Done(headBlock, headTime, b) && NotDoneAbove(s, head, b.number, headBlock, headTime)
    ensures NotDoneAbove(s, head, b.number - 1, headBlock, headTime)
  {
    hide Walk, AncestorAt, Closed, Stored;
  }

  lemma BelowKeeps(s: Store, genesis: Hash, b: Header, n: nat)
    requires Rooted(s, genesis) && Stored(s, b) && b.hash == genesis
    ensures Stored(Below(s, s, n), b)
  {
  }

  /** No walk breaks in an ancestor-closed table. */
  lemma NoBreak(s: Store, first: Header)
    requires exists k: nat :: k <= first.number && Walk(s, first, k).None?
    ensures !(Closed(s) && Stored(s, first))
  {
    var k: nat :| k <= first.number && Walk(s, first, k).None?;
    if Closed(s) && Stored(s, first) {
      WalkTotal(s, first, k);
    }
  }

  lemma LinkIsAncestor(s: Store, canon: CanonIndex, first: Header, low: int)
    requires Closed(s) && Stored(s, first) && -1 <= low <= first.number
    requires low >= 0 ==>
      && Walk(s, first, first.number - low).Some?
      && ReadCanonicalHash(canon, low) == Walk(s, first, first.number - low).value.hash
    ensures low >= 0 ==> ReadCanonicalHash(canon, low) == AncestorAt(s, first, low).hash
  {
    hide Walk, Closed;
  }

  lemma ChildOfHead(s: Store, genesis: Hash, head: Header, first: Header)
    requires Closed(s) && Rooted(s, genesis) && Stored(s, head) && Stored(s, first) && first.parent == head.hash
    ensures first.number == head.number + 1
  {
  }

  class Chain {
    const genesis: Header

    // database tables
    var headers: Store
    var tds: map<Hash, nat>
    var canon: CanonIndex
    var headHeaderHash: Hash

    // in-memory markers
    var currentHeader: Header
    var currentHeaderHash: Hash

    ghost predicate Consistent()
      reads this
    {
      && Closed(headers) && Rooted(headers, genesis.hash) && Stored(headers, genesis)
      && TdExact(headers, tds)
    }

    ghost predicate Valid()
      reads this
    {
      && Consistent()
      && Stored(headers, currentHeader) && IsPath(headers, canon, currentHeader)
      && currentHeaderHash == headHeaderHash == currentHeader.hash
    }

    constructor (g: Header)
      requires g.number == 0 && g.parent == ZERO_HASH && g.hash != ZERO_HASH
      ensures Valid() && currentHeader == g && headers == map[g.hash := g]
    {
      genesis := g;
      headers := map[g.hash := g];
      tds := map[g.hash := g.difficulty];
      canon := map[0 := g.hash];
      headHeaderHash, currentHeader, currentHeaderHash := g.hash, g, g.hash;
    }

    /** Make `chain` the top of the canonical chain. On a missing ancestor it
        reports failure and nothing has changed. */
    method Reorg(chain: seq<Header>) returns (ok: bool)
      requires Keyed(headers) && Contiguous(chain) && AllStored(headers, chain)
      modifies `canon, `headHeaderHash, `currentHeader, `currentHeaderHash
      ensures !ok ==> unchanged(this)
      ensures chain == [] ==> ok && unchanged(this)
      ensures !ok ==> exists k: nat :: k <= chain[0].number && Walk(headers, chain[0], k).None?
      ensures ok && chain != [] ==> currentHeader == chain[|chain| - 1]
      ensures old(Valid()) ==> ok && Valid()
    {
      hide Walk, Closed, Contiguous, IsPath, TdExact, AncestorAt, GapBetween, PathWrites, WritesOf;
      if chain == [] {
        return true;
      }
      var first, last := chain[0], chain[|chain| - 1];
      var dropped: set<nat>, walk: CanonIndex := {}, map[];
      ghost var low: int := -1;
      if first.parent != currentHeaderHash {
        dropped := EntriesAbove(canon, last.number);
        ok, walk, low := CrossLink(headers, canon, first);
        if !ok {
          NoBreak(headers, first);
          return false;
        }
      }
      var writes := ExtendWrites(walk, chain);
      if old(Valid()) {
        if first.parent != currentHeaderHash {
          LinkIsAncestor(headers, canon, first, low);
          SwitchBatch(headers, canon, currentHeader, chain, low, dropped, walk, writes);
        } else {
          ChildOfHead(headers, genesis.hash, currentHeader, first);
          ExtendBatch(headers, canon, currentHeader, chain, writes);
          assert canon - {} == canon;
        }
      }
      canon := (canon - dropped) + writes;
      headHeaderHash, currentHeaderHash, currentHeader := last.hash, last.hash, last;
      return true;
    }

    /** Store a batch of validated headers with their total difficulties. */
    method WriteHeaders(chain: seq<Header>, interrupted: bool) returns (r: Result<nat, Error>)
      requires Valid() && Contiguous(chain) && ContentAddressed(headers, chain)
      modifies `headers, `tds
      ensures Valid()
      ensures r.Err? ==> unchanged(this)
      ensures chain == [] ==> r == Ok(0) && unchanged(this)
      ensures chain != [] ==>
                (r == Err(UnknownAncestor) <==> Lookup(old(headers), chain[0].parent, chain[0].number - 1).None?)
      ensures r.Err? && r.error != UnknownAncestor <==> r == Err(Aborted)
      ensures r == Err(Aborted) <==>
                interrupted && chain != [] && Lookup(old(headers), chain[0].parent, chain[0].number - 1).Some?
      ensures r.Ok? ==> Imported(old(headers), headers, chain) && r.value == Unknown(old(headers), chain)
    {
      hide Closed, Rooted, IsPath, TotalDifficulty, TdExact, Contiguous, ContentAddressed, Imported;
      if chain == [] {
        assert Imported(headers, headers, chain) by { NothingImported(headers); }
        return Ok(0);
      }
      if Lookup(headers, chain[0].parent, chain[0].number - 1).None? {
        return Err(UnknownAncestor);
      }
      var newHeaders, newTds, inserted := CollectHeaders(headers, tds, genesis.hash, chain);
      if interrupted {
        return Err(Aborted);
      }
      ImportedPath(headers, headers + newHeaders, chain, canon, currentHeader);
      ImportedKeeps(headers, headers + newHeaders, chain, genesis);
      headers, tds := headers + newHeaders, tds + newTds;
      return Ok(inserted);
    }

    /** Store a batch and make its last header the head if the fork choice says so.
        Over any such insertion every stored total difficulty stays exact, and the
        head's total difficulty, counted up to the terminal one, never falls. */
    method WriteHeadersAndSetHead(chain: seq<Header>, interrupted: bool, ttd: Option<nat>,
                                  preserve: Header -> bool, coin: bool) returns (r: Result<Status, Error>)
      requires Valid() && chain != [] && Contiguous(chain) && ContentAddressed(headers, chain)
      modifies this
      ensures Valid()
      ensures r.Err? ==> unchanged(this)
      ensures r.Ok? <==> !interrupted && Lookup(old(headers), chain[0].parent, chain[0].number - 1).Some?
      ensures r.Ok? ==> Imported(old(headers), headers, chain) && chain[|chain| - 1].hash in tds
      ensures r.Ok? ==>
                var head, last := old(currentHeader), chain[|chain| - 1];
                var localTd, externTd := old(tds)[head.hash], tds[last.hash];
                var canonical := ReadCanonicalHash(old(canon), last.number) == last.hash && last.number <= head.number;
                var preferred :=
                  || (ttd.Some? && externTd >= ttd.value)
                  || externTd > localTd
                  || (externTd == localTd && last.number < head.number)
                  || (externTd == localTd && last.number == head.number && !preserve(head) && (preserve(last) || coin));
                && (r.value == Canon <==> preferred && !canonical)
                && (r.value == Side <==> !preferred && Unknown(old(headers), chain) > 0)
      ensures currentHeader == if r == Ok(Canon) then chain[|chain| - 1] else old(currentHeader)
      ensures Capped(tds[currentHeader.hash], ttd) >= Capped(old(tds)[old(currentHeader).hash], ttd)
      ensures ttd.None? ==> tds[currentHeader.hash] >= old(tds)[old(currentHeader).hash]
      ensures tds[currentHeader.hash] < old(tds)[old(currentHeader).hash] <==>
                r.Ok? && Lowers(old(canon), old(tds)[old(currentHeader).hash], old(currentHeader).number, tds, ttd,
                                chain[|chain| - 1])
    {
      hide Closed, Rooted, IsPath, TotalDifficulty, Contiguous, ContentAddressed, ReorgNeeded, Unknown;
      var inserted := WriteHeaders(chain, interrupted);
      if inserted.Err? {
        return Err(inserted.error);
      }
      var last := chain[|chain| - 1];
      SameTd(old(headers), headers, chain, old(tds), tds, currentHeader);
      var decision := ReorgNeeded(Some(tds[currentHeader.hash]), Some(tds[last.hash]), ttd,
                                  currentHeader, last, preserve, coin);
      ChoiceKeepsCapped(tds[currentHeader.hash], tds[last.hash], ttd, currentHeader, last, preserve, coin);
      ChoiceIs(tds[currentHeader.hash], tds[last.hash], ttd, currentHeader, last, preserve, coin);
      if !decision.reorg {
        return Ok(if inserted.value != 0 then Side else NonStat);
      }
      if ReadCanonicalHash(canon, last.number) == last.hash && last.number <= currentHeader.number {
        return Ok(NonStat);
      }
      ClosedIsKeyed(headers);
      var _ := Reorg(chain);
      return Ok(Canon);
    }

    /** Rewind to a number, or to a timestamp when one is given. `update` is the
        callback run before each step; it may force a deeper target. Rows of every
        fork above the new head are removed, all others stay. */
    method SetHead(headBlock: nat, headTime: nat, update: Header -> Option<Header>) returns (ok: bool)
      requires Valid()
      modifies this
      ensures Valid()
      ensures ok <==> !(headTime > 0 && genesis.time > headTime)
      ensures !ok || Done(headBlock, headTime, old(currentHeader)) ==> unchanged(this)
      ensures currentHeader.number <= old(currentHeader).number
      ensures currentHeader == AncestorAt(old(headers), old(currentHeader), currentHeader.number)
      ensures ok && !Done(headBlock, headTime, old(currentHeader)) ==>
                && headers == Below(old(headers), old(headers), currentHeader.number)
                && tds == Below(old(headers), old(tds), currentHeader.number)
                && canon == CanonBelow(old(canon), currentHeader.number)
      ensures ok && headTime == 0 && old(currentHeader).number > headBlock ==>
                ForcedTo(old(headers), old(currentHeader), headBlock, update, currentHeader.number, currentHeader.number)
      ensures ok && headTime == 0 && (forall h :: update(h).None?) ==>
                currentHeader.number == Lower(old(currentHeader).number, headBlock)
      ensures ok && headTime > 0 && (forall h :: update(h).None?) ==>
                && currentHeader.time <= headTime
                && forall n: nat :: currentHeader.number < n <= old(currentHeader).number ==>
                                      AncestorAt(old(headers), old(currentHeader), n).time > headTime
      ensures ok && (forall h :: update(h).None?) && !Done(headBlock, headTime, old(currentHeader)) ==>
                && Done(headBlock, headTime, currentHeader)
                && NotDoneAbove(old(headers), old(currentHeader), currentHeader.number, headBlock, headTime)
    {
      hide Closed, Rooted, Walk, AncestorAt, IsPath, TdExact, RewindBatch, Below, CanonBelow, ForcedTo, NotDoneAbove;
      AncestorSelf(headers, currentHeader);
      if headTime > 0 && genesis.time > headTime {
        return false;
      }
      if Done(headBlock, headTime, currentHeader) {
        DoneIs(headers, currentHeader, currentHeader, headBlock, headTime);
        return true;
      }
      var target, hashes, numbers := StepBack(headers, canon, genesis, currentHeader, headBlock, headTime, update);
      if forall h :: update(h).None? {
        DoneIs(headers, currentHeader, target, headBlock, headTime);
      }
      headHeaderHash, currentHeaderHash := target.hash, target.hash;
      FlushBatch(headers, tds, canon, target.number, hashes, numbers);
      BelowTables(headers, tds, canon, genesis.hash, currentHeader, target);
      BelowKeeps(headers, genesis.hash, genesis, target.number);
      currentHeader := target;
      headers, tds, canon := headers - hashes, tds - hashes, canon - numbers;
      return true;
    }

    lemma ValidIsKeyed()
      requires Valid()
      ensures Keyed(headers)
    {
    }

    /** Any run of insertions, switches to stored batches and rewinds. */
    method Run(ops: seq<Op>, ttd: Option<nat>, preserve: Header -> bool)
      requires Valid()
      modifies this
      ensures Valid()
    {
      hide Valid, Contiguous, ContentAddressed, Capped, Imported, Done, Below, CanonBelow, AncestorAt, NotDoneAbove, Closed, TdExact;
      for i := 0 to |ops|
        invariant Valid()
      {
        match ops[i]
        case Insert(chain, interrupted, coin) =>
          if chain != [] && Contiguous(chain) && ContentAddressed(headers, chain) {
            var _ := WriteHeadersAndSetHead(chain, interrupted, ttd, preserve, coin);
          }
        case Switch(chain) =>
          if Contiguous(chain) && forall k :: 0 <= k < |chain| ==> chain[k].hash in headers && headers[chain[k].hash] == chain[k] {
            ValidIsKeyed();
            var _ := Reorg(chain);
          }
        case Rewind(headBlock, headTime, update) =>
          var _ := SetHead(headBlock, headTime, update);
      }
    }

    /** Over any run of insertions the capped total difficulty of the head never
        falls, nor the total difficulty itself while there is no terminal one. */
    method InsertAll(batches: seq<(seq<Header>, bool, bool)>, ttd: Option<nat>, preserve: Header -> bool)
      requires Valid()
      modifies this
      ensures Valid()
      ensures Capped(tds[currentHeader.hash], ttd) >= Capped(old(tds)[old(currentHeader).hash], ttd)
      ensures ttd.None? ==> tds[currentHeader.hash] >= old(tds)[old(currentHeader).hash]
    {
      hide Contiguous, ContentAddressed, Capped, Imported, Closed, TotalDifficulty, IsPath, Rooted;
      for i := 0 to |batches|
        invariant Valid()
        invariant Capped(tds[currentHeader.hash], ttd) >= Capped(old(tds)[old(currentHeader).hash], ttd)
        invariant ttd.None? ==> tds[currentHeader.hash] >= old(tds)[old(currentHeader).hash]
      {
        var (chain, interrupted, coin) := batches[i];
        if chain != [] && Contiguous(chain) && ContentAddressed(headers, chain) {
          var _ := WriteHeadersAndSetHead(chain, interrupted, ttd, preserve, coin);
        }
      }
    }
  }
}
