/** The background section indexer.

    It drops its lock while it processes a section, so the canonical chain can be
    reorganised under it at any database read. The protocol is a state machine over
    its atomic steps; the bodies that run under the lock are also given as methods
    of a class, proved against the same step functions.
 */
module Indexer {
  import opened Wrappers
  import opened Ancestry

  /** Section size, confirmations, and the checkpoint with its section head. */
  datatype Config = Config(size: nat, confirms: nat, checkpoint: nat, checkpointHead: Hash)

  /** The section counters and the section head table. */
  datatype Index = Index(stored: nat, known: nat, heads: map<nat, Hash>)

  /** The first block number of a section. */
  function FirstOf(c: Config, section: nat): nat {
    section * c.size
  }

  /** The last block number of a section. */
  function LastOf(c: Config, section: nat): nat
    requires c.size > 0
  {
    FirstOf(c, section) + c.size - 1
  }

  lemma NextSection(c: Config, section: nat)
    ensures FirstOf(c, section + 1) == FirstOf(c, section) + c.size
  {
  }

  function SectionHead(x: Index, section: int): Hash {
    if section >= 0 && section in x.heads then x.heads[section] else ZERO_HASH
  }

  /** Lowering the count removes the heads in between. */
  function SetValid(x: Index, sections: nat): Index {
    x.(stored := sections,
       heads := map n | n in x.heads && !(sections <= n < x.stored) :: x.heads[n])
  }

  /** One round of the verification loop; `None` means it is over. */
  function VerifyRound(c: Config, x: Index, canon: CanonIndex): Option<Index>
    requires c.size > 0
  {
    if x.stored > 0 && x.stored > c.checkpoint
       && SectionHead(x, x.stored - 1) != ReadCanonicalHash(canon, LastOf(c, x.stored - 1))
    then Some(SetValid(x, x.stored - 1))
    else None
  }

  /** The effect of a chain head or reorg notification. */
  function Notified(c: Config, x: Index, canon: CanonIndex, head: nat, reorg: bool): Index
    requires c.size > 0
  {
    if reorg then
      var sections := (head + 1) / c.size;
      var known := if sections < c.checkpoint then 0 else sections;
      var stored := if sections < c.checkpoint then c.checkpoint else sections;
      var y := if known < x.known then x.(known := known) else x;
      if stored < y.stored then SetValid(y, stored) else y
    else if head >= c.confirms then
      var sections := (head + 1 - c.confirms) / c.size;
      var known := if sections < c.checkpoint then 0 else sections;
      if known > x.known
         && !(x.known < c.checkpoint && ReadCanonicalHash(canon, LastOf(c, c.checkpoint - 1)) != c.checkpointHead)
      then x.(known := known)
      else x
    else x
  }

  /** The first `k` sections are those whose last block has `confirms` blocks on top of
      it when the chain ends at `head`. */
  ghost predicate Ended(c: Config, head: nat, confirms: nat, k: nat)
    requires c.size > 0
  {
    forall n: nat :: n < k <==> LastOf(c, n) + confirms <= head
  }

  lemma SectionsGrow(c: Config, n: nat, m: nat)
    requires n <= m
    ensures FirstOf(c, n) <= FirstOf(c, m)
  {
    assert (m - n) * c.size >= 0;
  }

  /** Counting them is a division. */
  lemma EndedCount(c: Config, head: nat, confirms: nat)
    requires c.size > 0
    ensures confirms <= head + 1 ==> Ended(c, head, confirms, (head + 1 - confirms) / c.size)
    ensures confirms > head ==> Ended(c, head, confirms, 0)
  {
    hide FirstOf;
    if confirms <= head + 1 {
      var k := (head + 1 - confirms) / c.size;
      FirstIsProduct(c, k, head + 1 - confirms);
      forall n: nat
        ensures n < k <==> LastOf(c, n) + confirms <= head
      {
        NextSection(c, n);
        if n < k {
          SectionsGrow(c, n + 1, k);
        } else {
          SectionsGrow(c, k, n);
        }
      }
    }
  }

  lemma FirstIsProduct(c: Config, k: nat, blocks: nat)
    requires c.size > 0 && k == blocks / c.size
    ensures FirstOf(c, k) <= blocks < FirstOf(c, k) + c.size
  {
  }

  /** What a notification does, in terms of blocks. A reorganisation to `head` keeps
      exactly the stored sections that end at or below it, and those of the checkpoint,
      and forgets known sections beyond. A plain head makes known what is confirmed by
      then, unless the checkpoint is reached and does not match. */
  lemma NotifiedIs(c: Config, x: Index, canon: CanonIndex, head: nat, reorg: bool) returns (k: nat)
    requires c.size > 0
    ensures Ended(c, head, if reorg then 0 else c.confirms, k)
    ensures var y := Notified(c, x, canon, head, reorg);
      if reorg then
        && y.stored == Min(x.stored, Max(c.checkpoint, k))
        && y.known == Min(x.known, if k < c.checkpoint then 0 else k)
        && (forall n :: n in y.heads <==> n in x.heads && (n < y.stored || n >= x.stored))
        && (forall n :: n in y.heads ==> y.heads[n] == x.heads[n])
      else
        && y.stored == x.stored && y.heads == x.heads
        && y.known == if k <= x.known || k < c.checkpoint || Mismatched(c, x, canon) then x.known else k
  {
    hide LastOf, Ended, ReadCanonicalHash;
    if reorg {
      EndedCount(c, head, 0);
      k := (head + 1) / c.size;
    } else {
      EndedCount(c, head, c.confirms);
      k := if c.confirms <= head then (head + 1 - c.confirms) / c.size else 0;
    }
  }

  /** The sync reaches the checkpoint on another chain. */
  predicate Mismatched(c: Config, x: Index, canon: CanonIndex)
    requires c.size > 0
  {
    x.known < c.checkpoint && ReadCanonicalHash(canon, LastOf(c, c.checkpoint - 1)) != c.checkpointHead
  }

  function Min(a: nat, b: nat): nat {
    if a < b then a else b
  }

  function Max(a: nat, b: nat): nat {
    if a < b then b else a
  }

  /** The header at `number`, if the canonical table names one whose row is still
      there and which continues from `last`. */
  function ReadNext(u: Store, canon: CanonIndex, number: nat, last: Hash): Option<Hash> {
    var hash := ReadCanonicalHash(canon, number);
    if hash == ZERO_HASH then None
    else
      match Lookup(u, hash, number)
      case None => None
      case Some(b) => if b.parent != last then None else Some(b.hash)
  }

  // ------------------------------------------------------- the state machine

  datatype Updater = Idle
                   | Verifying
                   | Processing(section: nat, oldHead: Hash, number: nat, last: Hash)
                   | Finishing(section: nat, oldHead: Hash, result: Option<Hash>)
                   | Recovering

  datatype Querier = Quiet | Querying

  /** The canonical table as the chain leaves it, the index, and where the update
      loop and a concurrent `Sections` call are. */
  datatype State = State(canon: CanonIndex, x: Index, upd: Updater, qry: Querier)

  predicate Locked(st: State) {
    st.upd.Verifying? || st.upd.Recovering? || st.qry.Querying?
  }

  datatype Step = Chain(canon: CanonIndex)
                | Notify(head: nat, reorg: bool)
                | Wake
                | Verify
                | ResetFails
                | Read(rowMissing: bool, backendFails: bool)
                | Commit(commitFails: bool)
                | Finish
                | Recover
                | Query
                | QueryVerify

  /** One atomic step. Steps that take the lock are enabled only while it is free. */
  ghost predicate Next(c: Config, u: Store, st: State, step: Step, st': State)
    requires c.size > 0
  {
    match step
    case Chain(canon) =>
      st' == st.(canon := canon)
    case Notify(head, reorg) =>
      !Locked(st) && st' == st.(x := Notified(c, st.x, st.canon, head, reorg))
    case Wake =>
      st.upd.Idle? && !Locked(st) && st' == if st.x.known > st.x.stored then st.(upd := Verifying) else st
    case Verify =>
      st.upd.Verifying? && st' ==
        (match VerifyRound(c, st.x, st.canon)
         case Some(y) => st.(x := y)
         case None =>
           var last := SectionHead(st.x, st.x.stored - 1);
           st.(upd := Processing(st.x.stored, last, FirstOf(c, st.x.stored), last)))
    case ResetFails =>
      st.upd.Processing? && st.upd.number == FirstOf(c, st.upd.section) &&
      st' == st.(x := SetValid(st.x, 0), upd := Finishing(st.upd.section, st.upd.oldHead, None))
    case Read(rowMissing, backendFails) =>
      st.upd.Processing? && st.upd.number < FirstOf(c, st.upd.section + 1) && st' ==
        var next := ReadNext(u, st.canon, st.upd.number, st.upd.last);
        if next.None? || rowMissing || backendFails
        then st.(upd := Finishing(st.upd.section, st.upd.oldHead, None))
        else st.(upd := st.upd.(number := st.upd.number + 1, last := next.value))
    case Commit(commitFails) =>
      st.upd.Processing? && st.upd.number == FirstOf(c, st.upd.section + 1) &&
      st' == st.(upd := Finishing(st.upd.section, st.upd.oldHead, if commitFails then None else Some(st.upd.last)))
    case Finish =>
      st.upd.Finishing? && !Locked(st) && st' ==
        if st.upd.result.Some? && (st.upd.section == 0 || st.upd.oldHead == SectionHead(st.x, st.upd.section - 1))
        then
          var y := st.x.(heads := st.x.heads[st.upd.section := st.upd.result.value]);
          st.(x := SetValid(y, st.upd.section + 1), upd := Idle)
        else st.(upd := Recovering)
    case Recover =>
      st.upd.Recovering? && st' ==
        (match VerifyRound(c, st.x, st.canon)
         case Some(y) => st.(x := y)
         case None => st.(x := st.x.(known := st.x.stored), upd := Idle))
    case Query =>
      st.qry.Quiet? && !Locked(st) && st' == st.(qry := Querying)
    case QueryVerify =>
      st.qry.Querying? && st' ==
        (match VerifyRound(c, st.x, st.canon)
         case Some(y) => st.(x := y)
         case None => st.(qry := Quiet))
  }

  // ----------------------------------------------------------- the invariant

  /** `hash` is the header with the last number of section `n`. */
  ghost predicate SectionEnd(c: Config, u: Store, n: nat, hash: Hash)
    requires c.size > 0
  {
    hash in u && u[hash].number == LastOf(c, n)
  }

  ghost predicate NamesAncestor(u: Store, b: Header, n: nat, hash: Hash)
    requires Closed(u)
  {
    Stored(u, b) && n <= b.number && AncestorAt(u, b, n).hash == hash
  }

  /** Section `n` continues from the section before it, block by block. */
  ghost predicate LinkedTo(c: Config, u: Store, n: nat, hash: Hash, previous: Hash)
    requires c.size > 0 && Closed(u)
  {
    SectionEnd(c, u, n, hash) && (n > 0 ==> NamesAncestor(u, u[hash], LastOf(c, n - 1), previous))
  }

  /** Stored heads from the checkpoint on are linked to each other, and there are no
      heads at or above the stored count. */
  ghost predicate Linked(c: Config, u: Store, x: Index)
    requires c.size > 0 && Closed(u)
  {
    && (forall n :: n in x.heads ==> n < x.stored && x.heads[n] != ZERO_HASH)
    && (forall n: nat :: n < x.stored && (n + 1 >= c.checkpoint || n + 1 == x.stored) ==> n in x.heads)
    && forall n: nat :: c.checkpoint <= n < x.stored ==>
         n in x.heads && LinkedTo(c, u, n, x.heads[n], SectionHead(x, n - 1))
  }

  /** Where the section being processed stands: its headers so far form a chain that
      starts at the captured head. */
  ghost predicate InFlight(c: Config, u: Store, x: Index, upd: Updater)
    requires c.size > 0 && Closed(u)
  {
    match upd
    case Processing(section, oldHead, number, last) =>
      && x.stored <= section && (section > 0 ==> oldHead != ZERO_HASH)
      && FirstOf(c, section) <= number <= FirstOf(c, section + 1)
      && (number == FirstOf(c, section) ==> last == oldHead)
      && (number > FirstOf(c, section) ==> ChainSoFar(c, u, section, oldHead, number, last))
    case Finishing(section, oldHead, result) =>
      && x.stored <= section && (section > 0 ==> oldHead != ZERO_HASH)
      && (result.Some? ==> LinkedTo(c, u, section, result.value, oldHead))
    case _ => true
  }

  ghost predicate ChainSoFar(c: Config, u: Store, section: nat, oldHead: Hash, number: nat, last: Hash)
    requires c.size > 0 && Closed(u)
  {
    && number > FirstOf(c, section) && last in u && u[last].number == number - 1
    && (section > 0 ==> NamesAncestor(u, u[last], LastOf(c, section - 1), oldHead))
  }

  ghost predicate Inv(c: Config, u: Store, st: State)
    requires c.size > 0 && Closed(u)
  {
    Linked(c, u, st.x) && InFlight(c, u, st.x, st.upd)
  }

  // ------------------------------------------------------- every step keeps it

  lemma TruncateKeeps(c: Config, u: Store, x: Index, k: nat)
    requires c.size > 0 && Closed(u) && Linked(c, u, x) && k <= x.stored && (k == 0 || k >= c.checkpoint)
    ensures Linked(c, u, SetValid(x, k)) && SetValid(x, k).stored == k
  {
    hide LinkedTo, Closed, SectionHead;
    var y := SetValid(x, k);
    forall n: nat | c.checkpoint <= n < y.stored
      ensures n in y.heads && LinkedTo(c, u, n, y.heads[n], SectionHead(y, n - 1))
    {
      SameHead(x, y, n - 1);
      assert n in x.heads && LinkedTo(c, u, n, x.heads[n], SectionHead(x, n - 1));
    }
  }

  lemma NotifiedKeeps(c: Config, u: Store, x: Index, canon: CanonIndex, head: nat, reorg: bool)
    requires c.size > 0 && Closed(u) && Linked(c, u, x)
    ensures Linked(c, u, Notified(c, x, canon, head, reorg))
    ensures Notified(c, x, canon, head, reorg).stored <= x.stored
  {
    hide LinkedTo, Closed, ReadCanonicalHash;
    if reorg {
      var sections := (head + 1) / c.size;
      var known := if sections < c.checkpoint then 0 else sections;
      var stored := if sections < c.checkpoint then c.checkpoint else sections;
      var y := if known < x.known then x.(known := known) else x;
      assert Linked(c, u, y) by { KnownIrrelevant(c, u, x, y); }
      if stored < y.stored {
        TruncateKeeps(c, u, y, stored);
      }
    } else {
      KnownIrrelevant(c, u, x, Notified(c, x, canon, head, reorg));
    }
  }

  lemma KnownIrrelevant(c: Config, u: Store, x: Index, y: Index)
    requires c.size > 0 && Closed(u) && Linked(c, u, x) && y.stored == x.stored && y.heads == x.heads
    ensures Linked(c, u, y)
  {
    hide LinkedTo, Closed, SectionHead;
    forall n: nat | c.checkpoint <= n < y.stored
      ensures n in y.heads && LinkedTo(c, u, n, y.heads[n], SectionHead(y, n - 1))
    {
      SameHead(x, y, n - 1);
      assert LinkedTo(c, u, n, x.heads[n], SectionHead(x, n - 1));
    }
  }

  lemma VerifyRoundKeeps(c: Config, u: Store, x: Index, canon: CanonIndex)
    requires c.size > 0 && Closed(u) && Linked(c, u, x) && VerifyRound(c, x, canon).Some?
    ensures Linked(c, u, VerifyRound(c, x, canon).value) && VerifyRound(c, x, canon).value.stored == x.stored - 1
  {
    hide LinkedTo, Closed, Linked, SetValid, ReadCanonicalHash;
    TruncateKeeps(c, u, x, x.stored - 1);
  }

  /** The captured head of a non-empty index is a real hash. */
  lemma CapturedHead(c: Config, u: Store, x: Index)
    requires c.size > 0 && Closed(u) && Linked(c, u, x)
    ensures x.stored > 0 ==> SectionHead(x, x.stored - 1) != ZERO_HASH
  {
    hide LinkedTo, Closed;
  }

  /** Reading one more header extends the chain from the captured head. */
  lemma ReadExtends(c: Config, u: Store, canon: CanonIndex, section: nat, oldHead: Hash, number: nat, last: Hash)
    requires c.size > 0 && Closed(u) && FirstOf(c, section) <= number < FirstOf(c, section + 1)
    requires section > 0 ==> oldHead != ZERO_HASH
    requires if number == FirstOf(c, section) then last == oldHead else ChainSoFar(c, u, section, oldHead, number, last)
    requires ReadNext(u, canon, number, last).Some?
    ensures ChainSoFar(c, u, section, oldHead, number + 1, ReadNext(u, canon, number, last).value)
  {
    hide Walk, AncestorAt, FirstOf;
    var b := u[ReadNext(u, canon, number, last).value];
    if section > 0 {
      NextSection(c, section - 1);
      AncestorSelf(u, b);
      AncestorIsParent(u, b, number);
      var p := AncestorAt(u, b, number - 1);
      AncestorOfAncestor(u, b, number - 1, LastOf(c, section - 1));
      AncestorSelf(u, p);
    }
  }

  /** A full section is linked to the captured head. */
  lemma SectionComplete(c: Config, u: Store, section: nat, oldHead: Hash, last: Hash)
    requires c.size > 0 && Closed(u) && ChainSoFar(c, u, section, oldHead, FirstOf(c, section + 1), last)
    ensures LinkedTo(c, u, section, last, oldHead)
  {
    hide NamesAncestor, FirstOf, Closed;
    NextSection(c, section);
  }

  /** Storing a section whose predecessor is still the captured one keeps the links. */
  lemma FinishKeeps(c: Config, u: Store, x: Index, section: nat, oldHead: Hash, hash: Hash)
    requires c.size > 0 && Closed(u) && Linked(c, u, x)
    requires x.stored <= section && (section > 0 ==> oldHead != ZERO_HASH) && LinkedTo(c, u, section, hash, oldHead)
    requires section == 0 || oldHead == SectionHead(x, section - 1)
    ensures x.stored == section
    ensures Linked(c, u, SetValid(x.(heads := x.heads[section := hash]), section + 1))
  {
    hide LinkedTo, Closed, SetValid, Linked;
    StillAtSection(c, u, x, section);
    RaiseCount(x.(heads := x.heads[section := hash]), section + 1);
    LinkedHash(c, u, section, hash, oldHead, SectionHead(x, section - 1));
    AppendSection(c, u, x, section, hash);
  }

  /** A head below `section` is present only if no section was dropped meanwhile. */
  lemma StillAtSection(c: Config, u: Store, x: Index, section: nat)
    requires c.size > 0 && Closed(u) && Linked(c, u, x) && x.stored <= section
    requires section == 0 || SectionHead(x, section - 1) != ZERO_HASH
    ensures x.stored == section
  {
    hide LinkedTo, Closed;
  }

  lemma AppendSection(c: Config, u: Store, x: Index, section: nat, hash: Hash)
    requires c.size > 0 && Closed(u) && Linked(c, u, x) && x.stored == section && hash != ZERO_HASH
    requires LinkedTo(c, u, section, hash, SectionHead(x, section - 1))
    ensures Linked(c, u, x.(heads := x.heads[section := hash], stored := section + 1))
  {
    hide LinkedTo, Closed, SectionHead;
    var y := x.(heads := x.heads[section := hash], stored := section + 1);
    forall n: nat | c.checkpoint <= n < y.stored
      ensures n in y.heads && LinkedTo(c, u, n, y.heads[n], SectionHead(y, n - 1))
    {
      SameHead(x, y, n - 1);
      if n < section {
        assert n in x.heads && LinkedTo(c, u, n, x.heads[n], SectionHead(x, n - 1));
      }
    }
  }

  lemma SameHead(x: Index, y: Index, n: int)
    requires n >= 0 ==> (n in x.heads <==> n in y.heads) && (n in x.heads ==> x.heads[n] == y.heads[n])
    ensures SectionHead(x, n) == SectionHead(y, n)
  {
  }

  lemma RaiseCount(x: Index, k: nat)
    requires x.stored <= k
    ensures SetValid(x, k) == x.(stored := k)
  {
    assert SetValid(x, k).heads == x.heads;
  }

  lemma LinkedHash(c: Config, u: Store, n: nat, hash: Hash, a: Hash, b: Hash)
    requires c.size > 0 && Closed(u) && LinkedTo(c, u, n, hash, a)
    ensures hash != ZERO_HASH
    ensures n == 0 || a == b ==> LinkedTo(c, u, n, hash, b)
  {
    hide NamesAncestor, LastOf;
  }

  /** Steps of a section in flight, which hold no lock. */
  lemma ProcessKeeps(c: Config, u: Store, st: State, step: Step, st': State)
    requires c.size > 0 && Closed(u) && Inv(c, u, st) && Next(c, u, st, step, st')
    requires step.ResetFails? || step.Read? || step.Commit? || step.Finish?
    ensures Inv(c, u, st')
  {
    hide Linked, LinkedTo, Closed, ChainSoFar, SetValid, Notified, VerifyRound, ReadNext;
    match step
    case ResetFails =>
      TruncateKeeps(c, u, st.x, 0);
    case Read(rowMissing, backendFails) =>
      if ReadNext(u, st.canon, st.upd.number, st.upd.last).Some? {
        ReadExtends(c, u, st.canon, st.upd.section, st.upd.oldHead, st.upd.number, st.upd.last);
      }
    case Commit(_) =>
      NextSection(c, st.upd.section);
      SectionComplete(c, u, st.upd.section, st.upd.oldHead, st.upd.last);
    case Finish =>
      if st.upd.result.Some? && (st.upd.section == 0 || st.upd.oldHead == SectionHead(st.x, st.upd.section - 1)) {
        FinishKeeps(c, u, st.x, st.upd.section, st.upd.oldHead, st.upd.result.value);
      }
  }

  /** The invariant survives every step, whatever the chain does in between. */
  lemma NextKeeps(c: Config, u: Store, st: State, step: Step, st': State)
    requires c.size > 0 && Closed(u) && Inv(c, u, st) && Next(c, u, st, step, st')
    ensures Inv(c, u, st')
  {
    hide Linked, LinkedTo, Closed, ChainSoFar, SetValid, Notified, VerifyRound, ReadNext;
    if step.ResetFails? || step.Read? || step.Commit? || step.Finish? {
      ProcessKeeps(c, u, st, step, st');
    } else if step.Notify? {
      NotifiedKeeps(c, u, st.x, st.canon, step.head, step.reorg);
    } else if step.Verify? || step.Recover? || step.QueryVerify? {
      CapturedHead(c, u, st.x);
      if VerifyRound(c, st.x, st.canon).Some? {
        VerifyRoundKeeps(c, u, st.x, st.canon);
      } else {
        KnownIrrelevant(c, u, st.x, st.x.(known := st.x.stored));
      }
    }
  }

  /** A run: consecutive states related by steps. */
  ghost predicate IsRun(c: Config, u: Store, states: seq<State>, steps: seq<Step>)
    requires c.size > 0
  {
    && |states| == |steps| + 1
    && forall i :: 0 <= i < |steps| ==> Next(c, u, states[i], steps[i], states[i + 1])
  }

  lemma {:induction false} RunKeeps(c: Config, u: Store, states: seq<State>, steps: seq<Step>, i: nat)
    requires c.size > 0 && Closed(u) && IsRun(c, u, states, steps) && Inv(c, u, states[0]) && i < |states|
    ensures Inv(c, u, states[i])
    decreases i
  {
    hide Inv, Next;
    if i == 0 {
    } else {
      RunKeeps(c, u, states, steps, i - 1);
      NextKeeps(c, u, states[i - 1], steps[i - 1], states[i]);
    }
  }

  /** Adding a checkpoint before the start: the stored count jumps to it. */
  function Checkpointed(x: Index, section: nat, head: Hash): Index {
    SetValid(x.(heads := x.heads[section := head]), section + 1)
  }

  /** An index with linked sections, with or without a checkpoint on top, is a state
      a run may start from. */
  lemma CheckpointStarts(c: Config, u: Store, x: Index, section: nat, head: Hash, canon: CanonIndex)
    requires c.size > 0 && Closed(u) && Linked(c, u, x) && c.checkpoint < section + 1 && section >= x.stored
    requires head != ZERO_HASH
    ensures Inv(c.(checkpoint := section + 1, checkpointHead := head), u,
                State(canon, Checkpointed(x, section, head), Idle, Quiet))
  {
    hide LinkedTo, Closed, SetValid, SectionHead;
    RaiseCount(x.(heads := x.heads[section := head]), section + 1);
  }

  // ---------------------------------------------------------- what it is for

  /** Going down the links from a canonical section head stays canonical. */
  lemma {:induction false} LinksAreCanonical(c: Config, u: Store, x: Index, canon: CanonIndex, head: Header, n: nat, m: nat)
    requires c.size > 0 && Closed(u) && Linked(c, u, x)
    requires Stored(u, head) && IsPath(u, canon, head)
    requires c.checkpoint <= m < x.stored && n <= m && n + 1 >= c.checkpoint
    requires SectionHead(x, m) == ReadCanonicalHash(canon, LastOf(c, m))
    ensures SectionHead(x, n) == ReadCanonicalHash(canon, LastOf(c, n))
    decreases m
  {
    hide Linked, IsPath, Closed, LastOf;
    if n < m {
      PreviousIsCanonical(c, u, x, canon, head, m);
      if m > c.checkpoint {
        LinksAreCanonical(c, u, x, canon, head, n, m - 1);
      }
    }
  }

  lemma PreviousIsCanonical(c: Config, u: Store, x: Index, canon: CanonIndex, head: Header, m: nat)
    requires c.size > 0 && Closed(u) && Linked(c, u, x) && Stored(u, head) && IsPath(u, canon, head)
    requires c.checkpoint <= m < x.stored && m > 0
    requires SectionHead(x, m) == ReadCanonicalHash(canon, LastOf(c, m))
    ensures SectionHead(x, m - 1) == ReadCanonicalHash(canon, LastOf(c, m - 1))
  {
    hide Walk, AncestorAt, IsPath, FirstOf;
    assert m in x.heads && LinkedTo(c, u, m, x.heads[m], SectionHead(x, m - 1));
    var b := u[x.heads[m]];
    NextSection(c, m - 1);
    CanonicalAncestor(u, canon, head, b);
  }

  /** The main result. In any run, when a verification loop ends after checking one
      hash, in a state where the chain's table is the path of some head, every
      stored section head from the checkpoint's own on is canonical. */
  lemma VerifiedSectionsAreCanonical(c: Config, u: Store, states: seq<State>, steps: seq<Step>, i: nat, head: Header, n: nat)
    requires c.size > 0 && Closed(u) && IsRun(c, u, states, steps) && Inv(c, u, states[0]) && i < |steps|
    requires steps[i].Verify? || steps[i].Recover? || steps[i].QueryVerify?
    requires VerifyRound(c, states[i].x, states[i].canon).None?
    requires Stored(u, head) && IsPath(u, states[i].canon, head)
    requires n < states[i].x.stored && c.checkpoint < states[i].x.stored && n + 1 >= c.checkpoint
    ensures n in states[i].x.heads
    ensures states[i].x.heads[n] == ReadCanonicalHash(states[i].canon, LastOf(c, n))
    ensures states[i + 1].x.heads == states[i].x.heads && states[i + 1].x.stored == states[i].x.stored
    ensures states[i + 1].canon == states[i].canon
  {
    hide IsPath, Closed, LinkedTo, InFlight;
    RunKeeps(c, u, states, steps, i);
    var x := states[i].x;
    LinksAreCanonical(c, u, x, states[i].canon, head, n, x.stored - 1);
  }

  // ------------------------------------------------- the bodies, step by step

  // ---------------------------------------------------------- an undisturbed update

  /** A step of the update loop that does not fail. */
  predicate Proceeds(step: Step) {
    step == Read(false, false) || step == Commit(false) || step == Finish
  }

  /** The update of the section after those of `x` has read the canonical headers below
      its position. */
  ghost predicate OnTrack(c: Config, canon: CanonIndex, x: Index, st: State)
    requires c.size > 0
  {
    && st.canon == canon && st.x == x
    && match st.upd
       case Processing(section, oldHead, number, last) =>
         && section == x.stored && oldHead == SectionHead(x, section - 1)
         && FirstOf(c, section) <= number <= FirstOf(c, section + 1)
         && last == if number == FirstOf(c, section) then oldHead else ReadCanonicalHash(canon, number - 1)
       case Finishing(section, oldHead, result) =>
         && section == x.stored && oldHead == SectionHead(x, section - 1)
         && result == Some(ReadCanonicalHash(canon, LastOf(c, section)))
       case _ => false
  }

  /** The next canonical header can be read and continues from the one before. */
  lemma ReadsCanonical(u: Store, genesis: Hash, canon: CanonIndex, head: Header, number: nat, last: Hash)
    requires Closed(u) && Rooted(u, genesis) && Stored(u, head) && IsPath(u, canon, head) && number <= head.number
    requires last == if number == 0 then ZERO_HASH else ReadCanonicalHash(canon, number - 1)
    ensures ReadNext(u, canon, number, last) == Some(ReadCanonicalHash(canon, number))
  {
    hide Walk, AncestorAt;
    var b := AncestorAt(u, head, number);
    if number > 0 {
      AncestorIsParent(u, head, number);
    }
  }

  lemma StaysOnTrack(c: Config, u: Store, genesis: Hash, canon: CanonIndex, head: Header, x: Index,
                     st: State, step: Step, st': State)
    requires c.size > 0 && Closed(u) && Rooted(u, genesis) && Stored(u, head) && IsPath(u, canon, head)
    requires LastOf(c, x.stored) <= head.number
    requires SectionHead(x, x.stored - 1) == if x.stored == 0 then ZERO_HASH else ReadCanonicalHash(canon, LastOf(c, x.stored - 1))
    requires OnTrack(c, canon, x, st) && Proceeds(step) && Next(c, u, st, step, st')
    ensures step != Finish ==> OnTrack(c, canon, x, st')
    ensures step == Finish ==>
              && st'.x.stored == x.stored + 1 && x.stored in st'.x.heads
              && st'.x.heads[x.stored] == ReadCanonicalHash(canon, LastOf(c, x.stored))
  {
    hide FirstOf, Closed, Rooted, IsPath, ReadNext;
    NextSection(c, x.stored);
    FirstIsZero(c);
    if x.stored > 0 {
      NextSection(c, x.stored - 1);
    }
    if step.Read? {
      ReadsCanonical(u, genesis, canon, head, st.upd.number, st.upd.last);
    }
  }

  lemma FirstIsZero(c: Config)
    ensures FirstOf(c, 0) == 0
  {
  }

  /** An update that starts on a verified index and is neither disturbed nor failing ends
      with one more section, under the canonical hash of its last block. */
  lemma {:induction false} UndisturbedUpdate(c: Config, u: Store, genesis: Hash, head: Header,
                                             states: seq<State>, steps: seq<Step>, i: nat, j: nat)
    requires c.size > 0 && Closed(u) && Rooted(u, genesis) && IsRun(c, u, states, steps) && i < j < |steps|
    requires steps[i] == Verify && VerifyRound(c, states[i].x, states[i].canon).None?
    requires forall m :: i < m <= j ==> Proceeds(steps[m]) && (steps[m] == Finish <==> m == j)
    requires Stored(u, head) && IsPath(u, states[i].canon, head) && LastOf(c, states[i].x.stored) <= head.number
    requires var x := states[i].x;
      SectionHead(x, x.stored - 1) == if x.stored == 0 then ZERO_HASH else ReadCanonicalHash(states[i].canon, LastOf(c, x.stored - 1))
    ensures var x, y := states[i].x, states[j + 1].x;
      && y.stored == x.stored + 1 && x.stored in y.heads
      && y.heads[x.stored] == ReadCanonicalHash(states[i].canon, LastOf(c, x.stored))
  {
    hide Closed, Rooted, IsPath, OnTrack, VerifyRound;
    var x, canon := states[i].x, states[i].canon;
    StartsOnTrack(c, u, states[i], states[i + 1]);
    var m := i + 1;
    while m < j
      invariant i < m <= j && OnTrack(c, canon, x, states[m])
    {
      StaysOnTrack(c, u, genesis, canon, head, x, states[m], steps[m], states[m + 1]);
      m := m + 1;
    }
    StaysOnTrack(c, u, genesis, canon, head, x, states[j], steps[j], states[j + 1]);
  }

  lemma StartsOnTrack(c: Config, u: Store, st: State, st': State)
    requires c.size > 0 && Next(c, u, st, Verify, st') && VerifyRound(c, st.x, st.canon).None?
    ensures OnTrack(c, st.canon, st.x, st')
  {
    hide FirstOf;
    NextSection(c, st.x.stored);
  }

  /** The whole verification loop when its i-th database read sees `env(i)`. */
  function VerifyAll(c: Config, x: Index, env: nat -> CanonIndex, i: nat): Index
    requires c.size > 0
    decreases x.stored
  {
    match VerifyRound(c, x, env(i))
    case None => x
    case Some(y) => VerifyAll(c, y, env, i + 1)
  }

  /** However the chain moves between its reads, the loop keeps the links and ends
      on a read that agrees with the last stored head, or at the checkpoint. */
  lemma {:induction false} VerifyAllEnds(c: Config, u: Store, x: Index, env: nat -> CanonIndex, i: nat) returns (j: nat)
    requires c.size > 0 && Closed(u) && Linked(c, u, x)
    ensures i <= j && Linked(c, u, VerifyAll(c, x, env, i)) && VerifyRound(c, VerifyAll(c, x, env, i), env(j)).None?
    decreases x.stored
  {
    hide Linked, VerifyRound;
    if VerifyRound(c, x, env(i)).Some? {
      VerifyRoundKeeps(c, u, x, env(i));
      j := VerifyAllEnds(c, u, VerifyRound(c, x, env(i)).value, env, i + 1);
    } else {
      j := i;
    }
  }

  /** Section `n` was not canonical when the verification, going down, came to it. */
  ghost predicate Stale(c: Config, x: Index, env: nat -> CanonIndex, n: nat)
    requires c.size > 0
  {
    && c.checkpoint <= n < x.stored
    && SectionHead(x, n) != ReadCanonicalHash(env(x.stored - 1 - n), LastOf(c, n))
  }

  lemma StaleHere(c: Config, x: Index, y: Index, env: nat -> CanonIndex, i: nat)
    requires c.size > 0 && i <= x.stored && c.checkpoint < y.stored == x.stored - i
    requires SectionHead(y, y.stored - 1) == SectionHead(x, y.stored - 1)
    ensures Stale(c, x, env, y.stored - 1) <==>
              SectionHead(y, y.stored - 1) != ReadCanonicalHash(env(i), LastOf(c, y.stored - 1))
  {
  }

  lemma VerifyAllStep(c: Config, x: Index, env: nat -> CanonIndex, i: nat)
    requires c.size > 0
    ensures VerifyAll(c, x, env, i) ==
      if x.stored > c.checkpoint && SectionHead(x, x.stored - 1) != ReadCanonicalHash(env(i), LastOf(c, x.stored - 1))
      then VerifyAll(c, SetValid(x, x.stored - 1), env, i + 1) else x
  {
  }

  /** The chain does not change while a section is read, has all of it on top of
      `lastHead`, and the backend takes every header. */
  ghost predicate Calm(c: Config, u: Store, genesis: Hash, canon: CanonIndex, head: Header, section: nat, lastHead: Hash,
                       env: nat -> CanonIndex, readFails: nat -> bool)
    requires c.size > 0
  {
    && Closed(u) && Rooted(u, genesis) && Stored(u, head) && IsPath(u, canon, head) && LastOf(c, section) <= head.number
    && lastHead == (if section == 0 then ZERO_HASH else ReadCanonicalHash(canon, LastOf(c, section - 1)))
    && forall n: nat :: env(n) == canon && !readFails(n)
  }

  lemma CalmRead(c: Config, u: Store, genesis: Hash, canon: CanonIndex, head: Header, section: nat, lastHead: Hash,
                 env: nat -> CanonIndex, readFails: nat -> bool, number: nat, last: Hash)
    requires c.size > 0 && Calm(c, u, genesis, canon, head, section, lastHead, env, readFails)
    requires FirstOf(c, section) <= number < FirstOf(c, section + 1)
    requires last == if number == FirstOf(c, section) then lastHead else ReadCanonicalHash(canon, number - 1)
    ensures ReadNext(u, env(number), number, last) == Some(ReadCanonicalHash(canon, number)) && !readFails(number)
  {
    hide FirstOf, Closed, Rooted, IsPath, ReadNext;
    NextSection(c, section);
    FirstIsZero(c);
    if section > 0 {
      NextSection(c, section - 1);
    }
    ReadsCanonical(u, genesis, canon, head, number, last);
  }

  lemma LowerHeads(x: Index, sections: nat)
    ensures SetValid(x, sections).stored == sections
    ensures forall n :: 0 <= n < sections ==> SectionHead(SetValid(x, sections), n) == SectionHead(x, n)
  {
  }

  class ChainIndexer {
    const c: Config
    var storedSections: nat
    var knownSections: nat
    var heads: map<nat, Hash>
    var count: nat

    function Idx(): Index
      reads this
    {
      Index(storedSections, knownSections, heads)
    }

    constructor (c: Config, loaded: nat, table: map<nat, Hash>)
      ensures this.c == c && Idx() == Index(loaded, 0, table) && count == loaded
    {
      this.c := c;
      storedSections, knownSections, heads, count := loaded, 0, table, loaded;
    }

    method SetValidSections(sections: nat)
      modifies `storedSections, `heads, `count
      ensures Idx() == SetValid(old(Idx()), sections) && count == sections
    {
      count := sections;
      while storedSections > sections
        invariant storedSections <= old(storedSections)
        invariant old(storedSections) > sections ==> storedSections >= sections
        invariant old(storedSections) <= sections ==> storedSections == old(storedSections)
        invariant heads == map n | n in old(heads) && !(storedSections <= n < old(storedSections)) :: old(heads)[n]
        invariant count == sections && knownSections == old(knownSections)
        decreases storedSections
      {
        storedSections := storedSections - 1;
        heads := heads - {storedSections};
      }
      storedSections := sections;
    }

    /** Drop sections from the end, each found stale, until one is canonical or the
        checkpoint is reached. */
    method VerifyLastHead(env: nat -> CanonIndex)
      requires c.size > 0
      modifies `storedSections, `heads, `count
      ensures Idx() == VerifyAll(c, old(Idx()), env, 0)
      ensures storedSections <= old(storedSections)
      ensures forall n :: storedSections <= n < old(storedSections) ==> Stale(c, old(Idx()), env, n)
      ensures storedSections > c.checkpoint ==> !Stale(c, old(Idx()), env, storedSections - 1)
    {
      hide SetValid, VerifyAll, LastOf, SectionHead, Stale;
      var i: nat := 0;
      while storedSections > 0 && storedSections > c.checkpoint
        invariant storedSections == old(storedSections) - i
        invariant forall n :: 0 <= n < storedSections ==> SectionHead(Idx(), n) == SectionHead(old(Idx()), n)
        invariant forall n :: storedSections <= n < old(storedSections) ==> Stale(c, old(Idx()), env, n)
        invariant VerifyAll(c, Idx(), env, i) == VerifyAll(c, old(Idx()), env, 0)
        decreases storedSections
      {
        ghost var x := Idx();
        var hash := SectionHead(Idx(), storedSections - 1);
        VerifyAllStep(c, x, env, i);
        StaleHere(c, old(Idx()), x, env, i);
        if hash == ReadCanonicalHash(env(i), LastOf(c, storedSections - 1)) {
          return;
        }
        SetValidSections(storedSections - 1);
        LowerHeads(x, x.stored - 1);
        i := i + 1;
      }
      VerifyAllStep(c, Idx(), env, i);
    }

    /** A head or reorg notification. `k` sections end at or below `head`, with the
        confirmations a plain head needs. */
    method NewHead(head: nat, reorg: bool, canon: CanonIndex) returns (ghost k: nat)
      requires c.size > 0
      modifies `storedSections, `knownSections, `heads, `count
      ensures Idx() == Notified(c, old(Idx()), canon, head, reorg)
      ensures forall n: nat :: n < k <==> LastOf(c, n) + (if reorg then 0 else c.confirms) <= head
      ensures reorg ==> storedSections == Min(old(storedSections), Max(c.checkpoint, k))
      ensures reorg ==> knownSections == Min(old(knownSections), if k < c.checkpoint then 0 else k)
      ensures reorg ==> forall n :: c.checkpoint <= n < old(storedSections) && LastOf(c, n) > head ==> n !in heads
      ensures reorg ==> forall n: nat :: n < storedSections && n in old(heads) ==> n in heads && heads[n] == old(heads)[n]
      ensures !reorg ==> storedSections == old(storedSections) && heads == old(heads)
      ensures !reorg ==>
                var mismatch := old(knownSections) < c.checkpoint
                                && ReadCanonicalHash(canon, LastOf(c, c.checkpoint - 1)) != c.checkpointHead;
                knownSections == if k <= old(knownSections) || k < c.checkpoint || mismatch then old(knownSections) else k
    {
      hide SetValid, LastOf;
      k := NotifiedIs(c, Idx(), canon, head, reorg);
      if reorg {
        var known := (head + 1) / c.size;
        var stored := known;
        if known < c.checkpoint {
          known := 0;
        }
        if stored < c.checkpoint {
          stored := c.checkpoint;
        }
        if known < knownSections {
          knownSections := known;
        }
        if stored < storedSections {
          SetValidSections(stored);
        }
        return;
      }
      if head >= c.confirms {
        var sections := (head + 1 - c.confirms) / c.size;
        if sections < c.checkpoint {
          sections := 0;
        }
        if sections > knownSections {
          if knownSections < c.checkpoint && ReadCanonicalHash(canon, LastOf(c, c.checkpoint - 1)) != c.checkpointHead {
            return;
          }
          knownSections := sections;
        }
      }
    }

    /** Read a section header by header while the chain may change before every read.
        Success means an unbroken chain of blocks from `lastHead`. */
    method ProcessSection(u: Store, section: nat, lastHead: Hash, env: nat -> CanonIndex, resetFails: bool,
                          readFails: nat -> bool, commitFails: bool, ghost genesis: Hash, ghost canon: CanonIndex, ghost head: Header)
      returns (r: Option<Hash>)
      requires c.size > 0 && Closed(u) && (section > 0 ==> lastHead != ZERO_HASH)
      modifies `storedSections, `heads, `count
      ensures Idx() == if resetFails then SetValid(old(Idx()), 0) else old(Idx())
      ensures r.Some? ==> LinkedTo(c, u, section, r.value, lastHead)
      ensures resetFails || commitFails ==> r.None?
      ensures Calm(c, u, genesis, canon, head, section, lastHead, env, readFails) && !resetFails && !commitFails ==>
                r == Some(ReadCanonicalHash(canon, LastOf(c, section)))
    {
      hide FirstOf, Closed, ChainSoFar, LinkedTo, ReadNext, SetValid, Calm, ReadCanonicalHash;
      ghost var calm := Calm(c, u, genesis, canon, head, section, lastHead, env, readFails);
      if resetFails {
        SetValidSections(0);
        return None;
      }
      NextSection(c, section);
      var last, number := lastHead, FirstOf(c, section);
      while number < FirstOf(c, section + 1)
        invariant FirstOf(c, section) <= number <= FirstOf(c, section + 1) && Idx() == old(Idx())
        invariant if number == FirstOf(c, section) then last == lastHead else ChainSoFar(c, u, section, lastHead, number, last)
        invariant calm && number > FirstOf(c, section) ==> last == ReadCanonicalHash(canon, number - 1)
      {
        if calm {
          CalmRead(c, u, genesis, canon, head, section, lastHead, env, readFails, number, last);
        }
        var next := ReadNext(u, env(number), number, last);
        if next.None? || readFails(number) {
          return None;
        }
        ReadExtends(c, u, env(number), section, lastHead, number, last);
        number, last := number + 1, next.value;
      }
      if commitFails {
        return None;
      }
      SectionComplete(c, u, section, lastHead, last);
      return Some(last);
    }
  }
}
