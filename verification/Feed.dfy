/** One-to-many delivery with subscriptions that come and go while a send runs.

    The case list holds one entry per subscription behind the removal case in slot
    0. A send works on a prefix of the list and moves entries that received to the
    end of it; removals arrive while it waits. The list operations work in place on
    one array; the protocol is a state machine over its steps.
 */
module Feed {
  import opened Wrappers

  type Chan = nat
  type Value = int

  /** The channel of the removal case, which no subscriber can own. */
  const REMOVE_SUB: Chan := 0

  /** A select case: the entry's identity, its channel and the value being sent. */
  datatype Case = Case(id: nat, ch: Chan, send: Option<Value>)

  // ------------------------------------------------------- list operations

  function Find(cs: seq<Case>, ch: Chan): (r: int)
    ensures -1 <= r < |cs|
    ensures r >= 0 ==> cs[r].ch == ch && forall i :: 0 <= i < r ==> cs[i].ch != ch
    ensures r < 0 ==> forall i :: 0 <= i < |cs| ==> cs[i].ch != ch
  {
    if cs == [] then -1
    else
      var r := Find(cs[..|cs| - 1], ch);
      if r >= 0 then r else if cs[|cs| - 1].ch == ch then |cs| - 1 else -1
  }

  function DeleteAt(cs: seq<Case>, i: nat): seq<Case>
    requires i < |cs|
  {
    cs[..i] + cs[i + 1..]
  }

  /** Swap the entry with the last of the first `k`. */
  function Deactivate(cs: seq<Case>, k: nat, i: nat): seq<Case>
    requires i < k <= |cs|
  {
    cs[i := cs[k - 1]][k - 1 := cs[i]]
  }

  function WithValue(cs: seq<Case>, v: Option<Value>): seq<Case> {
    seq(|cs|, i requires 0 <= i < |cs| => if i == 0 then cs[i] else cs[i].(send := v))
  }

  /** The slice behind a list of cases: the first `len` slots of a shared array. */
  class CaseList {
    var slots: array<Case>
    var len: nat

    ghost predicate Valid()
      reads this
    {
      len <= slots.Length
    }

    ghost function Cases(): seq<Case>
      requires Valid()
      reads this, slots
    {
      slots[..len]
    }

    constructor (cs: seq<Case>)
      ensures Valid() && Cases() == cs && fresh(slots)
    {
      slots := new Case[|cs|](i requires 0 <= i < |cs| => cs[i]);
      len := |cs|;
    }

    method FindCase(ch: Chan) returns (index: int)
      requires Valid()
      ensures index == Find(Cases(), ch)
    {
      for i := 0 to len
        invariant forall j :: 0 <= j < i ==> slots[j].ch != ch
      {
        if slots[i].ch == ch {
          return i;
        }
      }
      return -1;
    }

    /** Shift the entries after `index` left, in place. */
    method Delete(index: nat)
      requires Valid() && index < len
      modifies this`len, slots
      ensures Valid() && slots == old(slots)
      ensures Cases() == DeleteAt(old(Cases()), index)
    {
      var i := index;
      while i + 1 < len
        invariant index <= i < len == old(len)
        invariant forall j :: 0 <= j < index ==> slots[j] == old(slots[j])
        invariant forall j :: index <= j < i ==> slots[j] == old(slots[j + 1])
        invariant forall j :: i < j < len ==> slots[j] == old(slots[j])
      {
        slots[i] := slots[i + 1];
        i := i + 1;
      }
      len := len - 1;
    }

    /** Move the entry out of the active prefix of length `k`; the caller's prefix of
        length `k - 1` is the same array. */
    method DeactivateCase(k: nat, index: nat)
      requires Valid() && index < k <= len
      modifies slots
      ensures Cases() == Deactivate(old(Cases()), k, index)
    {
      slots[index], slots[k - 1] := slots[k - 1], slots[index];
    }
  }

  // ------------------------------------------------------ the state machine

  /** Where the holder of the send lock is. A send in progress has tried the active
      prefix of length `active` up to `next`, and has delivered to `got`. Of the
      entries it absorbed, `lost` were removed before they received and `gone`
      after. */
  datatype Sender = Free
                  | Entering(value: Value)
                  | Sending(value: Value, active: nat, next: nat, nsent: nat,
                            absorbed: set<nat>, got: seq<(nat, Option<Value>)>, lost: set<nat>, gone: set<nat>)

  /** `live` are the channels of subscriptions not yet cancelled, `pending` those of
      cancellations waiting for a send or for the send lock. Deleting a case that
      was not found panics. */
  datatype State = State(inbox: seq<Case>, cases: seq<Case>, nextId: nat, live: multiset<Chan>, pending: multiset<Chan>,
                         sender: Sender, panicked: bool)

  datatype Step = Subscribe(ch: Chan)
                | Unsubscribe(ch: Chan)
                | RemoveIdle(ch: Chan)
                | Enter(value: Value)
                | Absorb
                | TrySend(accepted: bool)
                | SelectRemove(ch: Chan)
                | SelectSend(index: nat)
                | Finish

  function Init(): State {
    State([], [Case(0, REMOVE_SUB, None)], 1, multiset{}, multiset{}, Free, false)
  }

  function IdSet(cs: seq<Case>): set<nat> {
    set c | c in cs :: c.id
  }

  function Delivered(s: Sender, id: nat, v: Option<Value>, next: nat): Sender
    requires s.Sending? && s.active > 0
  {
    s.(active := s.active - 1, next := next, nsent := s.nsent + 1, got := s.got + [(id, v)])
  }

  /** The state after the case at `index`, which a cancellation of `ch` found, is
      deleted; with what the send in progress, if any, makes of it. */
  function Removed(st: State, ch: Chan, index: int): State
    requires index < |st.cases|
  {
    if index < 0 then st.(panicked := true)
    else
      var s := st.sender;
      st.(cases := DeleteAt(st.cases, index), pending := st.pending - multiset{ch},
          sender := if !s.Sending? then s
                    else if index < s.active && s.active > 0
                    then s.(active := s.active - 1, next := 1, lost := s.lost + {st.cases[index].id})
                    else s.(next := 1, gone := s.gone + {st.cases[index].id}))
  }

  ghost predicate Next(st: State, step: Step, st': State) {
    match step
    case Subscribe(ch) =>
      ch != REMOVE_SUB &&
      st' == st.(inbox := st.inbox + [Case(st.nextId, ch, None)], nextId := st.nextId + 1,
                 live := st.live + multiset{ch})
    case Unsubscribe(ch) =>
      ch in st.live &&
      var index := Find(st.inbox, ch);
      var rest := st.(live := st.live - multiset{ch});
      st' == if index >= 0 then rest.(inbox := DeleteAt(st.inbox, index))
             else rest.(pending := st.pending + multiset{ch})
    case RemoveIdle(ch) =>
      st.sender.Free? && ch in st.pending && st' == Removed(st, ch, Find(st.cases, ch))
    case Enter(value) =>
      st.sender.Free? && st' == st.(sender := Entering(value))
    case Absorb =>
      st.sender.Entering? &&
      var all := WithValue(st.cases + st.inbox, Some(st.sender.value));
      st' == st.(cases := all, inbox := [],
                 sender := Sending(st.sender.value, |all|, 1, 0, IdSet(all) - {0}, [], {}, {}))
    case TrySend(accepted) =>
      st.sender.Sending? && st.sender.next < st.sender.active <= |st.cases| &&
      var s := st.sender;
      st' == if accepted
             then st.(cases := Deactivate(st.cases, s.active, s.next), sender := Delivered(s, st.cases[s.next].id, Some(s.value), s.next))
             else st.(sender := s.(next := s.next + 1))
    case SelectRemove(ch) =>
      st.sender.Sending? && st.sender.next >= st.sender.active > 1 && ch in st.pending &&
      st' == Removed(st, ch, Find(st.cases, ch))
    case SelectSend(index) =>
      st.sender.Sending? && st.sender.next >= st.sender.active && 0 < index < st.sender.active <= |st.cases| &&
      var s := st.sender;
      st' == st.(cases := Deactivate(st.cases, s.active, index),
                 sender := Delivered(s, st.cases[index].id, st.cases[index].send, 1))
    case Finish =>
      st.sender.Sending? && st.sender.next >= st.sender.active && st.sender.active == 1 &&
      st' == st.(cases := WithValue(st.cases, None), sender := Free)
  }

  // ---------------------------------------------------------- the invariant

  function ChansOf(cs: seq<Case>): seq<Chan> {
    seq(|cs|, i requires 0 <= i < |cs| => cs[i].ch)
  }

  function Bag(cs: seq<Case>): multiset<Chan> {
    multiset(ChansOf(cs))
  }

  function GotIds(got: seq<(nat, Option<Value>)>): set<nat> {
    set g | g in got :: g.0
  }

  /** Slot 0 is the removal case and the only one with its channel. */
  ghost predicate Shape(st: State) {
    && |st.cases| >= 1 && st.cases[0] == Case(0, REMOVE_SUB, None)
    && (forall i :: 1 <= i < |st.cases| ==> st.cases[i].ch != REMOVE_SUB && 0 < st.cases[i].id < st.nextId)
    && (forall i :: 0 <= i < |st.inbox| ==>
          st.inbox[i].ch != REMOVE_SUB && 0 < st.inbox[i].id < st.nextId && st.inbox[i].send == None)
    && st.nextId > 0 && REMOVE_SUB !in st.live && REMOVE_SUB !in st.pending
  }

  ghost predicate Distinct(cs: seq<Case>) {
    forall i, j :: 0 <= i < j < |cs| ==> cs[i].id != cs[j].id
  }

  /** Every subscription not yet fully cancelled has its entry, and every waiting
      cancellation has one in the case list. */
  ghost predicate Accounted(st: State) {
    && st.live + st.pending + multiset{REMOVE_SUB} == Bag(st.cases) + Bag(st.inbox)
    && st.pending <= Bag(st.cases)
  }

  /** All cases carry the value being sent, or none outside of a send. */
  ghost predicate Loaded(st: State) {
    forall i :: 1 <= i < |st.cases| ==>
      st.cases[i].send == if st.sender.Sending? then Some(st.sender.value) else None
  }

  /** The prefix is what is left to do, the rest of the list has received. */
  ghost predicate Progress(cs: seq<Case>, s: Sender)
    requires s.Sending?
  {
    && 1 <= s.active <= |cs| && 1 <= s.next <= s.active
    && s.absorbed == IdSet(cs[1..s.active]) + GotIds(s.got) + s.lost
    && IdSet(cs[1..s.active]) !! GotIds(s.got) && s.lost !! GotIds(s.got) && s.lost !! IdSet(cs[1..s.active])
    && IdSet(cs[s.active..]) == GotIds(s.got) - s.gone && s.gone <= GotIds(s.got)
    && (forall a, b :: 0 <= a < b < |s.got| ==> s.got[a].0 != s.got[b].0)
    && (forall a :: 0 <= a < |s.got| ==> s.got[a].1 == Some(s.value))
    && s.nsent == |s.got|
  }

  ghost predicate Inv(st: State) {
    && !st.panicked && Shape(st) && Distinct(st.cases + st.inbox) && Accounted(st) && Loaded(st)
    && (st.sender.Sending? ==> Progress(st.cases, st.sender))
  }

  // ------------------------------------------------ what the operations keep

  lemma BagDelete(cs: seq<Case>, i: nat)
    requires i < |cs|
    ensures Bag(DeleteAt(cs, i)) + multiset{cs[i].ch} == Bag(cs)
  {
    var a, b := ChansOf(cs[..i]), ChansOf(cs[i + 1..]);
    assert ChansOf(DeleteAt(cs, i)) == a + b;
    assert ChansOf(cs) == a + ([cs[i].ch] + b);
  }

  lemma BagConcat(a: seq<Case>, b: seq<Case>)
    ensures Bag(a + b) == Bag(a) + Bag(b)
  {
    assert ChansOf(a + b) == ChansOf(a) + ChansOf(b);
  }

  lemma BagDeactivate(cs: seq<Case>, k: nat, i: nat)
    requires i < k <= |cs|
    ensures Bag(Deactivate(cs, k, i)) == Bag(cs)
  {
    var c := ChansOf(cs);
    assert ChansOf(Deactivate(cs, k, i)) == c[i := c[k - 1]][k - 1 := c[i]];
  }

  lemma WithValueKeeps(cs: seq<Case>, v: Option<Value>)
    ensures ChansOf(WithValue(cs, v)) == ChansOf(cs)
    ensures forall i :: 0 <= i < |cs| ==> WithValue(cs, v)[i].id == cs[i].id
  {
  }

  lemma InBag(cs: seq<Case>, ch: Chan)
    ensures ch in Bag(cs) <==> Find(cs, ch) >= 0
  {
    assert forall i :: 0 <= i < |cs| ==> ChansOf(cs)[i] == cs[i].ch;
    if Find(cs, ch) >= 0 {
      assert ChansOf(cs)[Find(cs, ch)] == ch;
    }
  }

  lemma DeactivateIds(cs: seq<Case>, k: nat, i: nat)
    requires 1 <= i < k <= |cs| && Distinct(cs)
    ensures var ds := Deactivate(cs, k, i);
      && IdSet(ds[1..k - 1]) == IdSet(cs[1..k]) - {cs[i].id}
      && IdSet(ds[k - 1..]) == IdSet(cs[k..]) + {cs[i].id}
      && cs[i].id in IdSet(cs[1..k])
  {
    var ds := Deactivate(cs, k, i);
    var x := cs[i].id;
    forall d | d in IdSet(cs[1..k]) - {x}
      ensures d in IdSet(ds[1..k - 1])
    {
      var j :| 1 <= j < k && cs[j].id == d;
      var m := if j == k - 1 then i else j;
      assert ds[1..k - 1][m - 1].id == d;
    }
    forall d | d in IdSet(ds[1..k - 1])
      ensures d in IdSet(cs[1..k]) - {x}
    {
      var j :| 1 <= j < k - 1 && ds[j].id == d;
      var m := if j == i then k - 1 else j;
      assert cs[1..k][m - 1].id == d;
    }
    assert ds[k - 1..] == [cs[i]] + cs[k..];
    assert cs[1..k][i - 1].id == x;
  }

  lemma DistinctAt(cs: seq<Case>, i: nat, j: nat)
    requires Distinct(cs) && i < |cs| && j < |cs| && i != j
    ensures cs[i].id != cs[j].id
  {
  }

  lemma IdSetWithout(cs: seq<Case>, lo: nat, i: nat, hi: nat)
    requires lo <= i < hi <= |cs| && Distinct(cs)
    ensures IdSet(cs[lo..i] + cs[i + 1..hi]) == IdSet(cs[lo..hi]) - {cs[i].id}
    ensures cs[i].id in IdSet(cs[lo..hi])
  {
    hide Distinct;
    var rest := cs[lo..i] + cs[i + 1..hi];
    forall d | d in IdSet(cs[lo..hi]) - {cs[i].id}
      ensures d in IdSet(rest)
    {
      var j :| lo <= j < hi && cs[j].id == d;
      var m := if j < i then j - lo else j - lo - 1;
      assert rest[m].id == d;
    }
    forall d | d in IdSet(rest)
      ensures d in IdSet(cs[lo..hi]) - {cs[i].id}
    {
      var m :| 0 <= m < |rest| && rest[m].id == d;
      var j := if m < i - lo then m + lo else m + lo + 1;
      assert cs[lo..hi][j - lo].id == d;
      DistinctAt(cs, i, j);
    }
    assert cs[lo..hi][i - lo].id == cs[i].id;
  }

  lemma DeleteIds(cs: seq<Case>, k: nat, i: nat)
    requires 1 <= i < |cs| && 1 <= k <= |cs| && Distinct(cs)
    ensures var ds := DeleteAt(cs, i);
      if i < k
      then IdSet(ds[1..k - 1]) == IdSet(cs[1..k]) - {cs[i].id} && ds[k - 1..] == cs[k..] && cs[i].id in IdSet(cs[1..k])
      else ds[1..k] == cs[1..k] && IdSet(ds[k..]) == IdSet(cs[k..]) - {cs[i].id} && cs[i].id in IdSet(cs[k..])
  {
    var ds := DeleteAt(cs, i);
    if i < k {
      IdSetWithout(cs, 1, i, k);
      assert ds[1..k - 1] == cs[1..i] + cs[i + 1..k];
    } else {
      IdSetWithout(cs, k, i, |cs|);
      assert ds[k..] == cs[k..i] + cs[i + 1..|cs|];
      assert cs[k..|cs|] == cs[k..];
    }
  }

  lemma DistinctParts(cs: seq<Case>, more: seq<Case>)
    requires Distinct(cs + more)
    ensures Distinct(cs)
  {
    assert forall i :: 0 <= i < |cs| ==> (cs + more)[i] == cs[i];
  }

  lemma DistinctDelete(cs: seq<Case>, more: seq<Case>, i: nat)
    requires Distinct(cs + more) && i < |cs|
    ensures Distinct(DeleteAt(cs, i) + more)
  {
    var a, b := cs + more, DeleteAt(cs, i) + more;
    assert forall j :: 0 <= j < |b| ==> b[j] == a[if j < i then j else j + 1];
  }

  lemma DistinctDeleteInbox(cs: seq<Case>, more: seq<Case>, i: nat)
    requires Distinct(cs + more) && i < |more|
    ensures Distinct(cs + DeleteAt(more, i))
  {
    var a, b := cs + more, cs + DeleteAt(more, i);
    assert forall j :: 0 <= j < |b| ==> b[j] == a[if j < |cs| + i then j else j + 1];
  }

  lemma DistinctDeactivate(cs: seq<Case>, more: seq<Case>, k: nat, i: nat)
    requires Distinct(cs + more) && i < k <= |cs|
    ensures Distinct(Deactivate(cs, k, i) + more)
  {
    var a, b := cs + more, Deactivate(cs, k, i) + more;
    assert forall j :: 0 <= j < |b| ==> b[j] == a[if j == i then k - 1 else if j == k - 1 then i else j];
  }

  lemma GotAppend(got: seq<(nat, Option<Value>)>, id: nat, v: Option<Value>)
    ensures GotIds(got + [(id, v)]) == GotIds(got) + {id}
  {
    var more := got + [(id, v)];
    forall d | d in GotIds(got) + {id}
      ensures d in GotIds(more)
    {
      if d == id {
        assert more[|got|].0 == d;
      } else {
        var a :| 0 <= a < |got| && got[a].0 == d;
        assert more[a].0 == d;
      }
    }
  }

  // ---------------------------------------------------------------- the steps

  /** A delivery moves one entry from the active prefix to those that received. */
  lemma DeliverProgress(cs: seq<Case>, s: Sender, i: nat, v: Option<Value>, next: nat)
    requires s.Sending? && Progress(cs, s) && Distinct(cs) && 1 <= i < s.active && v == Some(s.value)
    requires 1 <= next <= s.active - 1
    ensures Progress(Deactivate(cs, s.active, i), Delivered(s, cs[i].id, v, next))
  {
    hide IdSet, GotIds, Distinct, Deactivate;
    DeactivateIds(cs, s.active, i);
    GotAppend(s.got, cs[i].id, v);
    var more := s.got + [(cs[i].id, v)];
    assert |Deactivate(cs, s.active, i)| == |cs| by { DeactivateLength(cs, s.active, i); }
    forall a, b | 0 <= a < b < |more|
      ensures more[a].0 != more[b].0
    {
      if b == |s.got| {
        GotMember(s.got, a);
      }
    }
    NotGone(s, cs[i].id);
  }

  lemma DeactivateLength(cs: seq<Case>, k: nat, i: nat)
    requires i < k <= |cs|
    ensures |Deactivate(cs, k, i)| == |cs|
  {
  }

  lemma GotMember(got: seq<(nat, Option<Value>)>, a: nat)
    requires a < |got|
    ensures got[a].0 in GotIds(got)
  {
  }

  lemma NotGone(s: Sender, id: nat)
    requires s.Sending? && s.gone <= GotIds(s.got) && id !in GotIds(s.got)
    ensures id !in s.gone
  {
  }

  /** A removal takes one entry out, from either side. */
  lemma RemoveProgress(cs: seq<Case>, s: Sender, i: nat)
    requires s.Sending? && Progress(cs, s) && Distinct(cs) && 1 <= i < |cs| && s.active > 1
    ensures Progress(DeleteAt(cs, i),
      if i < s.active then s.(active := s.active - 1, next := 1, lost := s.lost + {cs[i].id})
      else s.(next := 1, gone := s.gone + {cs[i].id}))
  {
    hide IdSet, GotIds, Distinct;
    DeleteIds(cs, s.active, i);
  }

  /** A waiting cancellation always finds its case, and never the removal case. */
  lemma FindNeverMisses(st: State, ch: Chan)
    requires Inv(st) && ch in st.pending
    ensures Find(st.cases, ch) >= 1
  {
    hide IdSet, GotIds, Progress, Distinct, Bag, ChansOf;
    InBag(st.cases, ch);
  }

  lemma RemovedKeeps(st: State, ch: Chan)
    requires Inv(st) && ch in st.pending && (st.sender.Sending? ==> st.sender.active > 1)
    ensures Inv(Removed(st, ch, Find(st.cases, ch)))
  {
    hide IdSet, GotIds, Progress, Bag, ChansOf, Distinct, Accounted, Shape, Loaded, DeleteAt;
    FindNeverMisses(st, ch);
    var i := Find(st.cases, ch);
    DistinctParts(st.cases, st.inbox);
    DistinctDelete(st.cases, st.inbox, i);
    RemovedAccounted(st, ch, i);
    RemovedShape(st, ch, i);
    if st.sender.Sending? {
      RemoveProgress(st.cases, st.sender, i);
    }
  }

  lemma RemovedAccounted(st: State, ch: Chan, i: nat)
    requires Accounted(st) && ch in st.pending && i < |st.cases| && st.cases[i].ch == ch
    ensures Accounted(Removed(st, ch, i))
  {
    hide ChansOf;
    BagDelete(st.cases, i);
    var cases := Bag(DeleteAt(st.cases, i));
    assert cases + Bag(st.inbox) + multiset{ch} == Bag(st.cases) + Bag(st.inbox);
    var rest := st.pending - multiset{ch};
    assert st.live + rest + multiset{REMOVE_SUB} + multiset{ch} == st.live + st.pending + multiset{REMOVE_SUB};
    Cancel(st.live + rest + multiset{REMOVE_SUB}, cases + Bag(st.inbox), multiset{ch});
    forall x
      ensures rest[x] <= cases[x]
    {
      assert (cases + multiset{ch})[x] == Bag(st.cases)[x];
    }
  }

  lemma RemovedShape(st: State, ch: Chan, i: nat)
    requires Shape(st) && Loaded(st) && 1 <= i < |st.cases| && (st.sender.Sending? ==> st.sender.active > 1)
    ensures Shape(Removed(st, ch, i)) && Loaded(Removed(st, ch, i))
  {
  }

  lemma UnsubscribeKeeps(st: State, ch: Chan, st': State)
    requires Inv(st) && Next(st, Unsubscribe(ch), st')
    ensures Inv(st')
  {
    hide IdSet, GotIds, Progress, Bag, Distinct, Accounted, Shape;
    UnsubscribeShape(st, ch, st');
    UnsubscribeAccounted(st, ch, st');
    if Find(st.inbox, ch) >= 0 {
      DistinctDeleteInbox(st.cases, st.inbox, Find(st.inbox, ch));
    }
  }

  lemma UnsubscribeAccounted(st: State, ch: Chan, st': State)
    requires Accounted(st) && Next(st, Unsubscribe(ch), st') && ch != REMOVE_SUB
    ensures Accounted(st')
  {
    hide Bag, DeleteAt;
    InBag(st.inbox, ch);
    var i := Find(st.inbox, ch);
    if i >= 0 {
      BagDelete(st.inbox, i);
      Cancelled(st.live, st.pending, Bag(st.cases), Bag(st'.inbox), ch);
    } else {
      PendingFits(st.live, st.pending, Bag(st.cases), Bag(st.inbox), ch);
    }
  }

  lemma UnsubscribeShape(st: State, ch: Chan, st': State)
    requires Shape(st) && Next(st, Unsubscribe(ch), st')
    ensures Shape(st') && ch != REMOVE_SUB
  {
    hide Find;
    var i := Find(st.inbox, ch);
    if i >= 0 {
      assert st'.cases == st.cases && st'.nextId == st.nextId && st'.pending == st.pending;
      forall j | 0 <= j < |st'.inbox|
        ensures st'.inbox[j] == st.inbox[if j < i then j else j + 1]
      {
      }
    } else {
      assert st'.cases == st.cases && st'.nextId == st.nextId && st'.inbox == st.inbox;
    }
    assert REMOVE_SUB !in st'.live;
  }

  /** One entry and one subscription fewer. */
  lemma Cancelled(live: multiset<Chan>, pending: multiset<Chan>, cases: multiset<Chan>, inbox: multiset<Chan>, ch: Chan)
    requires live + pending + multiset{REMOVE_SUB} == cases + (inbox + multiset{ch}) && ch in live
    ensures live - multiset{ch} + pending + multiset{REMOVE_SUB} == cases + inbox
  {
    var a, b := live - multiset{ch} + pending + multiset{REMOVE_SUB}, cases + inbox;
    assert a + multiset{ch} == live + pending + multiset{REMOVE_SUB};
    assert b + multiset{ch} == cases + (inbox + multiset{ch});
    Cancel(a, b, multiset{ch});
  }

  lemma Cancel(a: multiset<Chan>, b: multiset<Chan>, c: multiset<Chan>)
    requires a + c == b + c
    ensures a == b
  {
    forall x
      ensures a[x] == b[x]
    {
      assert (a + c)[x] == (b + c)[x];
    }
  }

  /** A channel that is not in the inbox has all its entries in the case list. */
  lemma PendingFits(live: multiset<Chan>, pending: multiset<Chan>, cases: multiset<Chan>, inbox: multiset<Chan>, ch: Chan)
    requires live + pending + multiset{REMOVE_SUB} == cases + inbox && pending <= cases
    requires ch in live && ch !in inbox && ch != REMOVE_SUB
    ensures pending + multiset{ch} <= cases
    ensures live - multiset{ch} + (pending + multiset{ch}) + multiset{REMOVE_SUB} == cases + inbox
  {
    assert (live + pending + multiset{REMOVE_SUB})[ch] == live[ch] + pending[ch];
    assert (cases + inbox)[ch] == cases[ch];
  }

  lemma SubscribeKeeps(st: State, ch: Chan, st': State)
    requires Inv(st) && Next(st, Subscribe(ch), st')
    ensures Inv(st')
  {
    hide IdSet, GotIds, Progress, Bag, ChansOf;
    var c := Case(st.nextId, ch, None);
    BagConcat(st.inbox, [c]);
    BagOne(c);
    var all := st.cases + st.inbox;
    assert st'.cases + st'.inbox == all + [c];
    assert st'.live + st.pending + multiset{REMOVE_SUB}
        == (st.live + st.pending + multiset{REMOVE_SUB}) + multiset{ch};
    assert Bag(st.cases) + (Bag(st.inbox) + multiset{ch}) == (Bag(st.cases) + Bag(st.inbox)) + multiset{ch};
  }

  lemma BagOne(c: Case)
    ensures Bag([c]) == multiset{c.ch}
  {
    assert ChansOf([c]) == [c.ch];
  }

  lemma AbsorbKeeps(st: State, st': State)
    requires Inv(st) && Next(st, Absorb, st')
    ensures Inv(st')
  {
    hide GotIds, Bag;
    var joined := st.cases + st.inbox;
    var all := WithValue(joined, Some(st.sender.value));
    WithValueKeeps(joined, Some(st.sender.value));
    BagConcat(st.cases, st.inbox);
    SameBag(joined, all);
    NoCases();
    assert all + [] == all;
    AbsorbProgress(all, st'.sender);
  }

  lemma SameBag(a: seq<Case>, b: seq<Case>)
    requires ChansOf(a) == ChansOf(b)
    ensures Bag(a) == Bag(b)
  {
  }

  lemma NoCases()
    ensures Bag([]) == multiset{} && GotIds([]) == {}
  {
    assert ChansOf([]) == [];
  }

  lemma AbsorbProgress(all: seq<Case>, s: Sender)
    requires |all| >= 1 && all[0].id == 0 && forall i :: 1 <= i < |all| ==> all[i].id > 0
    requires s.Sending? && s == Sending(s.value, |all|, 1, 0, IdSet(all) - {0}, [], {}, {})
    ensures Progress(all, s)
  {
    NoCases();
    assert all[|all|..] == [];
    forall d | d in IdSet(all) - {0}
      ensures d in IdSet(all[1..|all|])
    {
      var i :| 0 <= i < |all| && all[i].id == d;
      assert all[1..|all|][i - 1].id == d;
    }
    forall d | d in IdSet(all[1..|all|])
      ensures d in IdSet(all) - {0}
    {
      var i :| 0 <= i < |all[1..|all|]| && all[1..|all|][i].id == d;
      assert all[i + 1].id == d;
    }
  }

  lemma DeliverKeeps(st: State, i: nat, v: Option<Value>, next: nat)
    requires Inv(st) && st.sender.Sending? && 1 <= i < st.sender.active <= |st.cases| && v == Some(st.sender.value)
    requires 1 <= next <= st.sender.active - 1
    ensures Inv(st.(cases := Deactivate(st.cases, st.sender.active, i),
                    sender := Delivered(st.sender, st.cases[i].id, v, next)))
  {
    hide IdSet, GotIds, Progress, Bag, ChansOf;
    BagDeactivate(st.cases, st.sender.active, i);
    DistinctParts(st.cases, st.inbox);
    DistinctDeactivate(st.cases, st.inbox, st.sender.active, i);
    DeliverProgress(st.cases, st.sender, i, v, next);
  }

  lemma FinishKeeps(st: State, st': State)
    requires Inv(st) && Next(st, Finish, st')
    ensures Inv(st')
  {
    hide IdSet, GotIds, Progress, Bag;
    WithValueKeeps(st.cases, None);
    SameBag(st.cases, st'.cases);
    var a, b := st.cases + st.inbox, st'.cases + st.inbox;
    assert forall j :: 0 <= j < |b| ==> b[j].id == a[j].id;
  }

  lemma NextKeeps(st: State, step: Step, st': State)
    requires Inv(st) && Next(st, step, st')
    ensures Inv(st')
  {
    hide IdSet, GotIds, Bag, ChansOf, Distinct, Accounted, Shape, Removed, Deactivate;
    match step
    case Subscribe(ch) => SubscribeKeeps(st, ch, st');
    case Unsubscribe(ch) => UnsubscribeKeeps(st, ch, st');
    case RemoveIdle(ch) => RemovedKeeps(st, ch);
    case Enter(value) => SenderIrrelevant(st, st');
    case Absorb => AbsorbKeeps(st, st');
    case TrySend(accepted) =>
      if accepted {
        DeliverKeeps(st, st.sender.next, Some(st.sender.value), st.sender.next);
      } else {
        SenderIrrelevant(st, st');
      }
    case SelectRemove(ch) => RemovedKeeps(st, ch);
    case SelectSend(index) => DeliverKeeps(st, index, st.cases[index].send, 1);
    case Finish => FinishKeeps(st, st');
  }

  lemma SenderIrrelevant(st: State, st': State)
    requires st' == st.(sender := st'.sender)
    ensures Shape(st) <==> Shape(st')
    ensures Accounted(st) <==> Accounted(st')
  {
    hide Bag;
  }

  // ----------------------------------------------------------- whole runs

  ghost predicate IsRun(states: seq<State>, steps: seq<Step>) {
    && |states| == |steps| + 1 && states[0] == Init()
    && forall i :: 0 <= i < |steps| ==> Next(states[i], steps[i], states[i + 1])
  }

  lemma InitHolds()
    ensures Inv(Init())
  {
    BagOne(Case(0, REMOVE_SUB, None));
    NoCases();
  }

  /** Slot 0 stays the removal case, no removal misses, nothing panics. */
  lemma {:induction false} RunKeeps(states: seq<State>, steps: seq<Step>, i: nat)
    requires IsRun(states, steps) && i < |states|
    ensures Inv(states[i])
    decreases i
  {
    hide Inv, Next;
    if i == 0 {
      InitHolds();
    } else {
      RunKeeps(states, steps, i - 1);
      NextKeeps(states[i - 1], steps[i - 1], states[i]);
    }
  }

  /** How often an entry received in a send. */
  ghost function Times(got: seq<(nat, Option<Value>)>, id: nat): nat {
    if got == [] then 0
    else Times(got[..|got| - 1], id) + if got[|got| - 1].0 == id then 1 else 0
  }

  lemma {:induction false} TimesOnce(got: seq<(nat, Option<Value>)>, id: nat)
    requires forall a, b :: 0 <= a < b < |got| ==> got[a].0 != got[b].0
    ensures Times(got, id) == if id in GotIds(got) then 1 else 0
  {
    hide GotIds;
    if got == [] {
      NoCases();
    } else {
      var rest, last := got[..|got| - 1], got[|got| - 1];
      assert forall a :: 0 <= a < |rest| ==> rest[a] == got[a];
      TimesOnce(rest, id);
      assert rest + [(last.0, last.1)] == got;
      GotAppend(rest, last.0, last.1);
      if last.0 == id {
        NotEarlier(got, id);
      }
    }
  }

  lemma NotEarlier(got: seq<(nat, Option<Value>)>, id: nat)
    requires got != [] && got[|got| - 1].0 == id
    requires forall a, b :: 0 <= a < b < |got| ==> got[a].0 != got[b].0
    ensures id !in GotIds(got[..|got| - 1])
  {
    var rest := got[..|got| - 1];
    forall a | 0 <= a < |rest|
      ensures rest[a].0 != id
    {
      assert rest[a] == got[a];
    }
  }

  lemma {:induction false} GotCount(got: seq<(nat, Option<Value>)>)
    requires forall a, b :: 0 <= a < b < |got| ==> got[a].0 != got[b].0
    ensures |GotIds(got)| == |got|
  {
    if got != [] {
      var rest, last := got[..|got| - 1], got[|got| - 1];
      assert forall a, b :: 0 <= a < b < |rest| ==> rest[a] == got[a] && rest[b] == got[b];
      GotCount(rest);
      assert rest + [(last.0, last.1)] == got;
      GotAppend(rest, last.0, last.1);
      NotEarlier(got, last.0);
    } else {
      NoCases();
    }
  }

  /** The main result. When a send completes, in any run, every entry it absorbed
      that was not removed meanwhile received the value exactly once, a removed one
      at most once, nobody else received anything, and the returned count is the
      number of absorbed entries less those removed before they received. */
  lemma SendIsExact(states: seq<State>, steps: seq<Step>, i: nat, id: nat)
    requires IsRun(states, steps) && i < |steps| && steps[i].Finish?
    ensures states[i].sender.Sending? && |states[i].cases| >= 1
    ensures var s := states[i].sender;
      && Times(s.got, id) <= 1
      && (id in s.absorbed - s.lost - s.gone ==> Times(s.got, id) == 1)
      && (id in s.lost ==> Times(s.got, id) == 0)
      && (id !in s.absorbed ==> Times(s.got, id) == 0)
      && (forall a :: 0 <= a < |s.got| ==> s.got[a].1 == Some(s.value))
      && s.lost <= s.absorbed && s.nsent == |s.absorbed| - |s.lost|
      && s.absorbed - s.lost - s.gone == IdSet(states[i].cases[1..])
  {
    hide Shape, Accounted, Distinct, GotIds, Loaded, IdSet;
    RunKeeps(states, steps, i);
    assert Next(states[i], steps[i], states[i + 1]);
    var s := states[i].sender;
    TimesOnce(s.got, id);
    GotCount(s.got);
    EmptyPrefix(states[i].cases);
    assert s.absorbed == GotIds(s.got) + s.lost;
    assert |s.absorbed| == |GotIds(s.got)| + |s.lost|;
  }

  lemma EmptyPrefix(cs: seq<Case>)
    requires |cs| >= 1
    ensures IdSet(cs[1..1]) == {}
  {
  }

  // ------------------------------------------------------ who a send is for

  /** One send: it takes in the inbox at step `k` and completes at step `i`. */
  predicate Spans(steps: seq<Step>, k: nat, i: nat) {
    k < i < |steps| && steps[k] == Absorb && steps[i] == Finish && forall m :: k < m < i ==> steps[m] != Finish
  }

  /** The entries of everyone subscribed in a state, or not yet fully cancelled. */
  function Entries(st: State): seq<Case>
    requires |st.cases| >= 1
  {
    st.cases[1..] + st.inbox
  }

  lemma AbsorbTakesAll(st: State, st': State)
    requires Inv(st) && Next(st, Absorb, st')
    ensures st'.sender.Sending? && st'.sender.value == st.sender.value && st'.sender.absorbed == IdSet(Entries(st))
    ensures forall c :: c in Entries(st) ==> HasEntry(st'.cases, c.id, c.ch)
    ensures Bag(st'.cases) == Bag(st.cases) + Bag(st.inbox)
  {
    hide Accounted, Distinct, Loaded, Progress;
    var all, list := st.cases + st.inbox, Entries(st);
    var loaded := WithValue(all, Some(st.sender.value));
    assert all == [st.cases[0]] + list;
    BagConcat(st.cases, st.inbox);
    WithValueKeeps(all, Some(st.sender.value));
    forall c | c in list
      ensures HasEntry(loaded, c.id, c.ch)
    {
      var j :| 0 <= j < |list| && list[j] == c;
      assert loaded[j + 1] in loaded && loaded[j + 1].id == c.id && loaded[j + 1].ch == c.ch;
    }
    WithValueIds(all, Some(st.sender.value));
    HeadId(st.cases[0], list);
  }

  lemma WithValueIds(cs: seq<Case>, v: Option<Value>)
    ensures IdSet(WithValue(cs, v)) == IdSet(cs)
  {
    var w := WithValue(cs, v);
    forall c | c in cs
      ensures c.id in IdSet(w)
    {
      var j :| 0 <= j < |cs| && cs[j] == c;
      assert w[j] in w && w[j].id == c.id;
    }
    forall c | c in w
      ensures c.id in IdSet(cs)
    {
      var j :| 0 <= j < |w| && w[j] == c;
      assert cs[j] in cs && cs[j].id == c.id;
    }
  }

  lemma HeadId(first: Case, list: seq<Case>)
    requires first.id == 0 && forall j :: 0 <= j < |list| ==> list[j].id != 0
    ensures IdSet([first] + list) - {0} == IdSet(list)
  {
    assert forall c :: c in [first] + list <==> c == first || c in list;
  }

  ghost predicate HasEntry(cs: seq<Case>, id: nat, ch: Chan) {
    exists c :: c in cs && c.id == id && c.ch == ch
  }

  /** While a send runs it stays the same send. */
  lemma SendingStep(st: State, step: Step, st': State)
    requires Inv(st) && Next(st, step, st') && st.sender.Sending? && step != Finish
    ensures st'.sender.Sending? && st'.sender.absorbed == st.sender.absorbed && st'.sender.value == st.sender.value
  {
    hide Shape, Accounted, Distinct, Loaded;
  }

  /** Without a cancellation of `ch`, its cases are as many as before but for those whose
      cancellation was waiting. */
  lemma CountStep(st: State, step: Step, st': State, ch: Chan)
    requires Inv(st) && Next(st, step, st') && st.sender.Sending? && step != Finish && step != Unsubscribe(ch)
    ensures Bag(st'.cases)[ch] + st.pending[ch] == Bag(st.cases)[ch] + st'.pending[ch]
  {
    hide Shape, Distinct, Loaded, Bag, Accounted;
    match step
    case TrySend(accepted) =>
      if accepted {
        BagDeactivate(st.cases, st.sender.active, st.sender.next);
      }
    case SelectSend(index) =>
      BagDeactivate(st.cases, st.sender.active, index);
    case SelectRemove(c) =>
      FindNeverMisses(st, c);
      RemovalCount(st.cases, st.pending, c, ch);
    case _ =>
  }

  lemma RemovalCount(cases: seq<Case>, pending: multiset<Chan>, c: Chan, ch: Chan)
    requires Find(cases, c) >= 0 && c in pending
    ensures Bag(DeleteAt(cases, Find(cases, c)))[ch] + pending[ch] == Bag(cases)[ch] + (pending - multiset{c})[ch]
  {
    hide Bag;
    BagDelete(cases, Find(cases, c));
    assert (Bag(DeleteAt(cases, Find(cases, c))) + multiset{c})[ch] == Bag(cases)[ch];
  }

  /** Nor is one of its cases removed, when no cancellation of it was waiting. */
  lemma EntryStep(st: State, step: Step, st': State, id: nat, ch: Chan)
    requires Inv(st) && Next(st, step, st') && st.sender.Sending? && step != Finish && step != Unsubscribe(ch)
    requires ch !in st.pending && HasEntry(st.cases, id, ch)
    ensures ch !in st'.pending && HasEntry(st'.cases, id, ch)
  {
    hide Shape, Distinct, Loaded, Bag, Accounted, Progress;
    var j: nat :| j < |st.cases| && st.cases[j].id == id && st.cases[j].ch == ch;
    match step
    case TrySend(accepted) =>
      if accepted {
        SwapKeeps(st.cases, st.sender.active, st.sender.next, j);
      }
    case SelectSend(index) =>
      SwapKeeps(st.cases, st.sender.active, index, j);
    case SelectRemove(c) =>
      FindNeverMisses(st, c);
      DeleteKeeps(st.cases, Find(st.cases, c), j);
    case _ =>
  }

  lemma SwapKeeps(cs: seq<Case>, k: nat, i: nat, j: nat)
    requires i < k <= |cs| && j < |cs|
    ensures HasEntry(Deactivate(cs, k, i), cs[j].id, cs[j].ch)
  {
    var d := Deactivate(cs, k, i);
    var to := if j == i then k - 1 else if j == k - 1 then i else j;
    assert d[to] == cs[j] && d[to] in d;
  }

  lemma DeleteKeeps(cs: seq<Case>, i: nat, j: nat)
    requires i < |cs| && j < |cs| && j != i
    ensures HasEntry(DeleteAt(cs, i), cs[j].id, cs[j].ch)
  {
    var d := DeleteAt(cs, i);
    var to := if j < i then j else j - 1;
    assert d[to] == cs[j] && d[to] in d;
  }

  /** What a send delivers to is fixed when it starts: everyone subscribed then. */
  lemma SendIsForAll(states: seq<State>, steps: seq<Step>, k: nat, i: nat)
    requires IsRun(states, steps) && Spans(steps, k, i)
    ensures |states[k].cases| >= 1 && states[k].sender.Entering? && states[i].sender.Sending?
    ensures states[i].sender.absorbed == IdSet(Entries(states[k])) && states[i].sender.value == states[k].sender.value
  {
    hide Inv, Entries;
    RunKeeps(states, steps, k);
    AtLeastRemoval(states[k]);
    AbsorbTakesAll(states[k], states[k + 1]);
    var m := k + 1;
    while m < i
      invariant k < m <= i && states[m].sender.Sending? && states[m].sender.value == states[k].sender.value
      invariant states[m].sender.absorbed == IdSet(Entries(states[k]))
    {
      RunKeeps(states, steps, m);
      SendingStep(states[m], steps[m], states[m + 1]);
      m := m + 1;
    }
  }

  lemma AtLeastRemoval(st: State)
    requires Inv(st)
    ensures |st.cases| >= 1
  {
  }

  /** A channel nobody cancels during the send has, at its end, as many cases as it had
      subscriptions at the start, apart from cancellations that waited already. */
  lemma LiveAreKept(states: seq<State>, steps: seq<Step>, k: nat, i: nat, ch: Chan)
    requires IsRun(states, steps) && Spans(steps, k, i) && ch != REMOVE_SUB
    requires forall m :: k < m < i ==> steps[m] != Unsubscribe(ch)
    ensures Bag(states[i].cases)[ch] == states[k].live[ch] + states[i].pending[ch]
  {
    hide Inv, Bag, Next;
    RunKeeps(states, steps, k);
    RunKeeps(states, steps, k + 1);
    assert Next(states[k], steps[k], states[k + 1]);
    AbsorbedCount(states[k], states[k + 1], ch);
    var m := k + 1;
    while m < i
      invariant k < m <= i && states[m].sender.Sending?
      invariant Bag(states[m].cases)[ch] == states[k].live[ch] + states[m].pending[ch]
    {
      RunKeeps(states, steps, m);
      assert Next(states[m], steps[m], states[m + 1]);
      SendingStep(states[m], steps[m], states[m + 1]);
      CountStep(states[m], steps[m], states[m + 1], ch);
      m := m + 1;
    }
  }

  lemma AbsorbedCount(st: State, st': State, ch: Chan)
    requires Inv(st) && Next(st, Absorb, st') && ch != REMOVE_SUB
    ensures st'.sender.Sending? && Bag(st'.cases)[ch] == st.live[ch] + st'.pending[ch]
  {
    hide Shape, Distinct, Loaded, Bag;
    AbsorbTakesAll(st, st');
    CountSum(st.live, st.pending, Bag(st.cases), Bag(st.inbox), ch);
    assert (Bag(st.cases) + Bag(st.inbox))[ch] == Bag(st.cases)[ch] + Bag(st.inbox)[ch];
  }

  /** The main result in terms of subscribers. A channel that is not cancelled during a
      send, and had no cancellation waiting at its start, receives the value exactly once
      for each of its subscriptions at the start, of which there are `live[ch]`. */
  lemma SubscribersReceive(states: seq<State>, steps: seq<Step>, k: nat, i: nat, ch: Chan, c: Case)
    requires IsRun(states, steps) && Spans(steps, k, i) && ch != REMOVE_SUB && ch !in states[k].pending
    requires forall m :: k < m < i ==> steps[m] != Unsubscribe(ch)
    ensures |states[k].cases| >= 1 && states[k].sender.Entering? && states[i].sender.Sending?
    ensures Bag(states[k].cases)[ch] + Bag(states[k].inbox)[ch] == states[k].live[ch]
    ensures c in Entries(states[k]) && c.ch == ch ==> Times(states[i].sender.got, c.id) == 1
    ensures forall a :: 0 <= a < |states[i].sender.got| ==> states[i].sender.got[a].1 == Some(states[k].sender.value)
  {
    hide Inv, Bag, Next, Entries, HasEntry, IdSet;
    SendIsForAll(states, steps, k, i);
    SendIsExact(states, steps, i, c.id);
    RunKeeps(states, steps, k);
    CountedEntries(states[k], ch);
    if c in Entries(states[k]) && c.ch == ch {
      EntryStays(states, steps, k, i, c);
      RunKeeps(states, steps, i);
      EntryInList(states[i], c.id, ch);
    }
  }

  lemma CountedEntries(st: State, ch: Chan)
    requires Inv(st) && ch != REMOVE_SUB && ch !in st.pending
    ensures Bag(st.cases)[ch] + Bag(st.inbox)[ch] == st.live[ch]
  {
    hide Shape, Distinct, Loaded, Bag, Progress;
    CountSum(st.live, st.pending, Bag(st.cases), Bag(st.inbox), ch);
  }

  lemma CountSum(live: multiset<Chan>, pending: multiset<Chan>, cases: multiset<Chan>, inbox: multiset<Chan>, ch: Chan)
    requires live + pending + multiset{REMOVE_SUB} == cases + inbox && ch != REMOVE_SUB
    ensures live[ch] + pending[ch] == cases[ch] + inbox[ch]
  {
    assert (live + pending + multiset{REMOVE_SUB})[ch] == live[ch] + pending[ch];
    assert (cases + inbox)[ch] == cases[ch] + inbox[ch];
  }

  lemma EntryStays(states: seq<State>, steps: seq<Step>, k: nat, i: nat, c: Case)
    requires IsRun(states, steps) && Spans(steps, k, i) && c.ch !in states[k].pending
    requires forall m :: k < m < i ==> steps[m] != Unsubscribe(c.ch)
    requires |states[k].cases| >= 1 && c in Entries(states[k])
    ensures HasEntry(states[i].cases, c.id, c.ch)
  {
    hide Inv, Entries, HasEntry;
    RunKeeps(states, steps, k);
    AbsorbTakesAll(states[k], states[k + 1]);
    var m := k + 1;
    while m < i
      invariant k < m <= i && states[m].sender.Sending?
      invariant c.ch !in states[m].pending && HasEntry(states[m].cases, c.id, c.ch)
    {
      RunKeeps(states, steps, m);
      SendingStep(states[m], steps[m], states[m + 1]);
      EntryStep(states[m], steps[m], states[m + 1], c.id, c.ch);
      m := m + 1;
    }
  }

  lemma EntryInList(st: State, id: nat, ch: Chan)
    requires Inv(st) && HasEntry(st.cases, id, ch) && ch != REMOVE_SUB
    ensures |st.cases| >= 1 && id in IdSet(st.cases[1..])
  {
    hide Distinct, Loaded, Bag, Accounted, Progress;
    var j: nat :| j < |st.cases| && st.cases[j].id == id && st.cases[j].ch == ch;
    assert st.cases[1..][j - 1] == st.cases[j];
  }
}
