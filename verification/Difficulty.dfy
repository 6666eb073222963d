/** Total difficulties: the table against the sum over the ancestors. */
module Difficulty {
  import opened Ancestry

  /** The difficulties of a header and all its ancestors, added up. */
  ghost function TotalDifficulty(s: Store, b: Header): nat
    requires Closed(s) && Stored(s, b)
    decreases b.number
  {
    b.difficulty + if b.number == 0 then 0 else TotalDifficulty(s, s[b.parent])
  }

  ghost predicate TdExact(s: Store, tds: map<Hash, nat>)
    requires Closed(s)
  {
    && tds.Keys == s.Keys
    && forall h :: h in s ==> tds[h] == TotalDifficulty(s, s[h])
  }

  lemma {:induction false} TotalDifficultyElsewhere(s: Store, t: Store, b: Header)
    requires Closed(s) && Closed(t) && Stored(s, b)
    requires forall h :: h in s && s[h].number <= b.number ==> h in t && t[h] == s[h]
    ensures TotalDifficulty(t, b) == TotalDifficulty(s, b)
    decreases b.number
  {
    if b.number == 0 {
    } else {
      TotalDifficultyElsewhere(s, t, s[b.parent]);
    }
  }

  lemma AddHeaderClosed(s: Store, genesis: Hash, b: Header)
    requires Closed(s) && Rooted(s, genesis)
    requires b.hash != ZERO_HASH && (b.hash in s ==> s[b.hash] == b) && Lookup(s, b.parent, b.number - 1).Some?
    ensures var t := s[b.hash := b]; Closed(t) && Rooted(t, genesis) && Stored(t, b) && Lookup(t, b.parent, b.number - 1).Some?
    ensures Stored(s, s[b.parent]) && forall h :: h in s ==> Stored(s, s[h])
  {
  }

  lemma TotalDifficultyStep(s: Store, b: Header)
    requires Closed(s) && Lookup(s, b.parent, b.number - 1).Some?
    ensures Stored(s, b) ==> TotalDifficulty(s, b) == b.difficulty + TotalDifficulty(s, s[b.parent])
  {
  }

  /** Adding one header on top of a stored parent keeps every total exact. */
  lemma AddHeader(s: Store, tds: map<Hash, nat>, genesis: Hash, b: Header, td: nat)
    requires Closed(s) && Rooted(s, genesis) && TdExact(s, tds)
    requires b.hash != ZERO_HASH && (b.hash in s ==> s[b.hash] == b)
    requires Lookup(s, b.parent, b.number - 1).Some? && td == tds[b.parent] + b.difficulty
    ensures var t := s[b.hash := b]; Closed(t) && Rooted(t, genesis) && TdExact(t, tds[b.hash := td])
    ensures b.hash in s ==> tds[b.hash] == td
  {
    hide TotalDifficulty, Closed, Rooted;
    var t := s[b.hash := b];
    AddHeaderClosed(s, genesis, b);
    TotalDifficultyStep(s, b);
    forall h | h in s
      ensures TotalDifficulty(t, s[h]) == TotalDifficulty(s, s[h])
    {
      TotalDifficultyElsewhere(s, t, s[h]);
    }
    TotalDifficultyStep(t, b);
  }
}
