/** The fork choice rule: highest total difficulty before the transition, the
    external consensus layer after it. */
module ForkChoice {
  import opened Wrappers
  import opened Ancestry

  datatype Decision = MissingTd | Decided(reorg: bool)

  /** `ttd` is the terminal total difficulty, `preserve` the local miner's
      preference and `coin` the random draw that breaks a full tie. */
  function ReorgNeeded(localTd: Option<nat>, externTd: Option<nat>, ttd: Option<nat>,
                       current: Header, extern: Header, preserve: Header -> bool, coin: bool): Decision
  {
    if localTd.None? || externTd.None? then MissingTd
    else if ttd.Some? && ttd.value <= externTd.value then Decided(true)
    else if externTd.value > localTd.value then Decided(true)
    else if externTd.value < localTd.value then Decided(false)
    else if extern.number < current.number then Decided(true)
    else if extern.number == current.number then
      Decided(!preserve(current) && (preserve(extern) || coin))
    else Decided(false)
  }

  /** What the rule can never lower: the difficulty counted up to the terminal one. */
  function Capped(td: nat, ttd: Option<nat>): nat {
    if ttd.Some? && ttd.value < td then ttd.value else td
  }

  /** What the rule says: at or past the terminal difficulty always the new header, below
      it the heavier one, and among equals the lower one, then the local miner's, then
      the coin. */
  lemma ChoiceIs(localTd: nat, externTd: nat, ttd: Option<nat>, current: Header, extern: Header,
                 preserve: Header -> bool, coin: bool)
    ensures var d := ReorgNeeded(Some(localTd), Some(externTd), ttd, current, extern, preserve, coin);
      && d.Decided?
      && (ttd.Some? && externTd >= ttd.value ==> d.reorg)
      && (ttd.None? || externTd < ttd.value ==>
            && (externTd > localTd ==> d.reorg)
            && (externTd < localTd ==> !d.reorg)
            && (externTd == localTd && extern.number < current.number ==> d.reorg)
            && (externTd == localTd && extern.number > current.number ==> !d.reorg)
            && (externTd == localTd && extern.number == current.number ==>
                  (d.reorg <==> !preserve(current) && (preserve(extern) || coin))))
  {
  }
}
