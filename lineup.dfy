/** check_lineup: whether four position counts form a legal starting eleven. */
module Lineup {

  /**
   * The three guards of check_lineup in their source order: the total must
   * be eleven; one goalkeeper, at least three defenders and one forward; at
   * most five defenders, midfielders and forwards.
   */
  function CheckLineup(gks: int, defs: int, mids: int, fwds: int): (legal: bool)
    ensures legal <==> gks + defs + mids + fwds == 11 && gks == 1 && 3 <= defs <= 5 && mids <= 5 && 1 <= fwds <= 5
  {
    if gks + defs + mids + fwds != 11 then false
    else if gks != 1 || defs < 3 || fwds < 1 then false
    else if defs > 5 || mids > 5 || fwds > 5 then false
    else true
  }

  /**
   * No lower bound on midfielders is checked, yet a legal eleven has none
   * negative: the other three positions supply between five and ten players.
   */
  lemma LegalMidfield(gks: int, defs: int, mids: int, fwds: int)
    requires CheckLineup(gks, defs, mids, fwds)
    ensures 0 <= mids <= 5 && 5 <= defs + fwds <= 10
  {
  }
}
