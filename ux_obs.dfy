/**
 * The first histogram dumper (src/ux/obs.rs) over the earlier observation
 * set, a hash map from states to observation records: the width the
 * occurrence counts are padded to, and the check sigils.
 */
module UxObs {
  import opened Prim
  import opened Text
  import ModelObs
  import ModelCheck

  /** `model::obs::Set`. */
  type Set = map<ModelObs.State, ModelObs.Obs>

  /**
   * `padding`: the widest decimal rendering of any occurrence count, and 0
   * when there are no states. The hash map is visited in an order this
   * model leaves open.
   */
  method Padding(obs: Set) returns (pad: nat)
    ensures forall s :: s in obs ==> DecimalWidth(obs[s].occurs) <= pad
    ensures obs == map[] ==> pad == 0
    ensures obs != map[] ==> exists s :: s in obs && DecimalWidth(obs[s].occurs) == pad
    ensures obs != map[] ==> pad >= 1
  {
    pad := 0;
    var remaining := obs.Keys;
    while remaining != {}
      invariant remaining <= obs.Keys
      invariant forall s :: s in obs && s !in remaining ==> DecimalWidth(obs[s].occurs) <= pad
      invariant remaining == obs.Keys ==> pad == 0
      invariant remaining != obs.Keys ==> exists s :: s in obs && s !in remaining && DecimalWidth(obs[s].occurs) == pad
      decreases remaining
    {
      var s :| s in remaining;
      var w := DecimalWidth(obs[s].occurs);
      if pad < w {
        pad := w;
      }
      remaining := remaining - {s};
    }
  }

  /** `check_sigil`: `*` for a pass and `:` for a failure. */
  function CheckSigil(r: ModelCheck.Outcome): (s: string)
    ensures |s| == 1
    ensures s == "*" <==> r == ModelCheck.Passed
    ensures s == ":" <==> r == ModelCheck.Failed
  {
    match r
    case Passed => "*"
    case Failed => ":"
  }
}
