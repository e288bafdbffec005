/** The earlier observation record (src/model/obs.rs). */
module ModelObs {
  import opened Prim
  import ModelCheck

  /** `State`: a `BTreeMap<String, i32>`. */
  type State = seq<(string, i32)>

  /** `Obs`: how often a state occurred, and its check result. */
  datatype Obs = Obs(occurs: usize, checkResult: ModelCheck.Outcome)

  /** `Obs::inc`: one more occurrence, saturating at `usize::MAX`; the check result is kept. */
  function Inc(o: Obs): (r: Obs)
    ensures o.occurs < USIZE_MAX ==> r.occurs == o.occurs + 1
    ensures o.occurs == USIZE_MAX ==> r.occurs == USIZE_MAX
    ensures o.occurs <= r.occurs
    ensures r.checkResult == o.checkResult
  {
    Obs(SaturatingInc(o.occurs), o.checkResult)
  }

  /** Incrementing never loses the check result, however often it is repeated. */
  lemma {:induction false} IncPreservesResult(o: Obs, n: nat)
    ensures IncN(o, n).checkResult == o.checkResult
    ensures o.occurs <= IncN(o, n).occurs
  {
    if n > 0 {
      IncPreservesResult(o, n - 1);
    }
  }

  /** `n` successive `inc`s. */
  function IncN(o: Obs, n: nat): Obs {
    if n == 0 then o else Inc(IncN(o, n - 1))
  }
}
