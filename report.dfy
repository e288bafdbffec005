/** Test reports (src/model/report.rs). */
module ModelReport {
  import opened Wrappers
  import opened ModelOutcome
  import ModelState

  /** One observed state in a report, with its information. */
  datatype ReportState = ReportState(state: ModelState.State, info: ModelState.Info)

  /** The outcomes of the states, in order. */
  function Outcomes(states: seq<ReportState>): (os: seq<Outcome>)
    ensures |os| == |states|
    ensures forall i :: 0 <= i < |states| ==> os[i] == states[i].info.outcome
  {
    seq(|states|, i requires 0 <= i < |states| => states[i].info.outcome)
  }

  /** The observed states of the report, in order. */
  function StatesOf(states: seq<ReportState>): (ss: seq<ModelState.State>)
    ensures |ss| == |states|
    ensures forall i :: 0 <= i < |states| ==> ss[i] == states[i].state
  {
    seq(|states|, i requires 0 <= i < |states| => states[i].state)
  }

  /** The report's outcome is always the maximum of its states' outcomes. */
  lemma OutcomesSnoc(states: seq<ReportState>, s: ReportState)
    ensures MaxOf(Outcomes(states + [s])) == MaxOpt(MaxOf(Outcomes(states)), Some(s.info.outcome))
  {
    assert Outcomes(states + [s])[..|states|] == Outcomes(states);
  }

  /** `Report`: the overall outcome and the states observed. */
  class Report {
    var outcome: Option<Outcome>
    var states: seq<ReportState>

    /** The outcome is the maximum over the states (`None` when there are none). */
    ghost predicate Valid()
      reads this
    {
      outcome == MaxOf(Outcomes(states))
    }

    /** An empty report, as `into_report` starts from. */
    constructor ()
      ensures Valid()
      ensures outcome == None && states == []
    {
      outcome := None;
      states := [];
    }

    /** `Report::insert`: raises the outcome to cover the state, and appends it. */
    method Insert(s: ReportState)
      requires Valid()
      modifies this
      ensures Valid()
      ensures states == old(states) + [s]
      ensures outcome == MaxOpt(old(outcome), Some(s.info.outcome))
      ensures outcome.Some?
    {
      OutcomesSnoc(states, s);
      outcome := MaxOpt(outcome, Some(s.info.outcome));
      states := states + [s];
    }
  }
}
