/**
 * The histogram outputter (src/ux/out/histo.rs): one line per report
 * state, its fields separated by tabs. The tab writer's column alignment
 * and the sigils' terminal colours are not modelled; what is modelled is
 * the text handed to the tab writer.
 */
module UxHisto {
  import opened Prim
  import opened Text
  import opened Wrappers
  import opened ModelOutcome
  import ModelState
  import ModelReport

  const TAB: char := '\t'
  const NEWLINE: char := '\n'

  /** `name=value`, the rendering of one variable of a valuation. */
  function Segment(entry: (string, ModelState.Value)): string {
    entry.0 + "=" + ModelState.ValueToString(entry.1)
  }

  /** The segments of a valuation, in key order. */
  function Segments(valuation: ModelState.State): (r: seq<string>)
    ensures |r| == |valuation|
    ensures forall i :: 0 <= i < |valuation| ==> r[i] == Segment(valuation[i])
  {
    seq(|valuation|, i requires 0 <= i < |valuation| => Segment(valuation[i]))
  }

  /** `stringify_valuation`: the segments, in key order, joined by tabs; nothing for no variables. */
  function StringifyValuation(valuation: ModelState.State): (r: string)
    ensures valuation == [] ==> r == ""
    ensures |valuation| == 1 ==> r == Segment(valuation[0])
  {
    Join(Segments(valuation), TAB)
  }

  /** Neither a tab nor a newline occurs in a printed value. */
  lemma ValueHasNo(v: ModelState.Value, c: char)
    requires c == TAB || c == NEWLINE
    ensures c !in ModelState.ValueToString(v)
  {
    if v.v < 0 {
      DecimalHasNo(-(v.v as int) as nat, c);
    } else {
      DecimalHasNo(v.v as nat, c);
    }
  }

  /** A valuation whose names hold neither tabs nor newlines, as C identifiers never do. */
  predicate PlainNames(valuation: ModelState.State) {
    forall i :: 0 <= i < |valuation| ==> TAB !in valuation[i].0 && NEWLINE !in valuation[i].0
  }

  /** No segment of a plainly named valuation holds a tab or a newline. */
  lemma SegmentsPlain(valuation: ModelState.State)
    requires PlainNames(valuation)
    ensures forall i :: 0 <= i < |valuation| ==> TAB !in Segments(valuation)[i] && NEWLINE !in Segments(valuation)[i]
  {
    forall i | 0 <= i < |valuation|
      ensures TAB !in Segments(valuation)[i] && NEWLINE !in Segments(valuation)[i]
    {
      ValueHasNo(valuation[i].1, TAB);
      ValueHasNo(valuation[i].1, NEWLINE);
    }
  }

  /** Splitting a stringified valuation at tabs gives back its segments, in key order. */
  lemma StringifySplits(valuation: ModelState.State)
    requires PlainNames(valuation) && valuation != []
    ensures Split(StringifyValuation(valuation), TAB) == Segments(valuation)
  {
    SegmentsPlain(valuation);
    SplitJoin(Segments(valuation), TAB);
  }

  /** `check_sigil`: `*` for a pass, `:` for a failure, `?` when unknown. */
  function CheckSigil(o: Outcome): (s: string)
    ensures |s| == 1
    ensures s == "*" <==> o == Pass
    ensures s == ":" <==> o == Fail
    ensures s == "?" <==> o == Unknown
  {
    match o
    case Pass => "*"
    case Fail => ":"
    case Unknown => "?"
  }

  /** The trailing field of a line, naming the iteration the state was first seen in. */
  function IterField(iteration: usize): string {
    "(iter " + NatToDecimal(iteration) + ")"
  }

  /** The fields of a state's line: occurrences, sigil and `>`, the valuation, and the iteration. */
  function Fields(s: ModelReport.ReportState): seq<string> {
    [NatToDecimal(s.info.occurs), CheckSigil(s.info.outcome) + ">"]
    + (if s.state == [] then [""] else Segments(s.state))
    + [IterField(s.info.iteration)]
  }

  /** Two pieces of text with a tab between. */
  function Tabbed(a: string, b: string): string {
    a + [TAB] + b
  }

  /**
   * `dump_state`'s line, without its newline: it starts with the occurrence
   * count and a tab, and ends with the `(iter N)` field.
   */
  function Line(s: ModelReport.ReportState): (r: string)
    ensures NatToDecimal(s.info.occurs) + [TAB] <= r
    ensures |IterField(s.info.iteration)| <= |r| && r[|r| - |IterField(s.info.iteration)|..] == IterField(s.info.iteration)
  {
    Tabbed(NatToDecimal(s.info.occurs),
      Tabbed(CheckSigil(s.info.outcome) + ">",
        Tabbed(StringifyValuation(s.state), IterField(s.info.iteration))))
  }

  /**
   * A line splits at its tabs into its fields, the first of which reads back
   * as the number of occurrences.
   */
  lemma LineFields(s: ModelReport.ReportState)
    requires PlainNames(s.state)
    ensures Split(Line(s), TAB) == Fields(s)
    ensures ParseUsize(Split(Line(s), TAB)[0]) == Ok(s.info.occurs)
  {
    var occ := NatToDecimal(s.info.occurs);
    var sig := CheckSigil(s.info.outcome) + ">";
    var iter := IterField(s.info.iteration);
    SegmentsPlain(s.state);
    DecimalHasNo(s.info.occurs, TAB);
    assert TAB !in sig;
    assert TAB !in iter by {
      DecimalHasNo(s.info.iteration, TAB);
    }
    SplitNoSep(iter, TAB);
    SplitJoinThen(Segments(s.state), iter, TAB);
    var rest := Tabbed(StringifyValuation(s.state), iter);
    SplitAtSep(sig, rest, TAB);
    SplitAtSep(occ, Tabbed(sig, rest), TAB);
    ParseUsizeDecimal(s.info.occurs);
  }

  /** No newline occurs inside a line. */
  lemma LineHasNoNewline(s: ModelReport.ReportState)
    requires PlainNames(s.state)
    ensures NEWLINE !in Line(s)
  {
    SegmentsPlain(s.state);
    NotInJoin(Segments(s.state), TAB, NEWLINE);
    DecimalHasNo(s.info.occurs, NEWLINE);
    DecimalHasNo(s.info.iteration, NEWLINE);
  }

  /** The lines of the states, in vector order. */
  function Lines(states: seq<ModelReport.ReportState>): (r: seq<string>)
    ensures |r| == |states|
    ensures forall i :: 0 <= i < |states| ==> r[i] == Line(states[i])
  {
    seq(|states|, i requires 0 <= i < |states| => Line(states[i]))
  }

  /** What `dump_states` writes: each state's line and a newline, in vector order. */
  function Render(states: seq<ModelReport.ReportState>): string {
    Terminated(Lines(states), NEWLINE)
  }

  /** Rendered output splits at newlines into one line per state, in order, and a final empty piece. */
  lemma RenderSplits(states: seq<ModelReport.ReportState>)
    requires forall i :: 0 <= i < |states| ==> PlainNames(states[i].state)
    ensures Split(Render(states), NEWLINE) == Lines(states) + [""]
  {
    forall i | 0 <= i < |states| ensures NEWLINE !in Lines(states)[i] {
      LineHasNoNewline(states[i]);
    }
    SplitTerminated(Lines(states), NEWLINE);
  }

  /** `Histogram`: the text written to the tab writer so far. */
  class Histogram {
    var written: string

    /** `Histogram::new`: nothing written yet. */
    constructor ()
      ensures written == ""
    {
      written := "";
    }

    /** `dump_state`: writes the state's line and a newline. */
    method DumpState(s: ModelReport.ReportState)
      modifies this
      ensures written == old(written) + Line(s) + [NEWLINE]
    {
      written := written + Line(s) + [NEWLINE];
    }

    /** `dump_states`: writes every state's line, in vector order. */
    method DumpStates(states: seq<ModelReport.ReportState>)
      modifies this
      ensures written == old(written) + Render(states)
    {
      ghost var lines := Lines(states);
      var i := 0;
      while i < |states|
        invariant 0 <= i <= |states|
        invariant written == old(written) + Terminated(lines[..i], NEWLINE)
      {
        DumpState(states[i]);
        TerminatedSnoc(old(written), lines, i, NEWLINE);
        i := i + 1;
      }
      assert lines[..i] == lines;
    }

    /** `Outputter::output`: the report's states, in order. */
    method Output(report: ModelReport.Report)
      modifies this
      ensures written == old(written) + Render(report.states)
    {
      DumpStates(report.states);
    }
  }
}
