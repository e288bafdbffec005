/** How the tester approaches state checks (src/config/check.rs). */
module ConfigCheck {
  import opened Wrappers
  import opened Text
  import ModelOutcome
  import ConfigErr
  import Halt
  import HaltRule

  const DISABLE: string := "disable"
  const REPORT: string := "report"
  /** Prepended to an outcome's name to form an exit-on strategy. */
  const EXIT_ON_PREFIX: string := "exit-on-"
  /** `string::ALL`, unrolled as in the source. */
  const ALL: seq<string> := [DISABLE, REPORT, "exit-on-pass", "exit-on-fail", "exit-on-unknown"]

  /** `Strategy`: checks off, checks reported only, or halting on the first state with an outcome. */
  datatype Strategy = Disable | Report | ExitOn(o: ModelOutcome.Outcome)

  /** `Default`: report only. */
  function Default(): (s: Strategy)
    ensures !IsDisabled(s) && HaltOutcome(s).None?
  {
    Report
  }

  /** `Display`: the inverse of parsing. */
  function ToString(s: Strategy): (r: string)
    ensures IsLower(r)
  {
    match s
    case Disable => DISABLE
    case Report => REPORT
    case ExitOn(o) => EXIT_ON_PREFIX + ModelOutcome.ToString(o)
  }

  /**
   * `FromStr`: lowercase; an `exit-on-` prefix makes the rest an outcome;
   * otherwise only `disable` and `report` are accepted, and the error carries
   * the lowercased input.
   */
  function FromStr(s: string): (r: Result<Strategy, ConfigErr.Error>)
    ensures r.Err? ==> r.error.BadCheckStrategy? || r.error.BadCheckOutcome?
    ensures r.Err? && r.error.BadCheckStrategy? ==> r.error.s == Lower(s) && !(EXIT_ON_PREFIX <= Lower(s))
    ensures r.Err? && r.error.BadCheckOutcome? ==>
      && EXIT_ON_PREFIX <= Lower(s)
      && ModelOutcome.FromStr(Lower(s)[|EXIT_ON_PREFIX|..]).Err?
      && r.error.s == Lower(s)[|EXIT_ON_PREFIX|..]
    ensures EXIT_ON_PREFIX <= Lower(s) ==>
      (r.Ok? <==> ModelOutcome.FromStr(Lower(s)[|EXIT_ON_PREFIX|..]).Ok?)
    ensures r.Ok? && r.value.ExitOn? ==>
      && EXIT_ON_PREFIX <= Lower(s)
      && ModelOutcome.FromStr(Lower(s)[|EXIT_ON_PREFIX|..]) == Ok(r.value.o)
  {
    var lc := Lower(s);
    if EXIT_ON_PREFIX <= lc then
      LowerIsLower(s);
      LowerOfLower(lc[|EXIT_ON_PREFIX|..]);
      match ModelOutcome.FromStr(lc[|EXIT_ON_PREFIX|..])
      case Ok(o) => Ok(ExitOn(o))
      case Err(e) => Err(ConfigErr.BadCheckOutcome(e))
    else if lc == DISABLE then Ok(Disable)
    else if lc == REPORT then Ok(Report)
    else Err(ConfigErr.BadCheckStrategy(lc))
  }

  /** Printing then parsing gives the strategy back. */
  lemma FromStrToString(s: Strategy)
    ensures FromStr(ToString(s)) == Ok(s)
  {
    var str := ToString(s);
    LowerOfLower(str);
    if s.ExitOn? {
      assert str[|EXIT_ON_PREFIX|..] == ModelOutcome.ToString(s.o);
      ModelOutcome.FromStrToString(s.o);
    }
  }

  /** A successful parse prints back as the lowercased input: parsing ignores only case. */
  lemma ToStringFromStr(s: string)
    requires FromStr(s).Ok?
    ensures ToString(FromStr(s).value) == Lower(s)
  {
    var lc := Lower(s);
    if EXIT_ON_PREFIX <= lc {
      var rest := lc[|EXIT_ON_PREFIX|..];
      var o := FromStr(s).value.o;
      ModelOutcome.FromStrOk(rest, o);
      LowerIsLower(s);
      LowerOfLower(rest);
      assert lc == EXIT_ON_PREFIX + rest;
    }
  }

  /** Parsing ignores case. */
  lemma FromStrCaseInsensitive(s: string)
    ensures FromStr(s) == FromStr(Lower(s))
  {
    LowerIdempotent(s);
  }

  /** `Strategy::all`: the two fixed strategies, then one exit-on per outcome. */
  function All(): (r: seq<Strategy>)
    ensures |r| == 5
    ensures forall s: Strategy :: s in r
  {
    var os := ModelOutcome.All();
    var r := [Disable, Report] + seq(|os|, i requires 0 <= i < |os| => ExitOn(os[i]));
    assert forall s: Strategy :: s in r by {
      forall s: Strategy ensures s in r {
        if s.ExitOn? {
          var i :| 0 <= i < |os| && os[i] == s.o;
          assert r[i + 2] == s;
        }
      }
    }
    r
  }

  /** The strings of `all()` are exactly `string::ALL`. */
  lemma AllStringsInSync()
    ensures (set s | s in All() :: ToString(s)) == (set x | x in ALL)
  {
    var a := All();
    assert a == [Disable, Report, ExitOn(ModelOutcome.Pass), ExitOn(ModelOutcome.Fail), ExitOn(ModelOutcome.Unknown)];
    assert ToString(a[2]) == ALL[2];
    assert ToString(a[3]) == ALL[3];
    assert ToString(a[4]) == ALL[4];
    ImageOfSeq(a, ALL);
  }

  /** When `b` holds the strings of `a` position by position, the two sets of strings agree. */
  lemma ImageOfSeq(a: seq<Strategy>, b: seq<string>)
    requires |a| == |b| && forall i :: 0 <= i < |a| ==> ToString(a[i]) == b[i]
    ensures (set s | s in a :: ToString(s)) == (set x | x in b)
  {
    forall x | x in (set s | s in a :: ToString(s)) ensures x in b {
      var s :| s in a && ToString(s) == x;
      var i :| 0 <= i < |a| && a[i] == s;
      assert b[i] == x;
    }
    forall x | x in b ensures x in (set s | s in a :: ToString(s)) {
      var i :| 0 <= i < |b| && b[i] == x;
      assert a[i] in a;
    }
  }

  /** `Strategy::halt_outcome`: the outcome being halted upon, if any. */
  function HaltOutcome(s: Strategy): (r: Option<ModelOutcome.Outcome>)
    ensures r.Some? <==> s.ExitOn?
    ensures r.Some? ==> r.value == s.o
  {
    match s
    case ExitOn(o) => Some(o)
    case _ => None
  }

  /** `Strategy::halt_rules`: an exit rule on the halting outcome, if there is one. */
  function HaltRules(s: Strategy): (rs: seq<HaltRule.Rule>)
    ensures |rs| <= 1
    ensures |rs| == 1 <==> HaltOutcome(s).Some?
    ensures forall r :: r in rs ==> r.ty == Halt.Exit && r.condition == HaltRule.OnOutcome(HaltOutcome(s).value)
  {
    match HaltOutcome(s)
    case Some(x) => [HaltRule.ExitRule(HaltRule.OnOutcome(x))]
    case None => []
  }

  /** `Strategy::is_disabled`. */
  predicate IsDisabled(s: Strategy) {
    s.Disable?
  }

  /** Only the exit-on strategies produce a halt rule; disabling and reporting produce none. */
  lemma HaltRulesOnlyForExitOn(s: Strategy)
    ensures IsDisabled(s) ==> HaltRules(s) == []
    ensures s == Report ==> HaltRules(s) == []
    ensures s.ExitOn? <==> |HaltRules(s)| == 1
  {
  }
}
