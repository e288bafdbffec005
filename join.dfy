/**
 * Joining the threads of a set, as both automaton generations do
 * (src/fsa.rs `Set::run` and src/run/fsa.rs `join_all`): handles are joined
 * in order, the first spawn or join error aborts, and otherwise the last
 * handle's result is kept.
 */
module Join {
  import opened Wrappers
  import Err

  /** One handle's result: its spawn error, else what joining it gives. */
  function JoinOne<H, D>(h: Result<H, Err.Error>, join: H -> Result<D, Err.Error>): (r: Result<D, Err.Error>)
    ensures h.Err? ==> r == Err(h.error)
    ensures h.Ok? ==> r == join(h.value)
  {
    match h
    case Err(e) => Err(e)
    case Ok(x) => join(x)
  }

  /** The result of joining every handle in order: `None` when there are none. */
  function LastJoined<H, D>(hs: seq<Result<H, Err.Error>>, join: H -> Result<D, Err.Error>): Result<Option<D>, Err.Error> {
    if |hs| == 0 then Ok(None)
    else match LastJoined(hs[..|hs| - 1], join)
      case Err(e) => Err(e)
      case Ok(_) =>
        match JoinOne(hs[|hs| - 1], join)
        case Err(e) => Err(e)
        case Ok(d) => Ok(Some(d))
  }

  /** One more handle: the loop step of the joining loops. */
  lemma LastJoinedSnoc<H, D>(hs: seq<Result<H, Err.Error>>, h: Result<H, Err.Error>, join: H -> Result<D, Err.Error>)
    ensures LastJoined(hs + [h], join) ==
      if LastJoined(hs, join).Err? then LastJoined(hs, join)
      else if JoinOne(h, join).Err? then Err(JoinOne(h, join).error)
      else Ok(Some(JoinOne(h, join).value))
  {
    assert (hs + [h])[..|hs|] == hs;
  }

  /**
   * Joining succeeds exactly when every handle spawned and joined; then its
   * result is the last handle's; otherwise the error is that of the first
   * handle that failed.
   */
  lemma LastJoinedMeaning<H, D>(hs: seq<Result<H, Err.Error>>, join: H -> Result<D, Err.Error>)
    ensures LastJoined(hs, join).Ok? <==> forall i :: 0 <= i < |hs| ==> JoinOne(hs[i], join).Ok?
    ensures LastJoined(hs, join).Ok? ==>
      LastJoined(hs, join).value == if |hs| == 0 then None else Some(JoinOne(hs[|hs| - 1], join).value)
    ensures LastJoined(hs, join).Err? ==> exists i :: 0 <= i < |hs| && FirstFailure(hs, join, i)
                                                    && LastJoined(hs, join).error == JoinOne(hs[i], join).error
  {
    LastJoinedOk(hs, join);
    LastJoinedErr(hs, join);
  }

  /** Joining succeeds exactly when every handle does, and then keeps the last handle's result. */
  lemma {:induction false} LastJoinedOk<H, D>(hs: seq<Result<H, Err.Error>>, join: H -> Result<D, Err.Error>)
    ensures LastJoined(hs, join).Ok? <==> forall i :: 0 <= i < |hs| ==> JoinOne(hs[i], join).Ok?
    ensures LastJoined(hs, join).Ok? ==>
      LastJoined(hs, join).value == if |hs| == 0 then None else Some(JoinOne(hs[|hs| - 1], join).value)
  {
    if |hs| > 0 {
      var init, last := hs[..|hs| - 1], hs[|hs| - 1];
      assert hs == init + [last];
      LastJoinedSnoc(init, last, join);
      LastJoinedOk(init, join);
      assert forall j :: 0 <= j < |init| ==> hs[j] == init[j];
    }
  }

  /** A failed join carries the error of the first handle that failed. */
  lemma {:induction false} LastJoinedErr<H, D>(hs: seq<Result<H, Err.Error>>, join: H -> Result<D, Err.Error>)
    ensures LastJoined(hs, join).Err? ==> exists i :: 0 <= i < |hs| && FirstFailure(hs, join, i)
                                                    && LastJoined(hs, join).error == JoinOne(hs[i], join).error
  {
    if |hs| > 0 {
      var init, last := hs[..|hs| - 1], hs[|hs| - 1];
      assert hs == init + [last];
      LastJoinedSnoc(init, last, join);
      LastJoinedErr(init, join);
      LastJoinedOk(init, join);
      assert forall j :: 0 <= j < |init| ==> hs[j] == init[j];
      if LastJoined(init, join).Err? {
        var i :| 0 <= i < |init| && FirstFailure(init, join, i) && LastJoined(init, join).error == JoinOne(init[i], join).error;
        assert FirstFailure(hs, join, i);
      } else if JoinOne(last, join).Err? {
        assert FirstFailure(hs, join, |hs| - 1);
      }
    }
  }

  /** Handle `i` failed and every handle before it succeeded. */
  predicate FirstFailure<H, D>(hs: seq<Result<H, Err.Error>>, join: H -> Result<D, Err.Error>, i: int)
    requires 0 <= i < |hs|
  {
    JoinOne(hs[i], join).Err? && forall j :: 0 <= j < i ==> JoinOne(hs[j], join).Ok?
  }
}
