/**
 * The shape shared by every "schedule all" method: one call per period, in
 * order, where an exception from one call ends the method and leaves the
 * registrations of the earlier calls in place.
 */
module Arming {
  import opened Wrappers
  import opened PrayerModel

  /** What one per-period call registers, or the exception it raises. */
  type StepResult = Result<seq<Registration>, Error>

  /** Everything a run registered, and how it ended. */
  datatype Run = Run(registrations: seq<Registration>, outcome: Outcome)

  /** One call followed by the run `next` of the calls after it: an exception ends the run there. */
  function Then(r: StepResult, next: Run): Run {
    match r
    case Failure(e) => Run([], Raised(e))
    case Success(regs) => Run(regs + next.registrations, next.outcome)
  }

  /** The straight-line run of the calls whose results are `results`, stopping at the first exception. */
  function Chain(results: seq<StepResult>): Run
    decreases |results|
  {
    if results == [] then Run([], Completed) else Then(results[0], Chain(results[1..]))
  }

  /** A run is its first call followed by the run of the others. */
  lemma ChainCons(r: StepResult, rs: seq<StepResult>)
    ensures Chain([r] + rs) == Then(r, Chain(rs))
  {
    assert ([r] + rs)[1..] == rs;
  }

  /** The run of six calls, written out call by call. */
  lemma ChainSix(a: StepResult, b: StepResult, c: StepResult, d: StepResult, e: StepResult, f: StepResult)
    ensures Chain([a, b, c, d, e, f]) == Then(a, Then(b, Then(c, Then(d, Then(e, Then(f, Run([], Completed)))))))
  {
    ChainCons(f, []);
    assert [f] + [] == [f];
    ChainCons(e, [f]);
    ChainCons(d, [e, f]);
    ChainCons(c, [d, e, f]);
    ChainCons(b, [c, d, e, f]);
    ChainCons(a, [b, c, d, e, f]);
  }

  /**
   * One call of a straight-line run. If the log will end as `expected` once
   * the call with result `r` and then the run `next` have happened on top of
   * `current`, then after that call either `next` produces the rest of
   * `expected`, or the call raised and `expected` is already reached.
   */
  lemma Advance(expected: seq<Registration>, current: seq<Registration>, r: StepResult, next: Run)
    requires expected == current + Then(r, next).registrations
    ensures r.Success? ==>
              && expected == (current + StepRegistrations(r)) + next.registrations
              && Then(r, next).outcome == next.outcome
    ensures r.Failure? ==>
              && expected == current + StepRegistrations(r)
              && Then(r, next).outcome == StepOutcome(r)
  {
  }

  /** The registrations one call made: none when it raised. */
  function StepRegistrations(r: StepResult): (regs: seq<Registration>)
    ensures r.Failure? ==> regs == []
  {
    if r.Success? then r.value else []
  }

  function StepOutcome<T>(r: Result<T, Error>): (o: Outcome)
    ensures o == Completed <==> r.Success?
    ensures r.Failure? ==> o == Raised(r.error)
  {
    if r.Success? then Completed else Raised(r.error)
  }

  predicate AllSucceed(results: seq<StepResult>) {
    forall i :: 0 <= i < |results| ==> results[i].Success?
  }

  /** The registrations of successful calls, concatenated in order. */
  function Registered(results: seq<StepResult>): seq<Registration>
    requires AllSucceed(results)
    decreases |results|
  {
    if results == [] then [] else results[0].value + Registered(results[1..])
  }

  /** When every call succeeds, the run completes having registered all of them, in order. */
  lemma {:induction false} ChainCompletes(results: seq<StepResult>)
    requires AllSucceed(results)
    ensures Chain(results) == Run(Registered(results), Completed)
    decreases |results|
  {
    if results != [] {
      assert results[0].Success?;
      assert AllSucceed(results[1..]) by {
        forall i | 0 <= i < |results| - 1 ensures results[1..][i].Success? {
          assert results[1..][i] == results[i + 1];
        }
      }
      ChainCompletes(results[1..]);
    }
  }

  /**
   * Partial arming: when call `k` is the first to raise, the run raises its
   * exception and keeps exactly the registrations of calls `0..k-1`.
   */
  lemma {:induction false} ChainStopsAtFirstFailure(results: seq<StepResult>, k: nat)
    requires k < |results| && AllSucceed(results[..k]) && results[k].Failure?
    ensures Chain(results) == Run(Registered(results[..k]), Raised(results[k].error))
    decreases k
  {
    if k > 0 {
      assert results[..k][0] == results[0];
      assert results[0].Success?;
      var done := results[1..][..k - 1];
      assert done == results[..k][1..];
      assert AllSucceed(done) by {
        forall i | 0 <= i < k - 1 ensures done[i].Success? {
          assert done[i] == results[..k][i + 1];
        }
      }
      ChainStopsAtFirstFailure(results[1..], k - 1);
    }
  }

  /** A run completes if and only if every call succeeds. */
  lemma {:induction false} ChainCompletesIff(results: seq<StepResult>)
    ensures Chain(results).outcome == Completed <==> AllSucceed(results)
    decreases |results|
  {
    if results != [] {
      ChainCompletesIff(results[1..]);
      if results[0].Success? && AllSucceed(results[1..]) {
        forall i | 0 <= i < |results| ensures results[i].Success? {
          if i > 0 {
            assert results[i] == results[1..][i - 1];
          }
        }
      }
      if AllSucceed(results) {
        forall i | 0 <= i < |results| - 1 ensures results[1..][i].Success? {
          assert results[1..][i] == results[i + 1];
        }
      }
    }
  }

  /** Without any call the run registers nothing. */
  lemma {:induction false} ChainRegistersOnlyFromCalls(results: seq<StepResult>)
    requires forall i :: 0 <= i < |results| ==> StepRegistrations(results[i]) == []
    ensures Chain(results).registrations == []
    decreases |results|
  {
    if results != [] {
      assert StepRegistrations(results[0]) == [];
      ChainRegistersOnlyFromCalls(results[1..]);
    }
  }

  /**
   * A registration is in a run exactly when some call made it and every
   * call before that one succeeded.
   */
  lemma {:induction false} ChainMembers(results: seq<StepResult>, reg: Registration)
    ensures reg in Chain(results).registrations <==>
              exists i :: 0 <= i < |results| && AllSucceed(results[..i]) && reg in StepRegistrations(results[i])
    decreases |results|
  {
    if results != [] {
      var rest := results[1..];
      ChainMembers(rest, reg);
      if results[0].Failure? {
        forall i | 0 < i < |results|
          ensures !AllSucceed(results[..i])
        {
          assert results[..i][0] == results[0];
        }
      } else {
        assert Chain(results).registrations == results[0].value + Chain(rest).registrations;
        if reg in Chain(results).registrations {
          if reg in results[0].value {
            assert AllSucceed(results[..0]) && reg in StepRegistrations(results[0]);
          } else {
            var j :| 0 <= j < |rest| && AllSucceed(rest[..j]) && reg in StepRegistrations(rest[j]);
            assert results[j + 1] == rest[j];
            var upTo := results[..j + 1];
            assert AllSucceed(upTo) by {
              forall k | 0 <= k < |upTo|
                ensures upTo[k].Success?
              {
                if k > 0 {
                  assert upTo[k] == rest[..j][k - 1];
                }
              }
            }
          }
        }
        if exists i :: 0 <= i < |results| && AllSucceed(results[..i]) && reg in StepRegistrations(results[i]) {
          var i :| 0 <= i < |results| && AllSucceed(results[..i]) && reg in StepRegistrations(results[i]);
          if i > 0 {
            assert rest[i - 1] == results[i];
            var upTo := rest[..i - 1];
            assert AllSucceed(upTo) by {
              forall k | 0 <= k < |upTo|
                ensures upTo[k].Success?
              {
                assert upTo[k] == results[..i][k + 1];
              }
            }
          }
        }
      }
    }
  }

  /** Everything a run registers was registered by one of its calls. */
  lemma ChainFromCalls(results: seq<StepResult>)
    ensures forall reg :: reg in Chain(results).registrations ==>
              exists i :: 0 <= i < |results| && reg in StepRegistrations(results[i])
  {
    forall reg | reg in Chain(results).registrations
      ensures exists i :: 0 <= i < |results| && reg in StepRegistrations(results[i])
    {
      ChainMembers(results, reg);
    }
  }

  /**
   * When the call at position `i` can only register tasks for the period at
   * position `base + i`, and at most one, the run registers periods in
   * strictly increasing order: at most once each, earlier periods first.
   */
  lemma {:induction false} ChainInPeriodOrder(results: seq<StepResult>, base: nat)
    requires forall i :: 0 <= i < |results| ==> |StepRegistrations(results[i])| <= 1
    requires forall i, r :: 0 <= i < |results| && r in StepRegistrations(results[i]) ==> Ordinal(r.task.period) == base + i
    ensures forall p :: 0 <= p < |Chain(results).registrations| ==> base <= Ordinal(Chain(results).registrations[p].task.period)
    ensures forall p, q :: 0 <= p < q < |Chain(results).registrations| ==>
              Ordinal(Chain(results).registrations[p].task.period) < Ordinal(Chain(results).registrations[q].task.period)
    decreases |results|
  {
    if results != [] && results[0].Success? {
      var rest := results[1..];
      forall i | 0 <= i < |rest|
        ensures |StepRegistrations(rest[i])| <= 1
      {
        assert rest[i] == results[i + 1];
      }
      forall i, r | 0 <= i < |rest| && r in StepRegistrations(rest[i])
        ensures Ordinal(r.task.period) == base + 1 + i
      {
        assert rest[i] == results[i + 1];
      }
      ChainInPeriodOrder(rest, base + 1);
      var first := results[0].value;
      var later := Chain(rest).registrations;
      var regs := Chain(results).registrations;
      assert regs == first + later;
      assert forall r :: r in first ==> Ordinal(r.task.period) == base;
      forall p | 0 <= p < |regs|
        ensures base <= Ordinal(regs[p].task.period)
      {
        if p >= |first| {
          assert regs[p] == later[p - |first|];
        } else {
          assert regs[p] in first;
        }
      }
      forall p, q | 0 <= p < q < |regs|
        ensures Ordinal(regs[p].task.period) < Ordinal(regs[q].task.period)
      {
        if p >= |first| {
          assert regs[p] == later[p - |first|] && regs[q] == later[q - |first|];
        } else {
          assert regs[p] in first && |first| == 1;
          assert regs[q] == later[q - 1];
        }
      }
    }
  }

  /** How a run ends depends only on how each call ends, not on what it registers. */
  lemma {:induction false} ChainOutcomeOfOutcomes(rs: seq<StepResult>, ss: seq<StepResult>)
    requires |rs| == |ss|
    requires forall i :: 0 <= i < |rs| ==> StepOutcome(rs[i]) == StepOutcome(ss[i])
    ensures Chain(rs).outcome == Chain(ss).outcome
    decreases |rs|
  {
    if rs != [] {
      forall i | 0 <= i < |rs| - 1
        ensures StepOutcome(rs[1..][i]) == StepOutcome(ss[1..][i])
      {
        assert rs[1..][i] == rs[i + 1] && ss[1..][i] == ss[i + 1];
      }
      ChainOutcomeOfOutcomes(rs[1..], ss[1..]);
      assert StepOutcome(rs[0]) == StepOutcome(ss[0]);
    }
  }

  /**
   * In a run whose call `i` only registers tasks of the period at position
   * `i`, a registration is in the run exactly when its period's call made it
   * and every call before that one succeeded.
   */
  lemma ChainMembersByPeriod(results: seq<StepResult>, reg: Registration)
    requires forall i, r :: 0 <= i < |results| && r in StepRegistrations(results[i]) ==> Ordinal(r.task.period) == i
    ensures reg in Chain(results).registrations <==>
              && Ordinal(reg.task.period) < |results|
              && AllSucceed(results[..Ordinal(reg.task.period)])
              && reg in StepRegistrations(results[Ordinal(reg.task.period)])
  {
    ChainMembers(results, reg);
  }

  /** When every call succeeds registering exactly `regs[i]`, the run completes with `regs`. */
  lemma {:induction false} ChainSingletons(results: seq<StepResult>, regs: seq<Registration>)
    requires |results| == |regs|
    requires forall i :: 0 <= i < |results| ==> results[i] == Success([regs[i]])
    ensures Chain(results) == Run(regs, Completed)
    decreases |results|
  {
    if results != [] {
      forall i | 0 <= i < |results| - 1
        ensures results[1..][i] == Success([regs[1..][i]])
      {
        assert results[1..][i] == results[i + 1];
      }
      ChainSingletons(results[1..], regs[1..]);
      assert [regs[0]] + regs[1..] == regs;
    }
  }
}
