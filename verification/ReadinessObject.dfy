/** The readiness stabilizer as an object whose fields each observation updates. */
module ReadinessObject {
  import opened Wire
  import opened HealthClassifier
  import opened Readiness

  class LocalizationReadinessStabilizer {
    const policy: RatePolicy
    var generation: Generation
    var state: Health
    var enterSince: Option<real>
    var exitSince: Option<real>
    var readySince: Option<real>
    var transitionCount: nat

    function State(): Stabilizer
      reads this
    {
      Stabilizer(generation, state, enterSince, exitSince, readySince, transitionCount)
    }

    constructor (policy: RatePolicy)
      ensures State() == Readiness.NEW && this.policy == policy
    {
      this.policy := policy;
      generation, state, enterSince, exitSince, readySince := None, Unavailable, None, None, None;
      transitionCount := 0;
    }

    method Reset(generation: Generation)
      modifies this
      ensures State() == Readiness.Reset(old(State()), generation)
    {
      this.generation, state := generation, Unavailable;
      enterSince, exitSince, readySince := None, None, None;
      transitionCount := 0;
    }

    method MoveTo(state: Health)
      modifies this
      ensures State() == Transition(old(State()), state)
    {
      if state != this.state {
        transitionCount := transitionCount + 1;
        this.state := state;
      }
    }

    method Update(v: Verdict, raw: Option<real>, now: real, generation: Generation)
      returns (r: Result<Report, Failure>)
      modifies this
      ensures (State(), r) == Readiness.Update(old(State()), policy, v, raw, now, generation)
    {
      if now < 0.0 {
        return Err(BadTime);
      }
      var changed := generation != this.generation;
      if changed {
        Reset(generation);
      }
      if !policy.enabled {
        return Ok(Report(v.state, Legacy, 0.0, IsHardFault(v), 0));
      }
      if changed {
        return Ok(Report(Unavailable, HardFault, 0.0, true, 0));
      }
      var band;
      if IsHardFault(v) {
        enterSince, exitSince, readySince := None, None, None;
        MoveTo(v.state);
        band := HardFault;
      } else if state == Ready {
        if raw.None? {
          return Err(RateMissing);
        }
        if raw.value < policy.exitHz {
          if exitSince.None? {
            exitSince := Some(now);
          }
          if Max(0.0, now - exitSince.value) >= policy.exitDwell {
            enterSince, readySince := None, None;
            MoveTo(Degraded);
          }
          band := ExitFailure;
        } else {
          exitSince := None;
          band := if raw.value >= policy.enterHz then Enter else Hysteresis;
        }
      } else if v.state == Ready && raw.Some? {
        exitSince := None;
        if enterSince.None? {
          enterSince := Some(now);
        }
        if Max(0.0, now - enterSince.value) >= policy.enterDwell {
          readySince := enterSince;
          MoveTo(Ready);
        } else {
          MoveTo(Degraded);
        }
        band := Enter;
      } else {
        enterSince, exitSince, readySince := None, None, None;
        MoveTo(Degraded);
        band := ExitFailure;
      }
      return Ok(Report(state, band, Since(readySince, now), IsHardFault(v), transitionCount));
    }
  }
}
