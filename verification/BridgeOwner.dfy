/** Who owns the robot, read off the commands that arrived and nothing else: the watchdog's owner,
    the time it heard from it last and its table of numbers are all readings of this history. */
module BridgeOwner {
  import opened Wire
  import opened SportApi
  import opened BridgeCore
  import opened BridgeRuns
  import opened BridgeAdmission
  import opened BridgeReplay

  // ----- the history of commands ---------------------------------------------------------------

  /** A command that passed the number and ownership checks. */
  datatype Pass = Pass(source: string, serial: int, at: real)

  function Numbers(passes: seq<Pass>): seq<Seen> {
    if passes == [] then []
    else Numbers(passes[..|passes| - 1]) + [Seen(passes[|passes| - 1].source, passes[|passes| - 1].serial)]
  }

  function Owner(passes: seq<Pass>): string {
    if passes == [] then "" else passes[|passes| - 1].source
  }

  function LastHeard(passes: seq<Pass>): real {
    if passes == [] then 0.0 else passes[|passes| - 1].at
  }

  /** The last command that passed came from somebody else, no longer than the source timeout ago. */
  predicate HeldByAnother(c: Settings, passes: seq<Pass>, source: string, at: real) {
    passes != [] && Owner(passes) != source && at - LastHeard(passes) <= c.sourceTimeout
  }

  predicate IsNew(passes: seq<Pass>, source: string, serial: int) {
    serial > Remembered(Numbers(passes), source)
  }

  /** A well formed command passes with a new number, and a stop needs nothing else; any other
      must not come while another source holds the robot. */
  predicate Passing(c: Settings, passes: seq<Pass>, p: Payload, at: real, age: Value) {
    && WellFormed(c, p, age)
    && IsNew(passes, p.source.text, p.sequence.whole)
    && (p.kind == Some(StopKind) || !HeldByAnother(c, passes, p.source.text, at))
  }

  /** All commands that pass, in the order they arrived. */
  function Passes(c: Settings, events: seq<Event>): seq<Pass> {
    if events == [] then []
    else
      var before, e := Passes(c, events[..|events| - 1]), events[|events| - 1];
      if e.Receive? && Passing(c, before, e.payload, e.at, e.age) then
        before + [Pass(e.payload.source.text, e.payload.sequence.whole, e.at)]
      else before
  }

  // ----- the watchdog's record is a reading of it -------------------------------------------------

  lemma ValidMeans(c: Settings, p: Payload, age: Value)
    ensures Validate(c, p, age).Ok? <==> WellFormed(c, p, age)
    ensures Validate(c, p, age).Ok? ==>
              Validate(c, p, age).value
              == Header(p.kind.value, p.source.text, p.sequence.whole, FiniteNumber(age).value)
  {}

  ghost predicate Known(passes: seq<Pass>) {
    forall i :: 0 <= i < |passes| ==> passes[i].source != ""
  }

  predicate OwnedAs(s: Bridge, passes: seq<Pass>) {
    s.sourceId == Owner(passes) && s.lastReceived == LastHeard(passes)
  }

  lemma CommandKeepsOwner(s: Bridge, p: Payload, h: Header, now: real)
    ensures Dispatch(s, p, h, now).state.sourceId == s.sourceId
    ensures Dispatch(s, p, h, now).state.lastReceived == s.lastReceived
  {}

  lemma TickKeepsOwner(s: Bridge, now: real, e: Surroundings)
    ensures Tick(s, now, e).state.sourceId == s.sourceId && Tick(s, now, e).state.lastReceived == s.lastReceived
  {}

  /** The checks of the watchdog, in terms of the history its record stands for. */
  lemma AdmissionIsPassing(s: Bridge, passes: seq<Pass>, p: Payload, at: real, age: Value)
    requires OwnedAs(s, passes) && Known(passes) && WellFormed(s.cfg, p, age)
    requires LastSeq(s.seen, p.source.text) == Remembered(Numbers(passes), p.source.text)
    ensures Validate(s.cfg, p, age).Ok?
    ensures var admitted := AcceptSource(s, Validate(s.cfg, p, age).value, at);
            && (admitted.Ok? <==> Passing(s.cfg, passes, p, at, age))
            && (admitted == Err(OtherSourceOwnsBridge) <==>
                  && p.kind != Some(StopKind) && IsNew(passes, p.source.text, p.sequence.whole)
                  && HeldByAnother(s.cfg, passes, p.source.text, at))
            && (admitted.Ok? ==> admitted.value.sourceId == p.source.text && admitted.value.lastReceived == at)
  {
    ValidMeans(s.cfg, p, age);
  }

  /** Where a command leaves the owner: a refused one leaves everything alone. */
  lemma AcceptOwner(s: Bridge, p: Payload, at: real, age: Value)
    ensures var r := Accept(s, p, at, age).state;
            if WellFormed(s.cfg, p, age) && Validate(s.cfg, p, age).Ok?
               && AcceptSource(s, Validate(s.cfg, p, age).value, at).Ok?
            then r.sourceId == p.source.text && r.lastReceived == at
            else r.sourceId == s.sourceId && r.lastReceived == s.lastReceived
  {
    ValidMeans(s.cfg, p, age);
    if WellFormed(s.cfg, p, age) {
      var h := Validate(s.cfg, p, age).value;
      if AcceptSource(s, h, at).Ok? {
        CommandKeepsOwner(AcceptSource(s, h, at).value, p, h, at);
      }
    }
  }

  lemma AcceptOwns(s: Bridge, passes: seq<Pass>, p: Payload, at: real, age: Value)
    requires OwnedAs(s, passes) && Known(passes)
    requires WellFormed(s.cfg, p, age) ==>
               LastSeq(s.seen, p.source.text) == Remembered(Numbers(passes), p.source.text)
    ensures var r := Accept(s, p, at, age).state;
            if Passing(s.cfg, passes, p, at, age) then r.sourceId == p.source.text && r.lastReceived == at
            else OwnedAs(r, passes)
    ensures Stored(s, Receive(at, p, age))
            == if Passing(s.cfg, passes, p, at, age) then Some(Seen(p.source.text, p.sequence.whole)) else None
  {
    AcceptOwner(s, p, at, age);
    ValidMeans(s.cfg, p, age);
    if WellFormed(s.cfg, p, age) {
      AdmissionIsPassing(s, passes, p, at, age);
    }
  }

  lemma PassesStep(c: Settings, events: seq<Event>, e: Event)
    ensures Passes(c, events + [e]) ==
            if e.Receive? && Passing(c, Passes(c, events), e.payload, e.at, e.age)
            then Passes(c, events) + [Pass(e.payload.source.text, e.payload.sequence.whole, e.at)]
            else Passes(c, events)
    ensures Run(c, events + [e]) == Apply(Run(c, events), e)
    ensures Stores(c, events + [e]) ==
            match Stored(Run(c, events).core, e)
            case None => Stores(c, events)
            case Some(x) => Stores(c, events) + [x]
  {
    assert (events + [e])[..|events|] == events;
  }

  lemma NumbersGrow(passes: seq<Pass>, pass: Pass)
    ensures Numbers(passes + [pass]) == Numbers(passes) + [Seen(pass.source, pass.serial)]
  {
    assert (passes + [pass])[..|passes|] == passes;
  }

  ghost predicate OwnerRead(core: Bridge, stores: seq<Seen>, passes: seq<Pass>) {
    OwnedAs(core, passes) && Known(passes) && stores == Numbers(passes)
  }

  lemma OwnerStep(c: Settings, events: seq<Event>, e: Event)
    requires OwnerRead(Run(c, events).core, Stores(c, events), Passes(c, events))
    ensures OwnerRead(Run(c, events + [e]).core, Stores(c, events + [e]), Passes(c, events + [e]))
  {
    var s, passes := Run(c, events).core, Passes(c, events);
    PassesStep(c, events, e);
    TableIsRecent(c, events);
    match e
    case Receive(at, p, age) =>
      if WellFormed(c, p, age) {
        TableRemembers(c, events, p.source.text);
      }
      AcceptOwns(s, passes, p, at, age);
      if Passing(c, passes, p, at, age) {
        NumbersGrow(passes, Pass(p.source.text, p.sequence.whole, at));
      }
    case Force(_, _) =>
    case Pulse(at, surroundings) => TickKeepsOwner(s, at, surroundings);
  }

  lemma {:induction false} OwnerReads(c: Settings, events: seq<Event>)
    ensures OwnerRead(Run(c, events).core, Stores(c, events), Passes(c, events))
  {
    if events != [] {
      var before, e := events[..|events| - 1], events[|events| - 1];
      assert events == before + [e];
      OwnerReads(c, before);
      OwnerStep(c, before, e);
    }
  }

  /** After every run the owner, the time it was last heard and the numbers in the table are those
      of the commands that passed. */
  lemma OwnerIsLastPass(c: Settings, events: seq<Event>)
    ensures Run(c, events).core.sourceId == Owner(Passes(c, events))
    ensures Run(c, events).core.lastReceived == LastHeard(Passes(c, events))
    ensures Stores(c, events) == Numbers(Passes(c, events)) && Known(Passes(c, events))
  {
    OwnerReads(c, events);
  }

  // ----- who is turned away ---------------------------------------------------------------------

  /** Past the ownership check nobody is told that another source owns the robot. */
  lemma NeverForeign(s: Bridge, p: Payload, h: Header, now: real)
    ensures Dispatch(s, p, h, now).effect != Rejected(OtherSourceOwnsBridge)
  {}

  /** A well formed command with a new number is turned away as foreign exactly when it is no stop
      and the last command that passed came from another source, no longer than the source timeout
      ago. */
  lemma OwnershipIsExact(c: Settings, events: seq<Event>, p: Payload, at: real, age: Value)
    requires WellFormed(c, p, age) && IsNew(Passes(c, events), p.source.text, p.sequence.whole)
    ensures Accept(Run(c, events).core, p, at, age).effect == Rejected(OtherSourceOwnsBridge) <==>
              p.kind != Some(StopKind) && HeldByAnother(c, Passes(c, events), p.source.text, at)
  {
    var s, passes := Run(c, events).core, Passes(c, events);
    OwnerIsLastPass(c, events);
    TableIsRecent(c, events);
    TableRemembers(c, events, p.source.text);
    AdmissionIsPassing(s, passes, p, at, age);
    var h := Validate(c, p, age).value;
    if AcceptSource(s, h, at).Ok? {
      NeverForeign(AcceptSource(s, h, at).value, p, h, at);
    }
  }

  /** A command takes an effect, or is refused after the checks, only when it passes. */
  lemma OnlyPassesTakeEffect(c: Settings, events: seq<Event>, p: Payload, at: real, age: Value)
    ensures !Accept(Run(c, events).core, p, at, age).effect.Rejected? ==>
              Passing(c, Passes(c, events), p, at, age)
  {
    var s, passes := Run(c, events).core, Passes(c, events);
    OwnerIsLastPass(c, events);
    TableIsRecent(c, events);
    ValidMeans(c, p, age);
    if WellFormed(c, p, age) {
      TableRemembers(c, events, p.source.text);
      AdmissionIsPassing(s, passes, p, at, age);
    }
  }
}
