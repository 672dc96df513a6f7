/** The per-connection clock that keeps queued browser frames from passing as fresh. Times are
    in milliseconds. */
module ClientClock {
  import opened Wire

  const MAX_AGE := 200.0
  const MAX_FUTURE := 500.0

  datatype ClockError = NotFinite | MovedBackwards | QueuedFrame | StaleFrame | ClientClockChanged

  datatype Clock = Clock(offset: real, lastClient: real, lastServer: real)

  function FiniteMs(v: Value): Option<real> {
    match v
    case Int(i) => if i >= 0 then Some(i as real) else None
    case Float(f) => if f >= 0.0 then Some(f) else None
    case _ => None
  }

  /** The age of a frame, or why it is refused. */
  function Check(c: Clock, client: real, server: real): Result<real, ClockError> {
    var age := server - (client + c.offset);
    if client < c.lastClient || server < c.lastServer then Err(MovedBackwards)
    else if (server - c.lastServer) - (client - c.lastClient) > MAX_AGE then Err(QueuedFrame)
    else if age > MAX_AGE then Err(StaleFrame)
    else if age < -MAX_FUTURE then Err(ClientClockChanged)
    else Ok(age)
  }

  class ClientFrameClock {
    const offset: real
    var lastClient: real
    var lastServer: real

    function State(): Clock
      reads this
    {
      Clock(offset, lastClient, lastServer)
    }

    constructor (client: real, server: real)
      ensures State() == Clock(server - client, client, server)
    {
      offset := server - client;
      lastClient, lastServer := client, server;
    }

    method Validate(clientTime: Value, serverTime: Value) returns (r: Result<real, ClockError>)
      modifies this
      ensures match (FiniteMs(clientTime), FiniteMs(serverTime))
              case (Some(client), Some(server)) =>
                && r == Check(old(State()), client, server)
                && State() == (if r.Ok? then Clock(offset, client, server) else old(State()))
              case _ => r == Err(NotFinite) && State() == old(State())
    {
      var c, s := FiniteMs(clientTime), FiniteMs(serverTime);
      if c.None? || s.None? {
        return Err(NotFinite);
      }
      var client, server := c.value, s.value;
      var clientElapsed, serverElapsed := client - lastClient, server - lastServer;
      if clientElapsed < 0.0 || serverElapsed < 0.0 {
        return Err(MovedBackwards);
      }
      if serverElapsed - clientElapsed > MAX_AGE {
        return Err(QueuedFrame);
      }
      var age := server - (client + offset);
      if age > MAX_AGE {
        return Err(StaleFrame);
      }
      if age < -MAX_FUTURE {
        return Err(ClientClockChanged);
      }
      lastClient, lastServer := client, server;
      return Ok(age);
    }
  }

  // ----- runs ----------------------------------------------------------------------------

  datatype Frame = Frame(client: real, server: real)

  /** The clock after the bind frame and a series of frames, refused ones among them. */
  function Run(bind: Frame, frames: seq<Frame>): Clock {
    if frames == [] then Clock(bind.server - bind.client, bind.client, bind.server)
    else
      var c, f := Run(bind, frames[..|frames| - 1]), frames[|frames| - 1];
      if Check(c, f.client, f.server).Ok? then Clock(c.offset, f.client, f.server) else c
  }

  /** The frames of a series that are taken, the bind frame first. */
  function Taken(bind: Frame, frames: seq<Frame>): (taken: seq<Frame>)
    ensures taken != [] && taken[0] == bind
  {
    if frames == [] then [bind]
    else
      var before, f := frames[..|frames| - 1], frames[|frames| - 1];
      if Check(Run(bind, before), f.client, f.server).Ok? then Taken(bind, before) + [f] else Taken(bind, before)
  }

  /** How much later than the bind frame's a frame's arrival is than its stamp. */
  function Lag(bind: Frame, f: Frame): real {
    (f.server - f.client) - (bind.server - bind.client)
  }

  /** The reference stays the bind frame and the last frame taken, whatever is refused. */
  lemma {:induction false} ClockIsTheLastTaken(bind: Frame, frames: seq<Frame>)
    ensures var taken := Taken(bind, frames); var last := taken[|taken| - 1];
            Run(bind, frames) == Clock(bind.server - bind.client, last.client, last.server)
  {
    if frames != [] {
      ClockIsTheLastTaken(bind, frames[..|frames| - 1]);
    }
  }

  /** A time is any number that is not negative, and nothing else. */
  lemma TimeIsExact(v: Value, t: real)
    ensures FiniteMs(v) == Some(t) <==> t >= 0.0 && (v == Float(t) || (v.Int? && v.whole as real == t))
  {}

  /** What becomes of a frame, from the frames taken before it: it must not run back behind the last
      of them on either clock, its lag must not have grown by more than 200 ms since, and must itself
      lie between -500 and 200 ms; it is then its age. */
  function Judged(bind: Frame, last: Frame, f: Frame): Result<real, ClockError> {
    if f.client < last.client || f.server < last.server then Err(MovedBackwards)
    else if Lag(bind, f) - Lag(bind, last) > 200.0 then Err(QueuedFrame)
    else if Lag(bind, f) > 200.0 then Err(StaleFrame)
    else if Lag(bind, f) < -500.0 then Err(ClientClockChanged)
    else Ok(Lag(bind, f))
  }

  lemma FramesAreJudged(bind: Frame, frames: seq<Frame>, f: Frame)
    ensures var taken := Taken(bind, frames);
            Check(Run(bind, frames), f.client, f.server) == Judged(bind, taken[|taken| - 1], f)
  {
    ClockIsTheLastTaken(bind, frames);
  }

  ghost predicate InOrder(bind: Frame, taken: seq<Frame>) {
    && (forall k :: 0 <= k < |taken| ==> -MAX_FUTURE <= Lag(bind, taken[k]) <= MAX_AGE)
    && forall j, k :: 0 <= j <= k < |taken| ==>
         taken[j].client <= taken[k].client && taken[j].server <= taken[k].server
  }

  /** In any series, every frame taken lags the bind frame by at most 200 ms and runs ahead of it
      by at most 500 ms, and neither clock runs backwards: a stall never makes a queued frame
      look fresh, because the offset never moves. */
  lemma {:induction false} TakenFramesAreFresh(bind: Frame, frames: seq<Frame>)
    ensures InOrder(bind, Taken(bind, frames))
  {
    if frames != [] {
      var before, f := frames[..|frames| - 1], frames[|frames| - 1];
      TakenFramesAreFresh(bind, before);
      ClockIsTheLastTaken(bind, before);
      var taken := Taken(bind, before);
      if Check(Run(bind, before), f.client, f.server).Ok? {
        assert Lag(bind, f) == f.server - (f.client + (bind.server - bind.client));
        forall j | 0 <= j < |taken| ensures taken[j].client <= f.client && taken[j].server <= f.server {
          assert taken[j].client <= taken[|taken| - 1].client && taken[j].server <= taken[|taken| - 1].server;
        }
      }
    }
  }

  /** With stamps that are send times on a clock differing from the server's by any constant, a
      frame taken was under way at most 200 ms longer than the bind frame. */
  lemma TransitIsBounded(bind: Frame, frames: seq<Frame>, skew: real, bindSent: real, sent: real, k: nat)
    requires k < |Taken(bind, frames)| && bind.client == bindSent + skew
    requires Taken(bind, frames)[k].client == sent + skew
    ensures Taken(bind, frames)[k].server - sent <= (bind.server - bindSent) + MAX_AGE
  {
    TakenFramesAreFresh(bind, frames);
    assert Lag(bind, Taken(bind, frames)[k]) <= MAX_AGE;
  }
}
