/**
  `useMousePosition`: mouse moves go through `throttle(update, 16)`, which
  calls through at most once per window and drops the calls in between.
  The 16 ms timer is an event: `Expire` is the timer firing. The state
  keeps the counts of invocations and expirations so that the throttle's
  promise can be stated.
 */
module MousePosition {

  datatype Position = Position(x: real, y: real)

  /** `inThrottle`, the position, and counts of invocations, timer
      expirations and timers still pending. `inThrottle` starts undefined,
      which is falsy: false here. */
  datatype State = State(inThrottle: bool, pos: Position, invocations: nat, expirations: nat, pending: nat)

  const Initial: State := State(false, Position(0.0, 0.0), 0, 0, 0)

  datatype Event = Move(clientX: real, clientY: real) | Expire

  /** A move calls through when not throttled, and then starts a timer; a
      move while throttled is dropped. The timer's expiry clears the flag;
      with no timer pending nothing expires. */
  function Step(s: State, e: Event): (t: State)
    ensures e.Move? && !s.inThrottle ==>
      t.pos == Position(e.clientX, e.clientY) && t.inThrottle && t.invocations == s.invocations + 1
    ensures e.Move? && s.inThrottle ==> t == s
    ensures e.Expire? && s.pending > 0 ==> !t.inThrottle && t.pos == s.pos
    ensures t.invocations <= s.invocations + 1
  {
    match e
    case Move(cx, cy) =>
      if !s.inThrottle then
        s.(pos := Position(cx, cy), inThrottle := true, invocations := s.invocations + 1, pending := s.pending + 1)
      else s
    case Expire =>
      if s.pending > 0 then
        s.(inThrottle := false, expirations := s.expirations + 1, pending := s.pending - 1)
      else s
  }

  /** At most one timer is pending, exactly while throttled, and every
      invocation has either expired or is the pending one. */
  ghost predicate Inv(s: State) {
    && s.pending <= 1
    && (s.inThrottle <==> s.pending == 1)
    && s.invocations == s.expirations + s.pending
  }

  lemma StepKeepsInv(s: State, e: Event)
    requires Inv(s)
    ensures Inv(Step(s, e))
  {
  }

  function Run(evs: seq<Event>): State {
    if evs == [] then Initial else Step(Run(evs[..|evs| - 1]), evs[|evs| - 1])
  }

  /** The throttle's promise: the number of invocations never exceeds the
      number of timer expirations plus one. */
  lemma {:induction false} InvocationsBounded(evs: seq<Event>)
    ensures Inv(Run(evs))
    ensures Run(evs).invocations <= Run(evs).expirations + 1
  {
    if evs != [] {
      InvocationsBounded(evs[..|evs| - 1]);
      StepKeepsInv(Run(evs[..|evs| - 1]), evs[|evs| - 1]);
    }
  }

  /** The very first move goes through, because the flag starts falsy. */
  lemma FirstMoveInvokes(x: real, y: real)
    ensures Run([Move(x, y)]).pos == Position(x, y)
    ensures Run([Move(x, y)]).invocations == 1
  {
    assert [Move(x, y)][..0] == [];
  }

  /** Two moves with no expiry in between: the second is dropped, not
      queued, and the position is the first move's. */
  lemma SecondMoveDropped(x1: real, y1: real, x2: real, y2: real)
    ensures Run([Move(x1, y1), Move(x2, y2)]).pos == Position(x1, y1)
    ensures Run([Move(x1, y1), Move(x2, y2)]).invocations == 1
  {
    var evs := [Move(x1, y1), Move(x2, y2)];
    assert evs[..1] == [Move(x1, y1)];
    FirstMoveInvokes(x1, y1);
    assert Run(evs) == Step(Run([Move(x1, y1)]), Move(x2, y2));
  }

  /** The position is the initial `(0, 0)` until the first invocation, and
      afterwards always a position some move carried. */
  lemma {:induction false} PositionFromMoves(evs: seq<Event>)
    ensures Run(evs).invocations == 0 ==> Run(evs).pos == Position(0.0, 0.0)
    ensures Run(evs).invocations > 0 ==>
      exists k :: 0 <= k < |evs| && evs[k].Move? && Run(evs).pos == Position(evs[k].clientX, evs[k].clientY)
  {
    if evs != [] {
      var init := evs[..|evs| - 1];
      PositionFromMoves(init);
      var s := Run(init);
      if Run(evs).invocations > 0 && Run(evs).pos == s.pos && s.invocations > 0 {
        var k :| 0 <= k < |init| && init[k].Move? && s.pos == Position(init[k].clientX, init[k].clientY);
        assert evs[k] == init[k];
      }
    }
  }
}
