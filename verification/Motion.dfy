/** LineSegmentsMobilityBase over BasicMobility: a host moves along line segments in steps,
    and is sent back into the playground by one of several border policies. */
module Motion {
  import opened Options
  import opened Coords

  /** What setTargetPosition chooses. */
  datatype Plan = Plan(target: Coord, time: real, stationary: bool)

  datatype Border = Reflect | Wrap | PlaceRandomly(at: Coord) | RaiseError

  /** `next` is when the self-message is due.  `early` is bookkeeping: by how much the
      present segment was begun before the planned end of the one before. */
  datatype State = State(now: real, pos: Coord, step: Coord, target: Coord, targetTime: real,
                         stationary: bool, next: Option<real>, early: real)

  function Plus(a: Coord, b: Coord): Coord {
    Coord(a.x + b.x, a.y + b.y)
  }

  function Minus(a: Coord, b: Coord): Coord {
    Coord(a.x - b.x, a.y - b.y)
  }

  function Divide(a: Coord, r: real): Coord
    requires r != 0.0
  {
    Coord(a.x / r, a.y / r)
  }

  // ---------------------------------------------------------------- borders

  /** One coordinate: position, target, step. */
  datatype Axis = Axis(pos: real, target: real, step: real)

  function ReflectAxis(size: real, a: Axis): Axis {
    if a.pos < 0.0 then Axis(-a.pos, -a.target, -a.step)
    else if a.pos >= size then Axis(2.0 * size - a.pos, 2.0 * size - a.target, -a.step)
    else a
  }

  function WrapAxis(size: real, a: Axis): Axis {
    if a.pos < 0.0 then Axis(a.pos + size, a.target + size, a.step)
    else if a.pos >= size then Axis(a.pos - size, a.target - size, a.step)
    else a
  }

  predicate Within(size: real, x: real) {
    0.0 <= x < size
  }

  predicate Inside(size: Coord, p: Coord) {
    Within(size.x, p.x) && Within(size.y, p.y)
  }

  function AxisX(s: State): Axis {
    Axis(s.pos.x, s.target.x, s.step.x)
  }

  function AxisY(s: State): Axis {
    Axis(s.pos.y, s.target.y, s.step.y)
  }

  function WithAxes(s: State, a: Axis, b: Axis): State {
    s.(pos := Coord(a.pos, b.pos), target := Coord(a.target, b.target), step := Coord(a.step, b.step))
  }

  /** handleIfOutside; None where the policy raises an error. */
  function FixIfOutside(size: Coord, policy: Border, s: State): Option<State> {
    match policy
    case Reflect => Some(WithAxes(s, ReflectAxis(size.x, AxisX(s)), ReflectAxis(size.y, AxisY(s))))
    case Wrap => Some(WithAxes(s, WrapAxis(size.x, AxisX(s)), WrapAxis(size.y, AxisY(s))))
    case PlaceRandomly(at) =>
      Some(if Inside(size, s.pos) then s else s.(target := Plus(s.target, Minus(at, s.pos)), pos := at))
    case RaiseError => if Inside(size, s.pos) then Some(s) else None
  }

  /** Reflection brings a coordinate back exactly if it is less than one playground out on
      the low side or at most one on the high side, and not on the far edge itself. */
  lemma ReflectedInside(size: real, a: Axis)
    requires size > 0.0
    ensures Within(size, ReflectAxis(size, a).pos) <==> -size < a.pos <= 2.0 * size && a.pos != size
  {
  }

  lemma WrappedInside(size: real, a: Axis)
    requires size > 0.0
    ensures Within(size, WrapAxis(size, a).pos) <==> -size <= a.pos < 2.0 * size
  {
  }

  /** The mirror image in a wall: as far behind it as before it, and moving back. */
  predicate Mirrored(wall: real, a: Axis, a': Axis) {
    a'.pos - wall == wall - a.pos && a'.target - wall == wall - a.target && a'.step == -a.step
  }

  predicate Shifted(shift: real, a: Axis, a': Axis) {
    a'.pos == a.pos + shift && a'.target == a.target + shift && a'.step == a.step
  }

  /** What a policy owes on one axis: nothing inside, at the low wall and at the high one. */
  predicate ReflectsAxis(size: real, a: Axis, a': Axis) {
    if Within(size, a.pos) then a' == a else Mirrored(if a.pos < 0.0 then 0.0 else size, a, a')
  }

  predicate WrapsAxis(size: real, a: Axis, a': Axis) {
    if Within(size, a.pos) then a' == a else Shifted(if a.pos < 0.0 then size else -size, a, a')
  }

  /** What each policy does: a host inside stays as it is; one outside is mirrored or
      shifted on each axis that is out, put at the chosen place with its target moved
      along, or is an error. */
  lemma BorderEffect(size: Coord, policy: Border, s: State)
    requires size.x > 0.0 && size.y > 0.0
    ensures var o := FixIfOutside(size, policy, s);
            && (o.None? <==> policy.RaiseError? && !Inside(size, s.pos))
            && (Inside(size, s.pos) ==> o == Some(s))
            && (o.Some? && policy.Reflect? ==>
                  ReflectsAxis(size.x, AxisX(s), AxisX(o.value)) && ReflectsAxis(size.y, AxisY(s), AxisY(o.value)))
            && (o.Some? && policy.Wrap? ==>
                  WrapsAxis(size.x, AxisX(s), AxisX(o.value)) && WrapsAxis(size.y, AxisY(s), AxisY(o.value)))
            && (policy.PlaceRandomly? && !Inside(size, s.pos) ==>
                  && o.value.pos == policy.at && o.value.step == s.step
                  && Minus(o.value.target, o.value.pos) == Minus(s.target, s.pos))
  {
  }

  // --------------------------------------------------------------- movement

  /** beginNextMove, at time `now`; None for a target time in the past, or for moving in no
      time at all, where the step would be infinite. */
  function BeginNextMove(ui: real, s: State, plan: Plan): Option<State>
    requires ui > 0.0
  {
    var s1 := s.(pos := s.target, target := plan.target, targetTime := plan.time, stationary := plan.stationary,
                 early := s.targetTime - s.now);
    if plan.time < s.targetTime then None
    else if plan.stationary then Some(s1.(step := Coord(0.0, 0.0), next := None))
    else if plan.target == s.target then
      Some(s1.(step := Coord(0.0, 0.0), next := Some(if plan.time < s.now then s.now else plan.time)))
    else if plan.time == s.targetTime then None
    else
      var numIntervals := (plan.time - s.targetTime) / ui;
      Some(s1.(step := Divide(Minus(plan.target, s.target), numIntervals), next := Some(s.now + ui)))
  }

  /** handleSelfMsg: next move if due, one step, and the border. */
  function HandleSelfMsg(ui: real, size: Coord, s: State, plan: Plan, policy: Border): Option<State>
    requires ui > 0.0 && s.next.Some?
  {
    var s0 := s.(now := s.next.value);
    if s.stationary then Some(s0.(next := None))
    else
      var s1 := if s0.now + ui >= s.targetTime then BeginNextMove(ui, s0, plan)
                else Some(s0.(next := Some(s0.now + ui)));
      if s1.None? then None else Move(size, s1.value, policy)
  }

  function Move(size: Coord, s: State, policy: Border): Option<State> {
    FixIfOutside(size, policy, s.(pos := Plus(s.pos, s.step)))
  }

  /** initialize, with the random delay of the first event. */
  function Initial(pos: Coord, delay: real): State {
    State(0.0, pos, Coord(0.0, 0.0), pos, 0.0, false, Some(delay), 0.0)
  }

  /** A host that is to stop does so where the last segment was to end, and sends no more
      messages; one that has stopped stays. */
  lemma StopsAtTarget(ui: real, size: Coord, s: State, plan: Plan, policy: Border)
    requires ui > 0.0 && s.next.Some? && HandleSelfMsg(ui, size, s, plan, policy).Some?
    ensures var s' := HandleSelfMsg(ui, size, s, plan, policy).value;
            && (s.stationary ==> s'.pos == s.pos && s'.next.None?)
            && (!s.stationary && s.next.value + ui >= s.targetTime && plan.stationary ==>
                  s'.stationary && s'.next.None? && (Inside(size, s.target) ==> s'.pos == s.target))
  {
  }

  /** Nothing fails but a plan that goes back in time or moves in none, and a border policy
      that raises an error. */
  lemma FailsIff(ui: real, size: Coord, s: State, plan: Plan, policy: Border)
    requires ui > 0.0 && s.next.Some? && !s.stationary && !policy.RaiseError?
    ensures HandleSelfMsg(ui, size, s, plan, policy).None? <==>
              && s.next.value + ui >= s.targetTime
              && (plan.time < s.targetTime
                  || (!plan.stationary && plan.target != s.target && plan.time == s.targetTime))
  {
  }

  // -------------------------------------------------------------- invariant

  /** The target is the step times r intervals away, r being given as time over ui. */
  predicate Away(ui: real, a: Axis, time: real) {
    ui * (a.target - a.pos) == a.step * time
  }

  predicate BothAway(ui: real, s: State, time: real) {
    Away(ui, AxisX(s), time) && Away(ui, AxisY(s), time)
  }

  predicate Waiting(s: State) {
    s.step == Coord(0.0, 0.0) && s.target == s.pos
  }

  /** The time that the steps still to come stand for: up to the target time, from the next
      event on, less what the segment was begun early. */
  function TimeLeft(s: State): real
    requires s.next.Some?
  {
    s.targetTime - s.next.value - s.early
  }

  predicate Inv(ui: real, s: State) {
    !s.stationary ==>
      && s.next.Some?
      && (Waiting(s) || (s.next.value == s.now + ui && BothAway(ui, s, TimeLeft(s))))
  }

  lemma ReflectAway(ui: real, size: real, a: Axis, time: real)
    requires Away(ui, a, time)
    ensures Away(ui, ReflectAxis(size, a), time)
  {
    assert ui * ((-a.target) - (-a.pos)) == -(ui * (a.target - a.pos));
    assert ui * ((2.0 * size - a.target) - (2.0 * size - a.pos)) == -(ui * (a.target - a.pos));
    assert (-a.step) * time == -(a.step * time);
  }

  lemma WrapAway(ui: real, size: real, a: Axis, time: real)
    requires Away(ui, a, time)
    ensures Away(ui, WrapAxis(size, a), time)
  {
    assert (a.target + size) - (a.pos + size) == a.target - a.pos;
    assert (a.target - size) - (a.pos - size) == a.target - a.pos;
  }

  /** Whatever the border policy does, it does to the target as well. */
  lemma FixKeepsAway(ui: real, size: Coord, policy: Border, s: State, time: real)
    requires BothAway(ui, s, time) && FixIfOutside(size, policy, s).Some?
    ensures BothAway(ui, FixIfOutside(size, policy, s).value, time)
  {
    match policy
    case Reflect =>
      ReflectAway(ui, size.x, AxisX(s), time);
      ReflectAway(ui, size.y, AxisY(s), time);
    case Wrap =>
      WrapAway(ui, size.x, AxisX(s), time);
      WrapAway(ui, size.y, AxisY(s), time);
    case PlaceRandomly(at) =>
      assert s.target.x + (at.x - s.pos.x) - at.x == s.target.x - s.pos.x;
      assert s.target.y + (at.y - s.pos.y) - at.y == s.target.y - s.pos.y;
    case RaiseError =>
  }

  lemma FixKeepsWaiting(size: Coord, policy: Border, s: State)
    requires Waiting(s) && FixIfOutside(size, policy, s).Some?
    ensures Waiting(FixIfOutside(size, policy, s).value)
  {
  }

  lemma FixKeepsTimes(size: Coord, policy: Border, s: State)
    requires FixIfOutside(size, policy, s).Some?
    ensures var s' := FixIfOutside(size, policy, s).value;
            s' == s.(pos := s'.pos, target := s'.target, step := s'.step)
  {
  }

  /** One step is worth one interval. */
  lemma StepAway(ui: real, a: Axis, time: real)
    requires Away(ui, a, time)
    ensures Away(ui, Axis(a.pos + a.step, a.target, a.step), time - ui)
  {
    assert ui * (a.target - (a.pos + a.step)) == ui * (a.target - a.pos) - ui * a.step;
    assert a.step * (time - ui) == a.step * time - a.step * ui;
  }

  /** At its beginning a segment is as long as planned. */
  lemma BeginAway(ui: real, from: real, to: real, time: real)
    requires ui > 0.0 && time > 0.0
    ensures Away(ui, Axis(from, to, (to - from) / (time / ui)), time)
  {
    var n := time / ui;
    assert n * ui == time;
    var step := (to - from) / n;
    assert step * n == to - from;
    assert step * time == (step * n) * ui;
  }

  lemma MoveAway(ui: real, size: Coord, s: State, policy: Border, time: real)
    requires BothAway(ui, s, time) && Move(size, s, policy).Some?
    ensures BothAway(ui, Move(size, s, policy).value, time - ui)
  {
    StepAway(ui, AxisX(s), time);
    StepAway(ui, AxisY(s), time);
    FixKeepsAway(ui, size, policy, s.(pos := Plus(s.pos, s.step)), time - ui);
  }

  lemma MoveWaiting(size: Coord, s: State, policy: Border)
    requires Waiting(s) && Move(size, s, policy).Some?
    ensures Waiting(Move(size, s, policy).value)
  {
    FixKeepsWaiting(size, policy, s.(pos := Plus(s.pos, s.step)));
  }

  lemma MoveTimes(size: Coord, s: State, policy: Border)
    requires Move(size, s, policy).Some?
    ensures var s' := Move(size, s, policy).value; s' == s.(pos := s'.pos, target := s'.target, step := s'.step)
  {
    FixKeepsTimes(size, policy, s.(pos := Plus(s.pos, s.step)));
  }

  /** A moving state before its step: the time left counts one interval more. */
  predicate Poised(ui: real, s: State) {
    !s.stationary ==>
      && s.next.Some?
      && (Waiting(s) || (s.next.value == s.now + ui && BothAway(ui, s, TimeLeft(s) + ui)))
  }

  lemma MoveKeeps(ui: real, size: Coord, s: State, policy: Border)
    requires Poised(ui, s) && Move(size, s, policy).Some?
    ensures Inv(ui, Move(size, s, policy).value)
  {
    MoveTimes(size, s, policy);
    if !s.stationary {
      if Waiting(s) { MoveWaiting(size, s, policy); } else { MoveAway(ui, size, s, policy, TimeLeft(s) + ui); }
    }
  }

  lemma BeginPoised(ui: real, s: State, plan: Plan)
    requires ui > 0.0 && BeginNextMove(ui, s, plan).Some?
    ensures Poised(ui, BeginNextMove(ui, s, plan).value)
  {
    var s' := BeginNextMove(ui, s, plan).value;
    if !plan.stationary && plan.target != s.target {
      var time := plan.time - s.targetTime;
      BeginAway(ui, s.target.x, plan.target.x, time);
      BeginAway(ui, s.target.y, plan.target.y, time);
      assert TimeLeft(s') + ui == time;
    }
  }

  lemma StepKeepsInv(ui: real, size: Coord, s: State, plan: Plan, policy: Border)
    requires ui > 0.0 && s.next.Some? && Inv(ui, s) && HandleSelfMsg(ui, size, s, plan, policy).Some?
    ensures Inv(ui, HandleSelfMsg(ui, size, s, plan, policy).value)
  {
    var s0 := s.(now := s.next.value);
    if !s.stationary {
      if s0.now + ui >= s.targetTime {
        BeginPoised(ui, s0, plan);
        MoveKeeps(ui, size, BeginNextMove(ui, s0, plan).value, policy);
      } else {
        MoveKeeps(ui, size, s0.(next := Some(s0.now + ui)), policy);
      }
    }
  }

  // ------------------------------------------------------------------ runs

  datatype Input = Input(plan: Plan, policy: Border)

  /** The state after a run of self-messages; None if the last could not happen or failed. */
  function Run(ui: real, size: Coord, start: State, es: seq<Input>): Option<State>
    requires ui > 0.0
  {
    if es == [] then Some(start)
    else
      var before := Run(ui, size, start, es[..|es| - 1]);
      if before.None? || before.value.next.None? then None
      else HandleSelfMsg(ui, size, before.value, es[|es| - 1].plan, es[|es| - 1].policy)
  }

  lemma {:induction false} RunKeepsInv(ui: real, size: Coord, pos: Coord, delay: real, es: seq<Input>)
    requires ui > 0.0 && Run(ui, size, Initial(pos, delay), es).Some?
    ensures Inv(ui, Run(ui, size, Initial(pos, delay), es).value)
  {
    if es != [] {
      var n := |es| - 1;
      RunKeepsInv(ui, size, pos, delay, es[..n]);
      StepKeepsInv(ui, size, Run(ui, size, Initial(pos, delay), es[..n]).value, es[n].plan, es[n].policy);
    }
  }

  /** How many steps the time left stands for. */
  function Remaining(ui: real, s: State): real
    requires ui > 0.0 && s.next.Some?
  {
    TimeLeft(s) / ui
  }

  predicate StepsAway(s: State, n: real) {
    s.target.x - s.pos.x == s.step.x * n && s.target.y - s.pos.y == s.step.y * n
  }

  lemma InvGivesSteps(ui: real, s: State)
    requires ui > 0.0 && Inv(ui, s) && !s.stationary
    ensures StepsAway(s, Remaining(ui, s))
  {
    if !Waiting(s) {
      AwayDivides(ui, AxisX(s), TimeLeft(s));
      AwayDivides(ui, AxisY(s), TimeLeft(s));
    }
  }

  /** Main result: after any number of steps under any mix of border policies, the target is
      the step times the remaining intervals away, in both coordinates. */
  lemma TargetIsStepsAway(ui: real, size: Coord, pos: Coord, delay: real, es: seq<Input>)
    requires ui > 0.0 && Run(ui, size, Initial(pos, delay), es).Some?
    requires !Run(ui, size, Initial(pos, delay), es).value.stationary
    ensures var s := Run(ui, size, Initial(pos, delay), es).value;
            s.next.Some? && StepsAway(s, Remaining(ui, s))
  {
    RunKeepsInv(ui, size, pos, delay, es);
    InvGivesSteps(ui, Run(ui, size, Initial(pos, delay), es).value);
  }

  lemma AwayDivides(ui: real, a: Axis, time: real)
    requires ui > 0.0 && Away(ui, a, time)
    ensures a.target - a.pos == a.step * (time / ui)
  {
    var n := time / ui;
    assert n * ui == time;
    assert ui * (a.step * n) == a.step * (n * ui);
    assert ui * (a.target - a.pos) == ui * (a.step * n);
    Cancel(ui, a.target - a.pos, a.step * n);
  }

  lemma Cancel(ui: real, x: real, y: real)
    requires ui > 0.0 && ui * x == ui * y
    ensures x == y
  {
    assert ui * (x - y) == 0.0;
  }

  // ----------------------------------------------------------------- joins

  /** How early the next event is for the planned end of the segment. */
  function Slack(s: State): real
    requires s.next.Some?
  {
    s.targetTime - s.next.value
  }

  predicate Punctual(ui: real, s: State) {
    !s.stationary ==>
      && s.next.Some? && -ui < s.early <= ui && -ui < Slack(s)
      && (Waiting(s) || Slack(s) >= s.early || Slack(s) > 0.0)
  }

  /** If this event begins a movement, it is planned to last one interval at least. */
  predicate LongEnough(ui: real, s: State, plan: Plan)
    requires s.next.Some?
  {
    (!s.stationary && s.next.value + ui >= s.targetTime && !plan.stationary && plan.target != s.target)
      ==> plan.time >= s.targetTime + ui
  }

  lemma BeginPunctual(ui: real, s: State, plan: Plan)
    requires ui > 0.0 && !s.stationary && s.next == Some(s.now) && Punctual(ui, s) && s.now + ui >= s.targetTime
    requires LongEnough(ui, s, plan) && BeginNextMove(ui, s, plan).Some?
    ensures Punctual(ui, BeginNextMove(ui, s, plan).value)
  {
  }

  lemma StepKeepsPunctual(ui: real, size: Coord, s: State, plan: Plan, policy: Border)
    requires ui > 0.0 && s.next.Some? && Punctual(ui, s) && LongEnough(ui, s, plan)
    requires HandleSelfMsg(ui, size, s, plan, policy).Some?
    ensures Punctual(ui, HandleSelfMsg(ui, size, s, plan, policy).value)
  {
    var s0 := s.(now := s.next.value);
    if !s.stationary {
      if s0.now + ui >= s.targetTime {
        BeginPunctual(ui, s0, plan);
        var s1 := BeginNextMove(ui, s0, plan).value;
        MoveTimes(size, s1, policy);
        if !s1.stationary && Waiting(s1) { MoveWaiting(size, s1, policy); }
      } else {
        MoveTimes(size, s0.(next := Some(s0.now + ui)), policy);
      }
    }
  }

  predicate AllLongEnough(ui: real, size: Coord, start: State, es: seq<Input>)
    requires ui > 0.0
  {
    es != [] ==>
      && AllLongEnough(ui, size, start, es[..|es| - 1])
      && var before := Run(ui, size, start, es[..|es| - 1]);
         (before.Some? && before.value.next.Some? ==> LongEnough(ui, before.value, es[|es| - 1].plan))
  }

  lemma {:induction false} RunKeepsPunctual(ui: real, size: Coord, pos: Coord, delay: real, es: seq<Input>)
    requires ui > 0.0 && 0.0 <= delay < ui && Run(ui, size, Initial(pos, delay), es).Some?
    requires AllLongEnough(ui, size, Initial(pos, delay), es)
    ensures Punctual(ui, Run(ui, size, Initial(pos, delay), es).value)
  {
    if es != [] {
      var n := |es| - 1;
      RunKeepsPunctual(ui, size, pos, delay, es[..n]);
      StepKeepsPunctual(ui, size, Run(ui, size, Initial(pos, delay), es[..n]).value, es[n].plan, es[n].policy);
    }
  }

  lemma PunctualEnds(ui: real, s: State)
    requires ui > 0.0 && Punctual(ui, s) && !s.stationary && !Waiting(s)
    requires s.next.value + ui >= s.targetTime
    ensures -1.0 < Remaining(ui, s) < 2.0 && (s.early > 0.0 ==> Remaining(ui, s) < 1.0)
  {
    Ratio(ui, TimeLeft(s), -1.0, 2.0);
    if s.early > 0.0 { Ratio(ui, TimeLeft(s), -1.0, 1.0); }
  }

  /** Main result: if movements last one interval at least, then whenever a segment ends,
      so that the host is put on its target, that jump is of less than two steps, and of
      less than one if the segment was itself begun before its time. */
  lemma JoinsAreShort(ui: real, size: Coord, pos: Coord, delay: real, es: seq<Input>)
    requires ui > 0.0 && 0.0 <= delay < ui && Run(ui, size, Initial(pos, delay), es).Some?
    requires AllLongEnough(ui, size, Initial(pos, delay), es)
    requires var s := Run(ui, size, Initial(pos, delay), es).value;
             !s.stationary && !Waiting(s) && s.next.Some? && s.next.value + ui >= s.targetTime
    ensures var s := Run(ui, size, Initial(pos, delay), es).value;
            && StepsAway(s, Remaining(ui, s))
            && -1.0 < Remaining(ui, s) < 2.0 && (s.early > 0.0 ==> Remaining(ui, s) < 1.0)
  {
    RunKeepsPunctual(ui, size, pos, delay, es);
    TargetIsStepsAway(ui, size, pos, delay, es);
    PunctualEnds(ui, Run(ui, size, Initial(pos, delay), es).value);
  }

  lemma Ratio(ui: real, time: real, low: real, high: real)
    requires ui > 0.0 && low * ui < time < high * ui
    ensures low < time / ui < high
  {
    var n := time / ui;
    assert n * ui == time;
    if n >= high { Scale(n, high, ui); }
    if n <= low { Scale(low, n, ui); }
  }

  lemma Scale(a: real, b: real, ui: real)
    requires a >= b && ui > 0.0
    ensures a * ui >= b * ui
  {
  }

  // ---------------------------------------------------------- short segments

  /** This event begins a new segment. */
  predicate Begins(ui: real, s: State)
    requires s.next.Some?
  {
    !s.stationary && s.next.value + ui >= s.targetTime
  }

  /** What one event does to the slack: every event but a wait costs an interval, and a new
      segment brings its planned duration. */
  function SlackAfter(ui: real, s: State, plan: Plan): real
    requires s.next.Some?
  {
    var d := plan.time - s.targetTime;
    if !Begins(ui, s) then Slack(s) - ui
    else if plan.target != s.target then Slack(s) + d - ui
    else if Slack(s) + d < 0.0 then Slack(s) + d
    else 0.0
  }

  lemma StepSlack(ui: real, size: Coord, s: State, plan: Plan, policy: Border)
    requires ui > 0.0 && s.next.Some? && !s.stationary && HandleSelfMsg(ui, size, s, plan, policy).Some?
    ensures var s' := HandleSelfMsg(ui, size, s, plan, policy).value;
            !s'.stationary ==> s'.next.Some? && Slack(s') == SlackAfter(ui, s, plan)
  {
    var s0 := s.(now := s.next.value);
    if s0.now + ui >= s.targetTime {
      MoveTimes(size, BeginNextMove(ui, s0, plan).value, policy);
    } else {
      MoveTimes(size, s0.(next := Some(s0.now + ui)), policy);
    }
  }

  /** A movement makes the host later exactly if it is planned to last less than an interval. */
  lemma FallsBehindIffShort(ui: real, size: Coord, s: State, plan: Plan, policy: Border)
    requires ui > 0.0 && s.next.Some? && Begins(ui, s) && !plan.stationary && plan.target != s.target
    requires HandleSelfMsg(ui, size, s, plan, policy).Some?
    ensures var s' := HandleSelfMsg(ui, size, s, plan, policy).value;
            && s'.next.Some? && (Slack(s') < Slack(s) <==> !LongEnough(ui, s, plan))
  {
    StepSlack(ui, size, s, plan, policy);
    MoveTimes(size, BeginNextMove(ui, s.(now := s.next.value), plan).value, policy);
  }

  /** If this event begins a segment, that is a movement. */
  predicate GoesOn(ui: real, s: State, plan: Plan) {
    s.next.Some? && Begins(ui, s) ==> !plan.stationary && plan.target != s.target
  }

  /** The host never stops and never waits. */
  predicate AlwaysMoving(ui: real, size: Coord, start: State, es: seq<Input>)
    requires ui > 0.0
  {
    es != [] ==>
      && AlwaysMoving(ui, size, start, es[..|es| - 1])
      && var before := Run(ui, size, start, es[..|es| - 1]);
         (before.Some? ==> GoesOn(ui, before.value, es[|es| - 1].plan))
  }

  /** The time of n events. */
  function Spent(ui: real, n: nat): (r: real)
    ensures r == ui * n as real
  {
    if n == 0 then 0.0 else Spent(ui, n - 1) + ui
  }

  /** After n events the host is ahead of its plan by what it was ahead at first, and the
      time planned since, less an interval for each event. */
  predicate AheadBy(ui: real, start: State, s: State, n: nat)
    requires start.next.Some?
  {
    !s.stationary && s.next.Some? && Slack(s) == Slack(start) + (s.targetTime - start.targetTime) - Spent(ui, n)
  }

  lemma AheadStep(ui: real, size: Coord, start: State, s: State, n: nat, plan: Plan, policy: Border)
    requires ui > 0.0 && start.next.Some? && AheadBy(ui, start, s, n) && GoesOn(ui, s, plan)
    requires HandleSelfMsg(ui, size, s, plan, policy).Some?
    ensures AheadBy(ui, start, HandleSelfMsg(ui, size, s, plan, policy).value, n + 1)
  {
    StepSlack(ui, size, s, plan, policy);
    StepTarget(ui, size, s, plan, policy);
  }

  /** The exact law of a host that keeps moving, for every run. */
  lemma {:induction false} SlackLaw(ui: real, size: Coord, start: State, es: seq<Input>)
    requires ui > 0.0 && !start.stationary && start.next.Some?
    requires Run(ui, size, start, es).Some? && AlwaysMoving(ui, size, start, es)
    ensures AheadBy(ui, start, Run(ui, size, start, es).value, |es|)
  {
    if es != [] {
      var n := |es| - 1;
      SlackLaw(ui, size, start, es[..n]);
      AheadStep(ui, size, start, Run(ui, size, start, es[..n]).value, n, es[n].plan, es[n].policy);
    }
  }

  lemma StepTarget(ui: real, size: Coord, s: State, plan: Plan, policy: Border)
    requires ui > 0.0 && s.next.Some? && !s.stationary && HandleSelfMsg(ui, size, s, plan, policy).Some?
    ensures var s' := HandleSelfMsg(ui, size, s, plan, policy).value;
            && s'.targetTime == (if Begins(ui, s) then plan.time else s.targetTime)
            && s'.stationary == (Begins(ui, s) && plan.stationary)
  {
    var s0 := s.(now := s.next.value);
    if s0.now + ui >= s.targetTime {
      MoveTimes(size, BeginNextMove(ui, s0, plan).value, policy);
    } else {
      MoveTimes(size, s0.(next := Some(s0.now + ui)), policy);
    }
  }

  const PLAYGROUND := Coord(10.0, 10.0)

  /** Back and forth, each way in half an interval. */
  function Shuttle(n: nat): Plan {
    Plan(Coord(if n % 2 == 0 then 2.0 else 1.0, 1.0), (n + 1) as real / 2.0, false)
  }

  function Shuttles(n: nat): (es: seq<Input>)
    ensures |es| == n
  {
    if n == 0 then [] else Shuttles(n - 1) + [Input(Shuttle(n - 1), RaiseError)]
  }

  /** The condition is needed: with segments of half an interval the host falls behind its
      plan without bound. */
  lemma {:induction false} ShortSegmentsFallBehind(n: nat)
    ensures var r := Run(1.0, PLAYGROUND, Initial(Coord(1.0, 1.0), 0.0), Shuttles(n));
            && r.Some? && !r.value.stationary && r.value.next.Some?
            && Slack(r.value) == -(n as real / 2.0)
            && r.value.targetTime == n as real / 2.0
            && r.value.target == Coord(if n % 2 == 0 then 1.0 else 2.0, 1.0)
  {
    if n > 0 {
      ShortSegmentsFallBehind(n - 1);
      assert Shuttles(n)[..n - 1] == Shuttles(n - 1);
      var s := Run(1.0, PLAYGROUND, Initial(Coord(1.0, 1.0), 0.0), Shuttles(n - 1)).value;
      ShuttleStep(s, n - 1);
    }
  }

  lemma ShuttleStep(s: State, n: nat)
    requires !s.stationary && s.next.Some? && Slack(s) == -(n as real / 2.0) && s.targetTime == n as real / 2.0
    requires s.target == Coord(if n % 2 == 0 then 1.0 else 2.0, 1.0)
    ensures var r := HandleSelfMsg(1.0, PLAYGROUND, s, Shuttle(n), RaiseError);
            && r.Some? && !r.value.stationary && r.value.next.Some?
            && Slack(r.value) == -((n + 1) as real / 2.0)
            && r.value.targetTime == (n + 1) as real / 2.0
            && r.value.target == Coord(if (n + 1) % 2 == 0 then 1.0 else 2.0, 1.0)
  {
    var s0 := s.(now := s.next.value);
    assert s0.now + 1.0 >= s.targetTime;
    var plan := Shuttle(n);
    assert plan.time - s.targetTime == 0.5;
    var s1 := BeginNextMove(1.0, s0, plan).value;
    assert s1.step == Coord(if n % 2 == 0 then 2.0 else -2.0, 0.0);
  }

  // ---------------------------------------------------------------- the class

  class LineSegmentsMobility {
    const updateInterval: real
    const size: Coord
    var now: real
    var pos: Coord
    var step: Coord
    var targetPos: Coord
    var targetTime: real
    var stationary: bool
    var next: Option<real>
    ghost var early: real

    ghost function View(): State
      reads this
    {
      State(now, pos, step, targetPos, targetTime, stationary, next, early)
    }

    constructor (interval: real, playground: Coord, start: Coord, delay: real)
      ensures updateInterval == interval && size == playground && View() == Initial(start, delay)
    {
      updateInterval, size := interval, playground;
      now, pos, step, targetPos, targetTime := 0.0, start, Coord(0.0, 0.0), start, 0.0;
      stationary, next, early := false, Some(delay), 0.0;
    }

    method ReflectIfOutside()
      modifies this`pos, this`targetPos, this`step
      ensures Some(View()) == FixIfOutside(size, Reflect, old(View()))
    {
      if pos.x < 0.0 {
        pos, targetPos, step := pos.(x := -pos.x), targetPos.(x := -targetPos.x), step.(x := -step.x);
      } else if pos.x >= size.x {
        pos, targetPos := pos.(x := 2.0 * size.x - pos.x), targetPos.(x := 2.0 * size.x - targetPos.x);
        step := step.(x := -step.x);
      }
      if pos.y < 0.0 {
        pos, targetPos, step := pos.(y := -pos.y), targetPos.(y := -targetPos.y), step.(y := -step.y);
      } else if pos.y >= size.y {
        pos, targetPos := pos.(y := 2.0 * size.y - pos.y), targetPos.(y := 2.0 * size.y - targetPos.y);
        step := step.(y := -step.y);
      }
    }

    method WrapIfOutside()
      modifies this`pos, this`targetPos
      ensures Some(View()) == FixIfOutside(size, Wrap, old(View()))
    {
      if pos.x < 0.0 {
        pos, targetPos := pos.(x := pos.x + size.x), targetPos.(x := targetPos.x + size.x);
      } else if pos.x >= size.x {
        pos, targetPos := pos.(x := pos.x - size.x), targetPos.(x := targetPos.x - size.x);
      }
      if pos.y < 0.0 {
        pos, targetPos := pos.(y := pos.y + size.y), targetPos.(y := targetPos.y + size.y);
      } else if pos.y >= size.y {
        pos, targetPos := pos.(y := pos.y - size.y), targetPos.(y := targetPos.y - size.y);
      }
    }

    method PlaceRandomlyIfOutside(newPos: Coord)
      modifies this`pos, this`targetPos
      ensures Some(View()) == FixIfOutside(size, PlaceRandomly(newPos), old(View()))
    {
      if pos.x < 0.0 || pos.x >= size.x || pos.y < 0.0 || pos.y >= size.y {
        targetPos := Coord(targetPos.x + (newPos.x - pos.x), targetPos.y + (newPos.y - pos.y));
        pos := newPos;
      }
    }

    /** Target and step change with the position: the target stays as many steps away. */
    method HandleIfOutside(policy: Border) returns (ok: bool)
      modifies this`pos, this`targetPos, this`step
      ensures forall time :: ok && BothAway(updateInterval, old(View()), time) ==>
                BothAway(updateInterval, View(), time)
      ensures ok <==> FixIfOutside(size, policy, old(View())).Some?
      ensures ok ==> Some(View()) == FixIfOutside(size, policy, old(View()))
    {
      ghost var s := View();
      forall time | FixIfOutside(size, policy, s).Some? && BothAway(updateInterval, s, time)
        ensures BothAway(updateInterval, FixIfOutside(size, policy, s).value, time)
      {
        FixKeepsAway(updateInterval, size, policy, s, time);
      }
      ok := true;
      match policy {
        case Reflect => ReflectIfOutside();
        case Wrap => WrapIfOutside();
        case PlaceRandomly(at) => PlaceRandomlyIfOutside(at);
        case RaiseError => ok := !(pos.x < 0.0 || pos.x >= size.x || pos.y < 0.0 || pos.y >= size.y);
      }
    }

    /** beginNextMove, with what setTargetPosition will choose; false on an error.  The host
        is where the last segment was to end, and the step covers the new one in the time
        planned for it. */
    method StartNextMove(plan: Plan) returns (ok: bool)
      requires updateInterval > 0.0
      modifies this
      ensures ok ==> pos == old(targetPos) && Poised(updateInterval, View())
      ensures ok <==> BeginNextMove(updateInterval, old(View()), plan).Some?
      ensures ok ==> Some(View()) == BeginNextMove(updateInterval, old(View()), plan)
    {
      if BeginNextMove(updateInterval, View(), plan).Some? { BeginPoised(updateInterval, View(), plan); }
      early := targetTime - now;
      pos := targetPos;
      var planned := targetTime;
      targetPos, targetTime, stationary := plan.target, plan.time, plan.stationary;
      if targetTime < planned { return false; }
      if stationary {
        step, next := Coord(0.0, 0.0), None;
      } else if targetPos == pos {
        step, next := Coord(0.0, 0.0), Some(if targetTime < now then now else targetTime);
      } else if targetTime == planned {
        return false;
      } else {
        var numIntervals := (targetTime - planned) / updateInterval;
        step := Coord((targetPos.x - pos.x) / numIntervals, (targetPos.y - pos.y) / numIntervals);
        next := Some(now + updateInterval);
      }
      ok := true;
    }

    /** handleSelfMsg: the target stays the remaining steps away, a message stays pending
        until the host is stationary, and the slack changes by the law of one event. */
    method SelfMsg(plan: Plan, policy: Border) returns (ok: bool)
      requires updateInterval > 0.0 && next.Some?
      modifies this
      ensures ok && old(Inv(updateInterval, View())) ==> Inv(updateInterval, View())
      ensures ok && !old(stationary) && !stationary ==>
                next.Some? && Slack(View()) == SlackAfter(updateInterval, old(View()), plan)
    {
      ghost var s := View();
      if HandleSelfMsg(updateInterval, size, s, plan, policy).Some? {
        if Inv(updateInterval, s) { StepKeepsInv(updateInterval, size, s, plan, policy); }
        if !s.stationary { StepSlack(updateInterval, size, s, plan, policy); }
      }
      ok := SelfMsgSteps(plan, policy);
    }

    method SelfMsgSteps(plan: Plan, policy: Border) returns (ok: bool)
      requires updateInterval > 0.0 && next.Some?
      modifies this
      ensures ok <==> HandleSelfMsg(updateInterval, size, old(View()), plan, policy).Some?
      ensures ok ==> Some(View()) == HandleSelfMsg(updateInterval, size, old(View()), plan, policy)
    {
      now := next.value;
      ok := true;
      if stationary {
        next := None;
        return;
      } else if now + updateInterval >= targetTime {
        ok := StartNextMove(plan);
        if !ok { return; }
      } else {
        next := Some(now + updateInterval);
      }
      pos := Coord(pos.x + step.x, pos.y + step.y);
      ok := HandleIfOutside(policy);
    }
  }
}
