/** The relay unit with N CPUs sharing one byte-limited buffer: nothing is reordered,
    and every byte of the buffer is accounted for. */
module RelayNP {
  import opened Options
  import opened EventList

  datatype Frame = Frame(id: int, length: nat)

  datatype Config = Config(
    cpus: nat, processingTime: real, bufferSize: int,
    highWatermark: int, pauseUnits: int, pauseInterval: real)

  predicate ValidConfig(c: Config) {
    c.processingTime >= 0.0 && c.pauseInterval >= 0.0
  }

  /** The frame each CPU's event points to (if any), the scheduled events, the queue. */
  datatype Machine = Machine(now: real, context: map<nat, Frame>, fes: seq<Event<nat>>, queue: seq<Frame>)

  /** The counters, then what an observer writes down. */
  datatype State = State(
    m: Machine, used: int, processed: nat, dropped: nat, pauseLastSent: real,
    received: nat, accepted: seq<Frame>, dispatched: seq<Frame>, pauses: seq<real>)

  datatype Outcome = Next(state: State) | AssertFails

  /** The CPUs whose event is scheduled. */
  function Scheduled(fes: seq<Event<nat>>): set<nat> {
    if fes == [] then {} else {fes[0].what} + Scheduled(fes[1..])
  }

  /** The first CPU from i on that is not busy, or the number of CPUs. */
  function FreeCpu(n: nat, busy: set<nat>, i: nat): (j: nat)
    requires i <= n
    ensures i <= j <= n && (j < n ==> j !in busy)
    decreases n - i
  {
    if i == n || i !in busy then i else FreeCpu(n, busy, i + 1)
  }

  /** Gives the frame to a free CPU or queues it; None where the ASSERT would fail. */
  function Assign(c: Config, m: Machine, f: Frame): Option<Machine> {
    var i := FreeCpu(c.cpus, Scheduled(m.fes), 0);
    if i == c.cpus then Some(m.(queue := m.queue + [f]))
    else if i in m.context then None
    else Some(m.(context := m.context[i := f], fes := Schedule(m.fes, m.now + c.processingTime, i)))
  }

  predicate PauseDue(c: Config, s: State) {
    c.pauseUnits > 0 && c.highWatermark > 0 && s.used >= c.highWatermark && s.m.now - s.pauseLastSent > c.pauseInterval
  }

  function SendPauseIfDue(c: Config, s: State): State {
    if PauseDue(c, s) then s.(pauseLastSent := s.m.now, pauses := s.pauses + [s.m.now]) else s
  }

  function HandleIncomingFrame(c: Config, s: State, f: Frame): Outcome {
    var s1 := s.(received := s.received + 1);
    if f.length + s.used < c.bufferSize then Accept(c, s1, f) else Next(s1.(dropped := s.dropped + 1))
  }

  function Accept(c: Config, s: State, f: Frame): Outcome {
    Place(c, SendPauseIfDue(c, s.(used := s.used + f.length, accepted := s.accepted + [f])), f)
  }

  function Place(c: Config, s: State, f: Frame): Outcome {
    match Assign(c, s.m, f)
    case None => AssertFails
    case Some(m) => Next(s.(m := m))
  }

  /** The CPU goes on with the first queued frame, if there is one. */
  function TakeNext(c: Config, m: Machine, cpu: nat): Machine {
    if m.queue == [] then m
    else m.(queue := m.queue[1..], context := m.context[cpu := m.queue[0]],
            fes := Schedule(m.fes, m.now + c.processingTime, cpu))
  }

  /** The end-of-processing event of a CPU, already taken off the event list. */
  function ProcessFrame(c: Config, s: State, cpu: nat): Outcome {
    if cpu !in s.m.context then AssertFails
    else
      var f := s.m.context[cpu];
      Next(s.(m := TakeNext(c, s.m.(context := s.m.context - {cpu}), cpu), dispatched := s.dispatched + [f],
              used := s.used - f.length, processed := s.processed + 1))
  }

  datatype Input = Arrives(frame: Frame, t: real) | CpuDone

  /** No event is passed over; at the same time either may come first. */
  predicate Enabled(m: Machine, e: Input) {
    match e
    case Arrives(_, t) => m.now <= t && (m.fes != [] ==> t <= m.fes[0].time)
    case CpuDone => m.fes != []
  }

  /** The state a handler finds. */
  function Deliver(s: State, e: Input): State
    requires Enabled(s.m, e)
  {
    match e
    case Arrives(_, t) => s.(m := s.m.(now := t))
    case CpuDone => s.(m := s.m.(now := s.m.fes[0].time, fes := s.m.fes[1..]))
  }

  function Step(c: Config, s: State, e: Input): Outcome
    requires Enabled(s.m, e)
  {
    match e
    case Arrives(f, _) => HandleIncomingFrame(c, Deliver(s, e), f)
    case CpuDone => ProcessFrame(c, Deliver(s, e), s.m.fes[0].what)
  }

  function Initial(): State {
    State(Machine(0.0, map[], [], []), 0, 0, 0, 0.0, 0, [], [], [])
  }

  // -------------------------------------------------------------- invariant

  /** Each event points to a frame, no two events are of one CPU, and no CPU without an
      event points to a frame. */
  predicate Linked(context: map<nat, Frame>, fes: seq<Event<nat>>) {
    if fes == [] then context == map[]
    else fes[0].what in context && Linked(context - {fes[0].what}, fes[1..])
  }

  /** The frames on CPUs, in the order in which they will be done. */
  function OnCpus(context: map<nat, Frame>, fes: seq<Event<nat>>): (s: seq<Frame>)
    requires Linked(context, fes)
    ensures |s| == |fes|
    decreases |fes|
  {
    if fes == [] then [] else [context[fes[0].what]] + OnCpus(context - {fes[0].what}, fes[1..])
  }

  function Total(fs: seq<Frame>): nat {
    if fs == [] then 0 else fs[0].length + Total(fs[1..])
  }

  /** All events end within one processing time from now. */
  predicate Soon(c: Config, now: real, fes: seq<Event<nat>>) {
    Sorted(fes) && forall k :: 0 <= k < |fes| ==> now <= fes[k].time <= now + c.processingTime
  }

  /** Frames wait only while no CPU is free. */
  predicate Working(c: Config, m: Machine) {
    && Soon(c, m.now, m.fes) && Linked(m.context, m.fes)
    && (m.queue != [] ==> FreeCpu(c.cpus, m.context.Keys, 0) == c.cpus)
  }

  /** The frames in the system: on CPUs in the order of their ends, then queued. */
  function Inside(m: Machine): seq<Frame>
    requires Linked(m.context, m.fes)
  {
    OnCpus(m.context, m.fes) + m.queue
  }

  predicate Accounted(c: Config, s: State, inside: seq<Frame>) {
    && s.accepted == s.dispatched + inside
    && s.used == Total(inside) && (s.used == 0 || s.used < c.bufferSize)
    && s.processed == |s.dispatched| && s.received == |s.accepted| + s.dropped
  }

  /** PAUSE broadcasts are more than the pause interval apart. */
  predicate Spaced(interval: real, pauses: seq<real>, last: real) {
    if pauses == [] then last == 0.0
    else
      var n := |pauses| - 1;
      last == pauses[n] && last - (if n == 0 then 0.0 else pauses[n - 1]) > interval
      && Spaced(interval, pauses[..n], if n == 0 then 0.0 else pauses[n - 1])
  }

  predicate Inv(c: Config, s: State) {
    Working(c, s.m) && Accounted(c, s, Inside(s.m)) && Spaced(c.pauseInterval, s.pauses, s.pauseLastSent)
  }

  // ----------------------------------------------------------- preservation

  lemma {:induction false} TotalAppend(a: seq<Frame>, b: seq<Frame>)
    ensures Total(a + b) == Total(a) + Total(b)
  {
    if a == [] {
      assert a + b == b;
    } else {
      assert (a + b)[1..] == a[1..] + b;
      TotalAppend(a[1..], b);
    }
  }

  lemma {:induction false} ScheduledIsContext(context: map<nat, Frame>, fes: seq<Event<nat>>)
    requires Linked(context, fes)
    ensures Scheduled(fes) == context.Keys
    decreases |fes|
  {
    if fes != [] {
      var cpu := fes[0].what;
      ScheduledIsContext(context - {cpu}, fes[1..]);
      assert context.Keys == {cpu} + (context - {cpu}).Keys;
    }
  }

  /** A CPU that points to nothing gets a frame and the last event. */
  lemma {:induction false} LinkMore(context: map<nat, Frame>, fes: seq<Event<nat>>, e: Event<nat>, f: Frame)
    requires Linked(context, fes) && e.what !in context
    ensures Linked(context[e.what := f], fes + [e])
    ensures OnCpus(context[e.what := f], fes + [e]) == OnCpus(context, fes) + [f]
    decreases |fes|
  {
    if fes == [] {
      assert fes + [e] == [e] && [e][1..] == [];
      assert context[e.what := f] - {e.what} == map[];
    } else {
      var cpu := fes[0].what;
      LinkMore(context - {cpu}, fes[1..], e, f);
      assert (fes + [e])[1..] == fes[1..] + [e] && (fes + [e])[0] == fes[0];
      assert context[e.what := f] - {cpu} == (context - {cpu})[e.what := f];
    }
  }

  /** The event goes to the end of the list, because every other event was scheduled no
      later and takes as long. */
  lemma ScheduleSoon(c: Config, now: real, fes: seq<Event<nat>>, i: nat)
    requires Soon(c, now, fes) && c.processingTime >= 0.0
    ensures var fes' := Schedule(fes, now + c.processingTime, i);
            Soon(c, now, fes') && fes' == fes + [Event(now + c.processingTime, i)]
  {
    var t := now + c.processingTime;
    ScheduleLast(fes, t, i);
    ScheduleSorted(fes, t, i);
  }

  predicate Room(c: Config, s: State, f: Frame) {
    f.length + s.used < c.bufferSize
  }

  lemma AssignGood(c: Config, m: Machine, f: Frame)
    requires ValidConfig(c) && Working(c, m)
    ensures var r := Assign(c, m, f); r.Some? && Working(c, r.value) && Inside(r.value) == Inside(m) + [f]
  {
    ScheduledIsContext(m.context, m.fes);
    var i := FreeCpu(c.cpus, m.context.Keys, 0);
    var on := OnCpus(m.context, m.fes);
    if i == c.cpus {
      assert (on + m.queue) + [f] == on + (m.queue + [f]);
    } else {
      ScheduleSoon(c, m.now, m.fes, i);
      LinkMore(m.context, m.fes, Event(m.now + c.processingTime, i), f);
      assert (on + []) + [f] == (on + [f]) + [];
    }
  }

  lemma PauseKeepsSpaced(c: Config, s: State)
    requires Spaced(c.pauseInterval, s.pauses, s.pauseLastSent)
    ensures var s' := SendPauseIfDue(c, s);
            && Spaced(c.pauseInterval, s'.pauses, s'.pauseLastSent)
            && s' == s.(pauses := s'.pauses, pauseLastSent := s'.pauseLastSent)
  {
    assert (s.pauses + [s.m.now])[..|s.pauses|] == s.pauses;
  }

  lemma AcceptKeeps(c: Config, s: State, f: Frame)
    requires ValidConfig(c) && Inv(c, s) && Room(c, s, f)
    ensures var o := HandleIncomingFrame(c, s, f); o.Next? && Inv(c, o.state)
  {
    PauseKeepsSpaced(c, s.(received := s.received + 1, used := s.used + f.length, accepted := s.accepted + [f]));
    AssignGood(c, s.m, f);
    var inside := Inside(s.m);
    TotalAppend(inside, [f]);
    assert s.dispatched + inside + [f] == s.dispatched + (inside + [f]);
  }

  lemma LaterKeeps(c: Config, s: State, t: real)
    requires Inv(c, s) && s.m.now <= t && (s.m.fes != [] ==> t <= s.m.fes[0].time)
    ensures Inv(c, s.(m := s.m.(now := t)))
  {
  }

  /** The frame on the CPU that is done is the first in the system. */
  lemma ProcessGood(c: Config, m: Machine)
    requires ValidConfig(c) && Working(c, m) && m.fes != []
    ensures var cpu := m.fes[0].what;
            && cpu in m.context
            && var m' := TakeNext(c, m.(context := m.context - {cpu}, fes := m.fes[1..]), cpu);
               Working(c, m') && Inside(m) == [m.context[cpu]] + Inside(m')
  {
    var cpu, fes' := m.fes[0].what, m.fes[1..];
    var f, context' := m.context[cpu], m.context - {cpu};
    var on' := OnCpus(context', fes');
    assert Inside(m) == [f] + (on' + m.queue);
    assert Soon(c, m.now, fes');
    if m.queue != [] {
      var g := m.queue[0];
      ScheduleSoon(c, m.now, fes', cpu);
      LinkMore(context', fes', Event(m.now + c.processingTime, cpu), g);
      assert context'[cpu := g].Keys == m.context.Keys;
      assert (on' + [g]) + m.queue[1..] == on' + m.queue;
    }
  }

  lemma DoneKeeps(c: Config, s: State)
    requires ValidConfig(c) && Inv(c, s) && s.m.fes != []
    ensures var o := Step(c, s, CpuDone); o.Next? && Inv(c, o.state)
  {
    LaterKeeps(c, s, s.m.fes[0].time);
    var m := s.m.(now := s.m.fes[0].time);
    ProcessGood(c, m);
    var f := m.context[m.fes[0].what];
    var inside' := Inside(Step(c, s, CpuDone).state.m);
    TotalAppend([f], inside');
    assert s.dispatched + ([f] + inside') == (s.dispatched + [f]) + inside';
  }

  // ------------------------------------------------------------------ runs

  function Run(c: Config, es: seq<Input>): Option<State> {
    if es == [] then Some(Initial())
    else
      var before := Run(c, es[..|es| - 1]);
      var e := es[|es| - 1];
      if before.None? || !Enabled(before.value.m, e) then None
      else match Step(c, before.value, e)
        case AssertFails => None
        case Next(s) => Some(s)
  }

  /** Every event of the run can happen when it comes. */
  predicate Possible(c: Config, es: seq<Input>) {
    es == [] ||
    (Possible(c, es[..|es| - 1]) &&
     var before := Run(c, es[..|es| - 1]); before.Some? ==> Enabled(before.value.m, es[|es| - 1]))
  }

  lemma StepKeepsInv(c: Config, s: State, e: Input)
    requires ValidConfig(c) && Inv(c, s) && Enabled(s.m, e)
    ensures Step(c, s, e).Next? && Inv(c, Step(c, s, e).state)
  {
    match e
    case Arrives(f, t) =>
      LaterKeeps(c, s, t);
      if Room(c, s, f) { AcceptKeeps(c, s.(m := s.m.(now := t)), f); }
    case CpuDone => DoneKeeps(c, s);
  }

  lemma {:induction false} RunKeepsInv(c: Config, es: seq<Input>)
    requires ValidConfig(c) && Possible(c, es)
    ensures Run(c, es).Some? && Inv(c, Run(c, es).value)
  {
    if es != [] {
      RunKeepsInv(c, es[..|es| - 1]);
      StepKeepsInv(c, Run(c, es[..|es| - 1]).value, es[|es| - 1]);
    }
  }

  /** Main result, for any number of CPUs and any arrivals: neither ASSERT fails; accepted
      frames are dispatched in the order of their arrival, the rest being in the system
      in that order; a CPU has an event exactly when it holds a frame; and buffer and
      counters are exact. */
  lemma NeverReorders(c: Config, es: seq<Input>)
    requires ValidConfig(c) && Possible(c, es)
    ensures Run(c, es).Some?
    ensures var s := Run(c, es).value;
            && Linked(s.m.context, s.m.fes) && Scheduled(s.m.fes) == s.m.context.Keys
            && s.accepted == s.dispatched + Inside(s.m)
            && s.received == s.processed + s.dropped + |s.m.fes| + |s.m.queue|
            && s.used == Total(Inside(s.m)) && (s.used < c.bufferSize || s.used == 0)
            && Spaced(c.pauseInterval, s.pauses, s.pauseLastSent)
  {
    RunKeepsInv(c, es);
    var s := Run(c, es).value;
    ScheduledIsContext(s.m.context, s.m.fes);
  }

  // ---------------------------------------------------------------- the class

  class MACRelayUnitNP {
    const c: Config
    var now: real
    var endProcEvents: map<nat, Frame>
    var fes: seq<Event<nat>>
    var queue: seq<Frame>
    var bufferUsed: int
    var numProcessedFrames: nat
    var numDroppedFrames: nat
    var pauseLastSent: real
    ghost var received: nat
    ghost var accepted: seq<Frame>
    ghost var dispatched: seq<Frame>
    ghost var pauses: seq<real>

    ghost function View(): State
      reads this
    {
      State(Machine(now, endProcEvents, fes, queue), bufferUsed, numProcessedFrames, numDroppedFrames, pauseLastSent,
            received, accepted, dispatched, pauses)
    }

    /** ok is false where an ASSERT of the source fails. */
    ghost predicate Did(o: Outcome, ok: bool)
      reads this
    {
      match o
      case Next(s) => ok && View() == s
      case AssertFails => !ok
    }

    constructor (config: Config)
      ensures c == config && View() == Initial()
    {
      c := config;
      now, endProcEvents, fes, queue := 0.0, map[], [], [];
      bufferUsed, numProcessedFrames, numDroppedFrames, pauseLastSent := 0, 0, 0, 0.0;
      received, accepted, dispatched, pauses := 0, [], [], [];
    }

    /** The loop that looks for a CPU whose event is not scheduled. */
    method FindFreeCpu() returns (i: nat)
      ensures i == FreeCpu(c.cpus, Scheduled(fes), 0)
    {
      i := 0;
      while i < c.cpus
        invariant i <= c.cpus && FreeCpu(c.cpus, Scheduled(fes), 0) == FreeCpu(c.cpus, Scheduled(fes), i)
      {
        if i !in Scheduled(fes) { break; }
        i := i + 1;
      }
    }

    method AssignFrame(frame: Frame) returns (ok: bool)
      modifies this`endProcEvents, this`fes, this`queue
      ensures ok <==> Assign(c, old(View()).m, frame).Some?
      ensures ok ==> Some(View().m) == Assign(c, old(View()).m, frame)
    {
      var i := FindFreeCpu();
      if i == c.cpus {
        queue := queue + [frame];
      } else {
        if i in endProcEvents { return false; }
        endProcEvents := endProcEvents[i := frame];
        fes := Schedule(fes, now + c.processingTime, i);
      }
      return true;
    }

    method IncomingFrame(frame: Frame) returns (ok: bool)
      modifies this
      ensures Did(HandleIncomingFrame(c, old(View()), frame), ok)
    {
      ok := true;
      received := received + 1;
      if frame.length + bufferUsed < c.bufferSize {
        ok := AcceptFrame(frame);
      } else {
        numDroppedFrames := numDroppedFrames + 1;
      }
    }

    method AcceptFrame(frame: Frame) returns (ok: bool)
      modifies this
      ensures Did(Accept(c, old(View()), frame), ok)
    {
      bufferUsed := bufferUsed + frame.length;
      accepted := accepted + [frame];
      PauseIfDue();
      ok := PlaceFrame(frame);
    }

    method PlaceFrame(frame: Frame) returns (ok: bool)
      modifies this
      ensures Did(Place(c, old(View()), frame), ok)
    {
      ok := AssignFrame(frame);
    }

    /** Stands for a PAUSE frame on every port. */
    method PauseIfDue()
      modifies this`pauseLastSent, this`pauses
      ensures View() == SendPauseIfDue(c, old(View()))
    {
      var high := c.highWatermark > 0 && bufferUsed >= c.highWatermark;
      if c.pauseUnits > 0 && high && now - pauseLastSent > c.pauseInterval {
        pauseLastSent := now;
        pauses := pauses + [now];
      }
    }

    method FrameProcessed(cpu: nat) returns (ok: bool)
      modifies this
      ensures Did(ProcessFrame(c, old(View()), cpu), ok)
    {
      if cpu !in endProcEvents { return false; }
      var frame := endProcEvents[cpu];
      endProcEvents := endProcEvents - {cpu};
      dispatched := dispatched + [frame];
      bufferUsed := bufferUsed - frame.length;
      numProcessedFrames := numProcessedFrames + 1;
      StartNext(cpu);
      return true;
    }

    method StartNext(cpu: nat)
      modifies this`endProcEvents, this`fes, this`queue
      ensures View().m == TakeNext(c, old(View()).m, cpu)
    {
      if queue != [] {
        endProcEvents := endProcEvents[cpu := queue[0]];
        queue := queue[1..];
        fes := Schedule(fes, now + c.processingTime, cpu);
      }
    }

    /** One event: from a consistent state no ASSERT fails and the state stays so. */
    method HandleMessage(e: Input) returns (ok: bool)
      requires ValidConfig(c) && Inv(c, View()) && Enabled(View().m, e)
      modifies this
      ensures Did(Step(c, old(View()), e), ok) && ok && Inv(c, View())
    {
      StepKeepsInv(c, View(), e);
      match e {
        case Arrives(frame, t) =>
          now := t;
          ok := IncomingFrame(frame);
        case CpuDone =>
          var cpu := fes[0].what;
          now := fes[0].time;
          fes := fes[1..];
          ok := FrameProcessed(cpu);
      }
    }
  }
}
