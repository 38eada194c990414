/** What becomes of each frame at the relay unit, and when: against the arrivals alone. */
module RelayLaws {
  import opened Options
  import opened EventList
  import opened RelayNP

  /** A frame, when it arrived, and how many bytes of frames were in the system then. */
  datatype Fate = Fate(frame: Frame, t: real, inside: nat)

  function BytesInside(m: Machine): nat {
    if Linked(m.context, m.fes) then Total(Inside(m)) else 0
  }

  function Fates(c: Config, es: seq<Input>): seq<Fate>
    requires Run(c, es).Some?
  {
    if es == [] then []
    else
      var n := |es| - 1;
      match es[n]
      case Arrives(f, t) => Fates(c, es[..n]) + [Fate(f, t, BytesInside(Run(c, es[..n]).value.m))]
      case CpuDone => Fates(c, es[..n])
  }

  /** There is room for the frame. */
  predicate Fits(c: Config, a: Fate) {
    a.frame.length + a.inside < c.bufferSize
  }

  function Fitting(c: Config, fates: seq<Fate>): (r: seq<Fate>)
    ensures |r| <= |fates|
  {
    if fates == [] then []
    else
      var n := |fates| - 1;
      Fitting(c, fates[..n]) + if Fits(c, fates[n]) then [fates[n]] else []
  }

  function FramesOf(fates: seq<Fate>): (r: seq<Frame>)
    ensures |r| == |fates| && forall i :: 0 <= i < |fates| ==> r[i] == fates[i].frame
  {
    if fates == [] then [] else FramesOf(fates[..|fates| - 1]) + [fates[|fates| - 1].frame]
  }

  /** What one event does to the list of accepted frames and to the counters. */
  lemma ArrivalEffect(c: Config, s: State, f: Frame, t: real)
    requires ValidConfig(c) && Inv(c, s) && Enabled(s.m, Arrives(f, t))
    ensures var o := Step(c, s, Arrives(f, t));
            && o.Next?
            && (if Fits(c, Fate(f, t, BytesInside(s.m))) then
                  o.state.accepted == s.accepted + [f] && o.state.dropped == s.dropped
                else o.state.accepted == s.accepted && o.state.dropped == s.dropped + 1)
            && o.state.pauses == s.pauses +
                 (if Fits(c, Fate(f, t, BytesInside(s.m))) && PauseWanted(c, Fate(f, t, BytesInside(s.m)), s.pauses)
                  then [t] else [])
  {
    StepKeepsInv(c, s, Arrives(f, t));
    LastPause(c.pauseInterval, s.pauses, s.pauseLastSent);
  }

  lemma DoneEffect(c: Config, s: State)
    requires ValidConfig(c) && Inv(c, s) && s.m.fes != []
    ensures var o := Step(c, s, CpuDone);
            o.Next? && o.state.accepted == s.accepted && o.state.dropped == s.dropped && o.state.pauses == s.pauses
  {
    StepKeepsInv(c, s, CpuDone);
  }

  /** Main result on dropping, for every run: a frame is accepted if and only if its length
      and the total length in the system at its arrival are together below the buffer size;
      the accepted ones are those, in order of arrival, and all others are dropped. */
  lemma {:induction false} AcceptedIffRoom(c: Config, es: seq<Input>)
    requires ValidConfig(c) && Possible(c, es)
    ensures Run(c, es).Some?
    ensures var s, fates := Run(c, es).value, Fates(c, es);
            s.accepted == FramesOf(Fitting(c, fates)) && s.dropped == |fates| - |Fitting(c, fates)|
  {
    RunKeepsInv(c, es);
    if es != [] {
      var n := |es| - 1;
      AcceptedIffRoom(c, es[..n]);
      RunKeepsInv(c, es[..n]);
      var s := Run(c, es[..n]).value;
      match es[n]
      case Arrives(f, t) =>
        ArrivalEffect(c, s, f, t);
        FittingMore(c, Fates(c, es[..n]), Fate(f, t, BytesInside(s.m)));
      case CpuDone => DoneEffect(c, s);
    }
  }

  lemma FittingMore(c: Config, fates: seq<Fate>, a: Fate)
    ensures Fitting(c, fates + [a]) == Fitting(c, fates) + (if Fits(c, a) then [a] else [])
    ensures FramesOf(Fitting(c, fates + [a])) == FramesOf(Fitting(c, fates)) + (if Fits(c, a) then [a.frame] else [])
  {
    assert (fates + [a])[..|fates|] == fates;
    var r := Fitting(c, fates);
    assert (r + [a])[..|r|] == r;
  }

  // ---------------------------------------------------------------- pauses

  /** With this frame the buffer is above the watermark, and the last PAUSE is long enough ago. */
  predicate PauseWanted(c: Config, a: Fate, pauses: seq<real>) {
    && c.pauseUnits > 0 && c.highWatermark > 0 && a.frame.length + a.inside >= c.highWatermark
    && a.t - (if pauses == [] then 0.0 else pauses[|pauses| - 1]) > c.pauseInterval
  }

  lemma LastPause(interval: real, pauses: seq<real>, last: real)
    requires Spaced(interval, pauses, last)
    ensures last == if pauses == [] then 0.0 else pauses[|pauses| - 1]
  {
  }

  function PausesWanted(c: Config, fates: seq<Fate>): seq<real> {
    if fates == [] then []
    else
      var n := |fates| - 1;
      var before := PausesWanted(c, fates[..n]);
      before + if Fits(c, fates[n]) && PauseWanted(c, fates[n], before) then [fates[n].t] else []
  }

  /** Main result on PAUSE frames, for every run: they are sent exactly when an accepted
      frame takes the buffer to the watermark and none was sent within the interval. */
  lemma {:induction false} PausedIffHigh(c: Config, es: seq<Input>)
    requires ValidConfig(c) && Possible(c, es)
    ensures Run(c, es).Some? && Run(c, es).value.pauses == PausesWanted(c, Fates(c, es))
  {
    RunKeepsInv(c, es);
    if es != [] {
      var n := |es| - 1;
      PausedIffHigh(c, es[..n]);
      RunKeepsInv(c, es[..n]);
      var s := Run(c, es[..n]).value;
      match es[n]
      case Arrives(f, t) =>
        ArrivalEffect(c, s, f, t);
        var fates, a := Fates(c, es[..n]), Fate(f, t, BytesInside(s.m));
        assert (fates + [a])[..|fates|] == fates;
      case CpuDone => DoneEffect(c, s);
    }
  }

  // ------------------------------------------------------------ service times

  function Max(a: real, b: real): real {
    if a < b then b else a
  }

  /** When the i-th of the frames that arrive at these times is done: it takes the time p on
      one of n CPUs, from its arrival or from when the frame n before it is done. */
  function Finish(n: nat, p: real, arr: seq<real>, i: nat): real
    requires i < |arr|
  {
    if n == 0 then 0.0
    else if i < n then arr[i] + p
    else Max(arr[i], Finish(n, p, arr, i - n)) + p
  }

  lemma {:induction false} FinishPrefix(n: nat, p: real, arr: seq<real>, t: real, i: nat)
    requires i < |arr|
    ensures Finish(n, p, arr + [t], i) == Finish(n, p, arr, i)
  {
    if n > 0 && i >= n { FinishPrefix(n, p, arr, t, i - n); }
  }

  function Below(n: nat): (s: set<nat>)
    ensures |s| == n && forall i :: i in s <==> 0 <= i < n
  {
    if n == 0 then {} else Below(n - 1) + {n - 1}
  }

  lemma {:induction false} AllBusy(n: nat, busy: set<nat>, i: nat)
    requires i <= n && FreeCpu(n, busy, i) == n
    ensures forall j :: i <= j < n ==> j in busy
    decreases n - i
  {
    if i < n { AllBusy(n, busy, i + 1); }
  }

  /** All CPUs are busy exactly if there are as many events as CPUs. */
  lemma BusyCount(n: nat, busy: set<nat>)
    requires forall i :: i in busy ==> i < n
    ensures |busy| <= n && (FreeCpu(n, busy, 0) == n <==> |busy| == n)
  {
    var all, j := Below(n), FreeCpu(n, busy, 0);
    assert busy <= all && all == busy + (all - busy) && |all| == |busy| + |all - busy|;
    if j == n {
      AllBusy(n, busy, 0);
      assert all - busy == {};
    } else {
      assert j in all - busy;
    }
  }

  lemma {:induction false} LinkedSize(context: map<nat, Frame>, fes: seq<Event<nat>>)
    requires Linked(context, fes)
    ensures |fes| == |context.Keys|
    decreases |fes|
  {
    if fes != [] {
      var cpu := fes[0].what;
      LinkedSize(context - {cpu}, fes[1..]);
      assert context.Keys == {cpu} + (context - {cpu}).Keys;
    }
  }

  predicate Timely(n: nat, p: real, m: Machine, arr: seq<real>, done: seq<real>) {
    && |arr| == |done| + |m.fes| + |m.queue|
    && (forall i :: 0 <= i < |arr| ==> arr[i] <= m.now)
    && (forall i :: 0 <= i < |done| ==> done[i] == Finish(n, p, arr, i) && done[i] <= m.now)
    && (forall k :: 0 <= k < |m.fes| ==> m.fes[k].time == Finish(n, p, arr, |done| + k))
    && (forall i :: i in m.context ==> i < n)
    && (m.queue != [] ==> |m.fes| == n)
  }

  lemma TimelyLater(n: nat, p: real, m: Machine, arr: seq<real>, done: seq<real>, t: real)
    requires Timely(n, p, m, arr, done) && m.now <= t
    ensures Timely(n, p, m.(now := t), arr, done)
  {
  }

  /** A new frame on a free CPU is done one processing time from now. */
  lemma FinishNow(n: nat, p: real, m: Machine, arr: seq<real>, done: seq<real>)
    requires Timely(n, p, m, arr, done) && m.queue == [] && |m.fes| < n
    ensures Finish(n, p, arr + [m.now], |arr|) == m.now + p
  {
    var arr', i := arr + [m.now], |arr|;
    if i >= n {
      assert i - n < |done|;
      FinishPrefix(n, p, arr, m.now, i - n);
      assert done[i - n] == Finish(n, p, arr, i - n);
    }
  }

  lemma AssignTimely(c: Config, m: Machine, f: Frame, arr: seq<real>, done: seq<real>)
    requires ValidConfig(c) && Working(c, m) && Timely(c.cpus, c.processingTime, m, arr, done) && Assign(c, m, f).Some?
    ensures Timely(c.cpus, c.processingTime, Assign(c, m, f).value, arr + [m.now], done)
  {
    var n, p, m', arr' := c.cpus, c.processingTime, Assign(c, m, f).value, arr + [m.now];
    ScheduledIsContext(m.context, m.fes);
    LinkedSize(m.context, m.fes);
    BusyCount(n, m.context.Keys);
    forall i | 0 <= i < |arr| ensures Finish(n, p, arr', i) == Finish(n, p, arr, i) {
      FinishPrefix(n, p, arr, m.now, i);
    }
    if FreeCpu(n, m.context.Keys, 0) < n {
      ScheduleSoon(c, m.now, m.fes, FreeCpu(n, m.context.Keys, 0));
      FinishNow(n, p, m, arr, done);
    }
  }

  /** The frame queued first goes on when one that is n before it is done. */
  lemma NextTimely(c: Config, m: Machine, arr: seq<real>, done: seq<real>)
    requires ValidConfig(c) && Working(c, m) && Timely(c.cpus, c.processingTime, m, arr, done)
    requires m.fes != [] && m.now == m.fes[0].time
    ensures var cpu := m.fes[0].what;
            var m' := TakeNext(c, m.(context := m.context - {cpu}, fes := m.fes[1..]), cpu);
            Timely(c.cpus, c.processingTime, m', arr, done + [m.now])
  {
    var cpu, fes' := m.fes[0].what, m.fes[1..];
    assert m.fes[0].time == Finish(c.cpus, c.processingTime, arr, |done| + 0);
    assert Soon(c, m.now, fes');
    if m.queue != [] {
      ScheduleSoon(c, m.now, fes', cpu);
      assert c.cpus > 0 && |done| + c.cpus < |arr| && arr[|done| + c.cpus] <= m.now;
    }
  }

  /** When each frame was dispatched. */
  function DoneAt(c: Config, es: seq<Input>): seq<real>
    requires Run(c, es).Some?
  {
    if es == [] then []
    else
      var n := |es| - 1;
      DoneAt(c, es[..n]) + if es[n].CpuDone? then [Run(c, es[..n]).value.m.fes[0].time] else []
  }

  function Times(fates: seq<Fate>): (r: seq<real>)
    ensures |r| == |fates| && forall i :: 0 <= i < |fates| ==> r[i] == fates[i].t
  {
    if fates == [] then [] else Times(fates[..|fates| - 1]) + [fates[|fates| - 1].t]
  }

  lemma TimesMore(c: Config, fates: seq<Fate>, a: Fate)
    ensures Times(Fitting(c, fates + [a])) == Times(Fitting(c, fates)) + (if Fits(c, a) then [a.t] else [])
  {
    FittingMore(c, fates, a);
    var r := Fitting(c, fates);
    assert (r + [a])[..|r|] == r;
  }

  lemma ArrivalMachine(c: Config, s: State, f: Frame, t: real)
    requires ValidConfig(c) && Inv(c, s) && Enabled(s.m, Arrives(f, t))
    ensures var o, m := Step(c, s, Arrives(f, t)), s.m.(now := t);
            && o.Next?
            && if Fits(c, Fate(f, t, BytesInside(s.m))) then Some(o.state.m) == Assign(c, m, f) else o.state.m == m
  {
    StepKeepsInv(c, s, Arrives(f, t));
  }

  lemma ArrivalTimely(c: Config, s: State, f: Frame, t: real, arr: seq<real>, done: seq<real>)
    requires ValidConfig(c) && Inv(c, s) && Enabled(s.m, Arrives(f, t))
    requires Timely(c.cpus, c.processingTime, s.m, arr, done)
    ensures var o := Step(c, s, Arrives(f, t));
            var arr' := arr + if Fits(c, Fate(f, t, BytesInside(s.m))) then [t] else [];
            o.Next? && Timely(c.cpus, c.processingTime, o.state.m, arr', done)
  {
    ArrivalMachine(c, s, f, t);
    TimelyLater(c.cpus, c.processingTime, s.m, arr, done, t);
    var m := s.m.(now := t);
    if Fits(c, Fate(f, t, BytesInside(s.m))) {
      AssignTimely(c, m, f, arr, done);
    } else {
      assert arr + [] == arr;
    }
  }

  lemma DoneTimely(c: Config, s: State, arr: seq<real>, done: seq<real>)
    requires ValidConfig(c) && Inv(c, s) && s.m.fes != []
    requires Timely(c.cpus, c.processingTime, s.m, arr, done)
    ensures var o := Step(c, s, CpuDone);
            o.Next? && Timely(c.cpus, c.processingTime, o.state.m, arr, done + [s.m.fes[0].time])
  {
    StepKeepsInv(c, s, CpuDone);
    LaterKeeps(c, s, s.m.fes[0].time);
    TimelyLater(c.cpus, c.processingTime, s.m, arr, done, s.m.fes[0].time);
    NextTimely(c, s.m.(now := s.m.fes[0].time), arr, done);
  }

  /** Main result on service, for every run and any number n of CPUs: the i-th accepted frame
      is dispatched exactly one processing time after the later of its arrival and the
      dispatch of the accepted frame n before it. */
  lemma {:induction false} ServedInTime(c: Config, es: seq<Input>)
    requires ValidConfig(c) && Possible(c, es)
    ensures Run(c, es).Some?
    ensures var arr := Times(Fitting(c, Fates(c, es)));
            Timely(c.cpus, c.processingTime, Run(c, es).value.m, arr, DoneAt(c, es))
  {
    RunKeepsInv(c, es);
    if es != [] {
      var n := |es| - 1;
      ServedInTime(c, es[..n]);
      RunKeepsInv(c, es[..n]);
      var s, fates, done := Run(c, es[..n]).value, Fates(c, es[..n]), DoneAt(c, es[..n]);
      match es[n]
      case Arrives(f, t) =>
        ArrivalTimely(c, s, f, t, Times(Fitting(c, fates)), done);
        TimesMore(c, fates, Fate(f, t, BytesInside(s.m)));
        assert done + [] == done;
      case CpuDone => DoneTimely(c, s, Times(Fitting(c, fates)), done);
    }
  }

  lemma DispatchTimes(c: Config, es: seq<Input>, i: nat)
    requires ValidConfig(c) && Possible(c, es) && Run(c, es).Some? && i < |DoneAt(c, es)|
    ensures var arr := Times(Fitting(c, Fates(c, es)));
            && i < |arr|
            && DoneAt(c, es)[i] == Finish(c.cpus, c.processingTime, arr, i)
  {
    ServedInTime(c, es);
  }
}
