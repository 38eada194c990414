/** EtherBus: a frame travels from tap to tap, both ways at once. */
module EtherBus {
  import opened Options
  import opened EventList

  datatype Direction = Upstream | Downstream

  datatype Bus = Bus(pos: seq<real>, speed: real)

  /** A frame, numbered as it comes, with where and when it entered. */
  datatype Frame = Frame(id: nat, src: nat, born: real)

  /** A self-message: the frame is about to reach this tap. */
  datatype Travel = Travel(frame: Frame, dir: Direction, tap: int)

  datatype Delivery = Delivery(frame: Frame, tap: int, time: real)

  datatype State = State(now: real, fes: seq<Event<Travel>>, frames: seq<Frame>, delivered: seq<Delivery>)

  // -------------------------------------------------------------- positions

  /** The distance at which missing positions follow the last one given. */
  function Distance(pos: seq<real>): real {
    if |pos| >= 2 then pos[|pos| - 1] - pos[|pos| - 2] else 5.0
  }

  function PositionAt(pos: seq<real>, i: nat): real {
    if i < |pos| then pos[i] else if i == 0 then 5.0 else PositionAt(pos, i - 1) + Distance(pos)
  }

  predicate Ascending(p: seq<real>) {
    forall i :: 0 <= i < |p| - 1 ==> p[i] <= p[i + 1]
  }

  function Positions(pos: seq<real>, taps: nat): (r: seq<real>)
    ensures |r| == taps && forall i :: 0 <= i < taps ==> r[i] == PositionAt(pos, i)
  {
    if taps == 0 then [] else Positions(pos, taps - 1) + [PositionAt(pos, taps - 1)]
  }

  /** Missing positions go on from the last one given at the distance of the last two, at
      five metres if there are not two, and from five metres if there is none. */
  lemma {:induction false} FilledIn(pos: seq<real>, i: nat)
    ensures i < |pos| ==> PositionAt(pos, i) == pos[i]
    ensures |pos| == 0 ==> PositionAt(pos, i) == 5.0 * (i + 1) as real
    ensures |pos| == 1 ==> PositionAt(pos, i) == pos[0] + 5.0 * i as real
    ensures 2 <= |pos| <= i ==>
              PositionAt(pos, i) == pos[|pos| - 1] + (pos[|pos| - 1] - pos[|pos| - 2]) * (i - |pos| + 1) as real
  {
    if i > 0 && i >= |pos| { FilledIn(pos, i - 1); }
  }

  /** Filling in never breaks the order: the check fails only on the positions given. */
  lemma OrderedIffGivenOrdered(pos: seq<real>, taps: nat)
    ensures Ascending(Positions(pos, taps)) <==> Ascending(pos[..if taps < |pos| then taps else |pos|])
  {
    var r := Positions(pos, taps);
    var m := if taps < |pos| then taps else |pos|;
    var given := pos[..m];
    if Ascending(given) {
      forall i | 0 <= i < taps - 1 ensures r[i] <= r[i + 1] {
        if i + 1 < |pos| {
          assert given[i] <= given[i + 1];
        } else if |pos| >= 2 {
          assert given[|pos| - 2] <= given[|pos| - 1];
        }
      }
    }
    if Ascending(r) {
      forall i | 0 <= i < m - 1 ensures given[i] <= given[i + 1] {
        assert r[i] <= r[i + 1];
      }
    }
  }

  lemma {:induction false} AscendingAll(p: seq<real>, i: nat, j: nat)
    requires Ascending(p) && i <= j < |p|
    ensures p[i] <= p[j]
    decreases j - i
  {
    if i < j { AscendingAll(p, i, j - 1); assert p[j - 1] <= p[j - 1 + 1]; }
  }

  // ------------------------------------------------------------- operations

  predicate ValidBus(b: Bus) {
    Ascending(b.pos) && b.speed > 0.0
  }

  predicate OnBus(b: Bus, k: int) {
    0 <= k < |b.pos|
  }

  /** The end of the bus in this direction. */
  predicate IsLast(b: Bus, dir: Direction, k: int) {
    if dir.Upstream? then k == 0 else k == |b.pos| - 1
  }

  function Next(dir: Direction, k: int): int {
    if dir.Upstream? then k - 1 else k + 1
  }

  /** The propagation delay of tap k. */
  function Delay(b: Bus, dir: Direction, k: int): real
    requires OnBus(b, k) && b.speed > 0.0
  {
    if IsLast(b, dir, k) then 0.0
    else if dir.Upstream? then (b.pos[k] - b.pos[k - 1]) / b.speed
    else (b.pos[k + 1] - b.pos[k]) / b.speed
  }

  /** The delay from one tap to the next is the same both ways, and there is none at the ends. */
  lemma DelaysMirror(b: Bus, k: int)
    requires OnBus(b, k) && b.speed > 0.0
    ensures k == 0 ==> Delay(b, Upstream, k) == 0.0
    ensures k == |b.pos| - 1 ==> Delay(b, Downstream, k) == 0.0
    ensures k > 0 ==> Delay(b, Upstream, k) == Delay(b, Downstream, k - 1)
  {
  }

  /** Schedule the frame for the tap after k, unless the bus ends there. */
  function SendOn(b: Bus, s: State, f: Frame, dir: Direction, k: int): State
    requires OnBus(b, k) && b.speed > 0.0
  {
    if IsLast(b, dir, k) then s
    else Put(s, Travel(f, dir, Next(dir, k)), s.now + Delay(b, dir, k))
  }

  function Put(s: State, w: Travel, t: real): State {
    s.(fes := Schedule(s.fes, t, w))
  }

  /** A frame comes in at tap p. */
  function Arrive(b: Bus, s: State, p: nat, t: real): State
    requires OnBus(b, p) && b.speed > 0.0
  {
    var f := Frame(|s.frames|, p, t);
    var s1 := s.(now := t, frames := s.frames + [f]);
    SendOn(b, SendOn(b, s1, f, Upstream, p), f, Downstream, p)
  }

  /** The first self-message: deliver at its tap and go on. */
  function Reach(b: Bus, s: State): State
    requires s.fes != [] && OnBus(b, s.fes[0].what.tap) && b.speed > 0.0
  {
    var e := s.fes[0];
    SendOn(b, Deliver(s), e.what.frame, e.what.dir, e.what.tap)
  }

  // ----------------------------------------------------------- exact delays

  function Abs(x: real): real {
    if x < 0.0 then -x else x
  }

  /** When a frame should be at a tap. */
  function Due(b: Bus, f: Frame, k: int): real
    requires OnBus(b, f.src) && OnBus(b, k) && b.speed > 0.0
  {
    f.born + Abs(b.pos[k] - b.pos[f.src]) / b.speed
  }

  /** Tap a is farther along than tap c. */
  predicate Ahead(dir: Direction, a: int, c: int) {
    if dir.Upstream? then a < c else a > c
  }

  lemma DivAdds(x: real, y: real, s: real)
    requires s > 0.0
    ensures x / s + y / s == (x + y) / s
  {
  }

  lemma DivMonotone(x: real, y: real, s: real)
    requires s > 0.0 && x <= y
    ensures x / s <= y / s
  {
  }

  /** The delays add up: one hop takes as long as the difference of the due times. */
  lemma HopIsExact(b: Bus, f: Frame, dir: Direction, k: int)
    requires ValidBus(b) && OnBus(b, f.src) && OnBus(b, k) && !IsLast(b, dir, k)
    requires k == f.src || Ahead(dir, k, f.src)
    ensures OnBus(b, Next(dir, k)) && Due(b, f, Next(dir, k)) == Due(b, f, k) + Delay(b, dir, k)
  {
    var q := Next(dir, k);
    if dir.Upstream? {
      AscendingAll(b.pos, k, f.src);
      AscendingAll(b.pos, q, f.src);
      DivAdds(b.pos[f.src] - b.pos[k], b.pos[k] - b.pos[q], b.speed);
    } else {
      AscendingAll(b.pos, f.src, k);
      AscendingAll(b.pos, f.src, q);
      DivAdds(b.pos[k] - b.pos[f.src], b.pos[q] - b.pos[k], b.speed);
    }
  }

  /** Farther along is no sooner. */
  lemma FartherIsLater(b: Bus, f: Frame, dir: Direction, k: int, q: int)
    requires ValidBus(b) && OnBus(b, f.src) && OnBus(b, k) && OnBus(b, q)
    requires (k == f.src || Ahead(dir, k, f.src)) && Ahead(dir, q, k)
    ensures Due(b, f, k) <= Due(b, f, q)
  {
    if dir.Upstream? {
      AscendingAll(b.pos, q, k);
      AscendingAll(b.pos, k, f.src);
    } else {
      AscendingAll(b.pos, k, q);
      AscendingAll(b.pos, f.src, k);
    }
    DivMonotone(Abs(b.pos[k] - b.pos[f.src]), Abs(b.pos[q] - b.pos[f.src]), b.speed);
  }

  // ----------------------------------------------------- what is still owed

  /** The deliveries beyond tap k, each at its due time. */
  function Beyond(b: Bus, f: Frame, dir: Direction, k: int): multiset<Delivery>
    requires OnBus(b, f.src) && OnBus(b, k) && b.speed > 0.0
    decreases if dir.Upstream? then k else |b.pos| - k
  {
    if IsLast(b, dir, k) then multiset{}
    else
      var q := Next(dir, k);
      multiset{Delivery(f, q, Due(b, f, q))} + Beyond(b, f, dir, q)
  }

  /** A delivery that the bus promises for frame f beyond tap k. */
  predicate Promised(b: Bus, f: Frame, dir: Direction, k: int, d: Delivery)
    requires OnBus(b, f.src) && b.speed > 0.0
  {
    d.frame == f && OnBus(b, d.tap) && Ahead(dir, d.tap, k) && d.time == Due(b, f, d.tap)
  }

  /** Each promised delivery is there exactly once, and nothing else is. */
  lemma {:induction false} BeyondOnce(b: Bus, f: Frame, dir: Direction, k: int, d: Delivery)
    requires OnBus(b, f.src) && OnBus(b, k) && b.speed > 0.0
    ensures Beyond(b, f, dir, k)[d] == if Promised(b, f, dir, k, d) then 1 else 0
    decreases if dir.Upstream? then k else |b.pos| - k
  {
    if !IsLast(b, dir, k) { BeyondOnce(b, f, dir, Next(dir, k), d); }
  }

  predicate Travels(b: Bus, w: Travel)
  {
    OnBus(b, w.frame.src) && OnBus(b, w.tap) && Ahead(w.dir, w.tap, w.frame.src)
  }

  /** What one self-message will still deliver. */
  function Future(b: Bus, w: Travel): multiset<Delivery>
    requires Travels(b, w) && b.speed > 0.0
  {
    multiset{Delivery(w.frame, w.tap, Due(b, w.frame, w.tap))} + Beyond(b, w.frame, w.dir, w.tap)
  }

  predicate AllTravel(b: Bus, fes: seq<Event<Travel>>) {
    forall i :: 0 <= i < |fes| ==> Travels(b, fes[i].what)
  }

  function Owed(b: Bus, fes: seq<Event<Travel>>): multiset<Delivery>
    requires b.speed > 0.0 && AllTravel(b, fes)
  {
    if fes == [] then multiset{} else Future(b, fes[0].what) + Owed(b, fes[1..])
  }

  predicate Recorded(b: Bus, frames: seq<Frame>) {
    forall i :: 0 <= i < |frames| ==> frames[i].id == i && OnBus(b, frames[i].src)
  }

  /** Every other tap, once, for every frame that came in. */
  function Total(b: Bus, frames: seq<Frame>): multiset<Delivery>
    requires b.speed > 0.0 && Recorded(b, frames)
  {
    if frames == [] then multiset{}
    else
      var f := frames[|frames| - 1];
      Total(b, frames[..|frames| - 1]) + (Beyond(b, f, Upstream, f.src) + Beyond(b, f, Downstream, f.src))
  }

  /** The delivery that should happen: to another tap, after exactly the distance over the speed. */
  predicate Expected(b: Bus, frames: seq<Frame>, d: Delivery)
    requires b.speed > 0.0 && Recorded(b, frames)
  {
    && d.frame.id < |frames| && frames[d.frame.id] == d.frame
    && OnBus(b, d.tap) && d.tap != d.frame.src && d.time == Due(b, d.frame, d.tap)
  }

  lemma {:induction false} TotalOnce(b: Bus, frames: seq<Frame>, d: Delivery)
    requires b.speed > 0.0 && Recorded(b, frames)
    ensures Total(b, frames)[d] == if Expected(b, frames, d) then 1 else 0
  {
    if frames != [] {
      var f := frames[|frames| - 1];
      TotalOnce(b, frames[..|frames| - 1], d);
      BeyondOnce(b, f, Upstream, f.src, d);
      BeyondOnce(b, f, Downstream, f.src, d);
    }
  }

  lemma TravelInsert(b: Bus, fes: seq<Event<Travel>>, k: nat, e: Event<Travel>)
    requires AllTravel(b, fes) && k <= |fes| && Travels(b, e.what)
    ensures AllTravel(b, fes[..k] + [e] + fes[k..])
  {
  }

  lemma Associates(x: multiset<Delivery>, y: multiset<Delivery>, z: multiset<Delivery>)
    ensures x + (y + z) == (x + y) + z
  {
  }

  lemma {:induction false} OwedInsert(b: Bus, fes: seq<Event<Travel>>, k: nat, e: Event<Travel>)
    requires b.speed > 0.0 && AllTravel(b, fes) && k <= |fes| && Travels(b, e.what)
    requires AllTravel(b, fes[..k] + [e] + fes[k..])
    ensures Owed(b, fes[..k] + [e] + fes[k..]) == Owed(b, fes) + Future(b, e.what)
  {
    var r := fes[..k] + [e] + fes[k..];
    if k == 0 {
      assert r[1..] == fes;
    } else {
      var rest := fes[1..];
      assert r[1..] == rest[..k - 1] + [e] + rest[k - 1..];
      OwedInsert(b, rest, k - 1, e);
      Associates(Future(b, fes[0].what), Owed(b, rest), Future(b, e.what));
    }
  }

  lemma PutOwes(b: Bus, s: State, w: Travel, t: real)
    requires b.speed > 0.0 && AllTravel(b, s.fes) && Travels(b, w)
    ensures AllTravel(b, Put(s, w, t).fes) && Owed(b, Put(s, w, t).fes) == Owed(b, s.fes) + Future(b, w)
  {
    TravelInsert(b, s.fes, Rank(s.fes, t), Event(t, w));
    OwedInsert(b, s.fes, Rank(s.fes, t), Event(t, w));
  }

  lemma BeyondIsFuture(b: Bus, f: Frame, dir: Direction, k: int)
    requires b.speed > 0.0 && OnBus(b, f.src) && OnBus(b, k) && !IsLast(b, dir, k)
    requires k == f.src || Ahead(dir, k, f.src)
    ensures Travels(b, Travel(f, dir, Next(dir, k))) && Future(b, Travel(f, dir, Next(dir, k))) == Beyond(b, f, dir, k)
  {
  }

  lemma SendOnPuts(b: Bus, s: State, f: Frame, dir: Direction, k: int) returns (s': State, t: real)
    requires b.speed > 0.0 && OnBus(b, k) && !IsLast(b, dir, k)
    ensures t == s.now + Delay(b, dir, k)
    ensures s' == SendOn(b, s, f, dir, k) && s' == Put(s, Travel(f, dir, Next(dir, k)), t)
  {
    t := s.now + Delay(b, dir, k);
    s' := SendOn(b, s, f, dir, k);
  }

  /** Sending a frame on from tap k owes what is beyond k. */
  lemma SendOnOwes(b: Bus, s: State, f: Frame, dir: Direction, k: int)
    requires b.speed > 0.0 && AllTravel(b, s.fes) && OnBus(b, f.src) && OnBus(b, k)
    requires k == f.src || Ahead(dir, k, f.src)
    ensures AllTravel(b, SendOn(b, s, f, dir, k).fes)
    ensures Owed(b, SendOn(b, s, f, dir, k).fes) == Owed(b, s.fes) + Beyond(b, f, dir, k)
  {
    if !IsLast(b, dir, k) {
      BeyondIsFuture(b, f, dir, k);
      var s', t := SendOnPuts(b, s, f, dir, k);
      PutOwes(b, s, Travel(f, dir, Next(dir, k)), t);
    }
  }

  /** What an event still owes comes no sooner than the event itself. */
  lemma {:induction false} OwedLater(b: Bus, fes: seq<Event<Travel>>, t: real, d: Delivery)
    requires ValidBus(b) && AllTravel(b, fes) && d in Owed(b, fes)
    requires forall i :: 0 <= i < |fes| ==> t <= Due(b, fes[i].what.frame, fes[i].what.tap)
    ensures t <= d.time
  {
    var w := fes[0].what;
    if d in Owed(b, fes[1..]) {
      OwedLater(b, fes[1..], t, d);
    } else if d in Beyond(b, w.frame, w.dir, w.tap) {
      BeyondOnce(b, w.frame, w.dir, w.tap, d);
      FartherIsLater(b, w.frame, w.dir, w.tap, d.tap);
    }
  }

  // ------------------------------------------------------------------ order

  /** x stands before y in the event list, and one of them would overtake the other. */
  predicate Wrong(x: Travel, y: Travel) {
    && x.frame.src == y.frame.src && x.dir == y.dir
    && (if x.frame.id > y.frame.id then !Ahead(x.dir, y.tap, x.tap)
        else x.frame.id < y.frame.id && Ahead(x.dir, y.tap, x.tap))
  }

  predicate InOrder(fes: seq<Event<Travel>>) {
    forall i, j :: 0 <= i < j < |fes| ==> !Wrong(fes[i].what, fes[j].what)
  }

  /** An older frame is still on its way to a tap that a younger one has seen. */
  predicate Passed(d: Delivery, y: Travel) {
    d.frame.src == y.frame.src && d.frame.id > y.frame.id && !Ahead(y.dir, y.tap, d.tap)
  }

  predicate NonePassed(delivered: seq<Delivery>, fes: seq<Event<Travel>>) {
    forall i, j :: 0 <= i < |delivered| && 0 <= j < |fes| ==> !Passed(delivered[i], fes[j].what)
  }

  /** Two frames from one tap, delivered to one tap in the wrong order. */
  predicate Overtaken(x: Delivery, y: Delivery) {
    x.tap == y.tap && x.frame.src == y.frame.src && x.frame.id > y.frame.id
  }

  predicate NoneOvertaken(delivered: seq<Delivery>) {
    forall i, j :: 0 <= i < j < |delivered| ==> !Overtaken(delivered[i], delivered[j])
  }

  predicate OnTime(b: Bus, frames: seq<Frame>, e: Event<Travel>)
    requires b.speed > 0.0
  {
    && Travels(b, e.what) && e.time == Due(b, e.what.frame, e.what.tap)
    && e.what.frame.id < |frames| && frames[e.what.frame.id] == e.what.frame
  }

  predicate AllOnTime(b: Bus, frames: seq<Frame>, fes: seq<Event<Travel>>)
    requires b.speed > 0.0
  {
    forall i :: 0 <= i < |fes| ==> OnTime(b, frames, fes[i])
  }

  predicate BornInOrder(frames: seq<Frame>, now: real) {
    && (forall i, j :: 0 <= i <= j < |frames| ==> frames[i].born <= frames[j].born)
    && (forall i :: 0 <= i < |frames| ==> frames[i].born <= now)
  }

  predicate DeliveredKnown(delivered: seq<Delivery>, n: nat) {
    forall i :: 0 <= i < |delivered| ==> delivered[i].frame.id < n
  }

  predicate NotBefore(fes: seq<Event<Travel>>, now: real) {
    forall i :: 0 <= i < |fes| ==> now <= fes[i].time
  }

  /** The event list: on time, in order, nothing passed. */
  predicate Shape(b: Bus, s: State) {
    && ValidBus(b) && Recorded(b, s.frames) && BornInOrder(s.frames, s.now)
    && Sorted(s.fes) && NotBefore(s.fes, s.now)
    && AllOnTime(b, s.frames, s.fes) && InOrder(s.fes) && NonePassed(s.delivered, s.fes)
  }

  predicate Inv(b: Bus, s: State) {
    && Shape(b, s) && NoneOvertaken(s.delivered)
    && DeliveredKnown(s.delivered, |s.frames|)
    && AllTravel(b, s.fes)
    && multiset(s.delivered) + Owed(b, s.fes) == Total(b, s.frames)
  }

  /** Frame f can leave tap k: older ones are beyond it, younger ones are not. */
  predicate Clear(y: Travel, f: Frame, dir: Direction, k: int) {
    y.frame.src == f.src && y.dir == dir ==>
      && (y.frame.id > f.id ==> !Ahead(dir, y.tap, k))
      && (y.frame.id < f.id ==> Ahead(dir, y.tap, k))
  }

  predicate AllClear(fes: seq<Event<Travel>>, f: Frame, dir: Direction, k: int) {
    forall i :: 0 <= i < |fes| ==> Clear(fes[i].what, f, dir, k)
  }

  /** An older frame that is due later is due farther along. */
  lemma OlderIsFirst(b: Bus, frames: seq<Frame>, now: real, y: Event<Travel>, x: Event<Travel>)
    requires b.speed > 0.0 && OnTime(b, frames, x) && OnTime(b, frames, y) && BornInOrder(frames, now)
    requires y.what.frame.src == x.what.frame.src && y.what.frame.id < x.what.frame.id && y.what.tap == x.what.tap
    ensures y.time <= x.time
  {
    assert frames[y.what.frame.id].born <= frames[x.what.frame.id].born;
  }

  lemma InsertInOrder(fes: seq<Event<Travel>>, k: nat, x: Event<Travel>)
    requires InOrder(fes) && k <= |fes|
    requires forall i :: 0 <= i < k ==> !Wrong(fes[i].what, x.what)
    requires forall i :: k <= i < |fes| ==> !Wrong(x.what, fes[i].what)
    ensures InOrder(fes[..k] + [x] + fes[k..])
  {
    var r := fes[..k] + [x] + fes[k..];
    forall i, j | 0 <= i < j < |r| ensures !Wrong(r[i].what, r[j].what) {
      assert r[i] == if i < k then fes[i] else if i == k then x else fes[i - 1];
      assert r[j] == if j < k then fes[j] else if j == k then x else fes[j - 1];
    }
  }

  lemma RankRest<T>(fes: seq<Event<T>>, t: real, i: nat)
    requires Sorted(fes) && Rank(fes, t) <= i < |fes|
    ensures t < fes[i].time
  {
    assert fes[Rank(fes, t)].time <= fes[i].time;
  }

  lemma ScheduleInOrder(b: Bus, frames: seq<Frame>, now: real, fes: seq<Event<Travel>>,
                        f: Frame, dir: Direction, k: int, t: real)
    requires b.speed > 0.0 && AllOnTime(b, frames, fes) && BornInOrder(frames, now)
    requires Sorted(fes) && InOrder(fes) && AllClear(fes, f, dir, k)
    requires OnTime(b, frames, Event(t, Travel(f, dir, Next(dir, k))))
    ensures InOrder(Schedule(fes, t, Travel(f, dir, Next(dir, k))))
  {
    var x := Event(t, Travel(f, dir, Next(dir, k)));
    var r := Rank(fes, t);
    forall i | 0 <= i < r ensures !Wrong(fes[i].what, x.what) {
      assert Clear(fes[i].what, f, dir, k);
    }
    forall i | r <= i < |fes| ensures !Wrong(x.what, fes[i].what) {
      assert Clear(fes[i].what, f, dir, k) && OnTime(b, frames, fes[i]);
      RankRest(fes, t, i);
      if Wrong(x.what, fes[i].what) { OlderIsFirst(b, frames, now, fes[i], x); }
    }
    InsertInOrder(fes, r, x);
  }

  lemma ScheduleAll(b: Bus, s: State, t: real, w: Travel)
    requires b.speed > 0.0 && AllOnTime(b, s.frames, s.fes) && NotBefore(s.fes, s.now) && NonePassed(s.delivered, s.fes)
    requires OnTime(b, s.frames, Event(t, w)) && s.now <= t
    requires forall i :: 0 <= i < |s.delivered| ==> !Passed(s.delivered[i], w)
    ensures var fes := Schedule(s.fes, t, w);
            AllOnTime(b, s.frames, fes) && NotBefore(fes, s.now) && NonePassed(s.delivered, fes)
  {
    var fes := Schedule(s.fes, t, w);
    forall i | 0 <= i < |fes|
      ensures OnTime(b, s.frames, fes[i]) && s.now <= fes[i].time
      ensures forall j :: 0 <= j < |s.delivered| ==> !Passed(s.delivered[j], fes[i].what)
    {
      ScheduledAt(s.fes, t, w, i);
    }
  }

  lemma PutKeeps(b: Bus, s: State, f: Frame, dir: Direction, k: int, t: real)
    requires Shape(b, s) && AllClear(s.fes, f, dir, k) && s.now <= t
    requires OnTime(b, s.frames, Event(t, Travel(f, dir, Next(dir, k))))
    requires forall i :: 0 <= i < |s.delivered| ==> !Passed(s.delivered[i], Travel(f, dir, Next(dir, k)))
    ensures Shape(b, Put(s, Travel(f, dir, Next(dir, k)), t))
  {
    var w := Travel(f, dir, Next(dir, k));
    ScheduleAll(b, s, t, w);
    ScheduleSorted(s.fes, t, w);
    ScheduleInOrder(b, s.frames, s.now, s.fes, f, dir, k, t);
  }

  lemma HopOnTime(b: Bus, frames: seq<Frame>, f: Frame, dir: Direction, k: int, now: real)
    requires ValidBus(b) && OnBus(b, k) && OnBus(b, f.src) && (k == f.src || Ahead(dir, k, f.src))
    requires f.id < |frames| && frames[f.id] == f && now == Due(b, f, k) && !IsLast(b, dir, k)
    ensures now <= now + Delay(b, dir, k)
    ensures OnTime(b, frames, Event(now + Delay(b, dir, k), Travel(f, dir, Next(dir, k))))
  {
    HopIsExact(b, f, dir, k);
    FartherIsLater(b, f, dir, k, Next(dir, k));
  }

  lemma SendOnKeeps(b: Bus, s: State, f: Frame, dir: Direction, k: int)
    requires Shape(b, s) && OnBus(b, k) && OnBus(b, f.src) && (k == f.src || Ahead(dir, k, f.src))
    requires f.id < |s.frames| && s.frames[f.id] == f && s.now == Due(b, f, k)
    requires AllClear(s.fes, f, dir, k)
    requires forall i :: 0 <= i < |s.delivered| ==> !Passed(s.delivered[i], Travel(f, dir, Next(dir, k)))
    ensures Shape(b, SendOn(b, s, f, dir, k))
  {
    if !IsLast(b, dir, k) {
      HopOnTime(b, s.frames, f, dir, k, s.now);
      var s', t := SendOnPuts(b, s, f, dir, k);
      PutKeeps(b, s, f, dir, k, t);
    }
  }

  // ------------------------------------------------------------------- steps

  /** A new frame is the youngest, and nothing of it has been delivered. */
  lemma EnterKeeps(b: Bus, s: State, p: nat, t: real)
    requires Shape(b, s) && DeliveredKnown(s.delivered, |s.frames|) && OnBus(b, p)
    requires s.now <= t && NotBefore(s.fes, t)
    ensures var f := Frame(|s.frames|, p, t);
            var s1 := s.(now := t, frames := s.frames + [f]);
            && Shape(b, s1) && Due(b, f, p) == t
            && AllClear(s1.fes, f, Upstream, p) && AllClear(s1.fes, f, Downstream, p)
  {
    var f := Frame(|s.frames|, p, t);
    var frames := s.frames + [f];
    forall i | 0 <= i < |s.fes| ensures OnTime(b, frames, s.fes[i]) && Clear(s.fes[i].what, f, s.fes[i].what.dir, p) {
      assert OnTime(b, s.frames, s.fes[i]);
    }
  }

  lemma ArriveShape(b: Bus, s: State, p: nat, t: real)
    requires Shape(b, s) && DeliveredKnown(s.delivered, |s.frames|) && OnBus(b, p)
    requires s.now <= t && NotBefore(s.fes, t)
    ensures Shape(b, Arrive(b, s, p, t))
  {
    EnterKeeps(b, s, p, t);
    var f := Frame(|s.frames|, p, t);
    var s1 := s.(now := t, frames := s.frames + [f]);
    SendOnKeeps(b, s1, f, Upstream, p);
    OtherWayClear(b, s1, f, p);
    SendOnKeeps(b, SendOn(b, s1, f, Upstream, p), f, Downstream, p);
  }

  /** The copy sent upstream is not in the way downstream. */
  lemma OtherWayClear(b: Bus, s: State, f: Frame, p: int)
    requires b.speed > 0.0 && OnBus(b, p) && AllClear(s.fes, f, Downstream, p)
    ensures AllClear(SendOn(b, s, f, Upstream, p).fes, f, Downstream, p)
  {
    if !IsLast(b, Upstream, p) {
      var t, w := s.now + Delay(b, Upstream, p), Travel(f, Upstream, Next(Upstream, p));
      forall i | 0 <= i <= |s.fes| ensures Clear(Schedule(s.fes, t, w)[i].what, f, Downstream, p) {
        ScheduledAt(s.fes, t, w, i);
      }
    }
  }

  lemma Regroup(a: multiset<Delivery>, b: multiset<Delivery>, c: multiset<Delivery>, d: multiset<Delivery>)
    ensures a + ((b + c) + d) == (a + b) + (c + d)
  {
  }

  lemma TotalAdds(b: Bus, frames: seq<Frame>, f: Frame)
    requires b.speed > 0.0 && Recorded(b, frames) && f.id == |frames| && OnBus(b, f.src)
    ensures Recorded(b, frames + [f])
    ensures Total(b, frames + [f])
         == Total(b, frames) + (Beyond(b, f, Upstream, f.src) + Beyond(b, f, Downstream, f.src))
  {
    assert (frames + [f])[..|frames|] == frames;
  }

  lemma BothWaysOwe(b: Bus, s: State, f: Frame)
    requires b.speed > 0.0 && AllTravel(b, s.fes) && OnBus(b, f.src)
    ensures var s' := SendOn(b, SendOn(b, s, f, Upstream, f.src), f, Downstream, f.src);
            && AllTravel(b, s'.fes)
            && Owed(b, s'.fes) == (Owed(b, s.fes) + Beyond(b, f, Upstream, f.src)) + Beyond(b, f, Downstream, f.src)
  {
    SendOnOwes(b, s, f, Upstream, f.src);
    SendOnOwes(b, SendOn(b, s, f, Upstream, f.src), f, Downstream, f.src);
  }

  lemma ArriveOwes(b: Bus, s: State, p: nat, t: real)
    requires b.speed > 0.0 && AllTravel(b, s.fes) && Recorded(b, s.frames) && OnBus(b, p)
    requires multiset(s.delivered) + Owed(b, s.fes) == Total(b, s.frames)
    ensures var s' := Arrive(b, s, p, t);
            && Recorded(b, s'.frames) && AllTravel(b, s'.fes)
            && multiset(s'.delivered) + Owed(b, s'.fes) == Total(b, s'.frames)
  {
    var f := Frame(|s.frames|, p, t);
    TotalAdds(b, s.frames, f);
    BothWaysOwe(b, s.(now := t, frames := s.frames + [f]), f);
    Regroup(multiset(s.delivered), Owed(b, s.fes), Beyond(b, f, Upstream, p), Beyond(b, f, Downstream, p));
  }

  lemma ArriveKeeps(b: Bus, s: State, p: nat, t: real)
    requires Inv(b, s) && OnBus(b, p) && s.now <= t && NotBefore(s.fes, t)
    ensures Inv(b, Arrive(b, s, p, t))
  {
    ArriveShape(b, s, p, t);
    ArriveOwes(b, s, p, t);
  }

  /** Reach, before the frame is sent on. */
  function Deliver(s: State): State
    requires s.fes != []
  {
    var e := s.fes[0];
    s.(now := e.time, fes := s.fes[1..], delivered := s.delivered + [Delivery(e.what.frame, e.what.tap, e.time)])
  }

  /** The first event overtakes no other, and no other has overtaken it. */
  lemma HeadIsClear(b: Bus, s: State, j: nat)
    requires Shape(b, s) && 0 < j < |s.fes|
    ensures var e := s.fes[0];
            && Clear(s.fes[j].what, e.what.frame, e.what.dir, e.what.tap)
            && !Passed(Delivery(e.what.frame, e.what.tap, e.time), s.fes[j].what)
  {
    assert !Wrong(s.fes[0].what, s.fes[j].what);
    assert OnTime(b, s.frames, s.fes[0]) && OnTime(b, s.frames, s.fes[j]);
  }

  lemma DeliverShape(b: Bus, s: State)
    requires Shape(b, s) && s.fes != []
    ensures var e := s.fes[0].what; Shape(b, Deliver(s)) && AllClear(Deliver(s).fes, e.frame, e.dir, e.tap)
  {
    var s', e := Deliver(s), s.fes[0];
    assert OnTime(b, s.frames, e);
    forall j | 0 <= j < |s'.fes|
      ensures Clear(s'.fes[j].what, e.what.frame, e.what.dir, e.what.tap)
      ensures !Passed(s'.delivered[|s.delivered|], s'.fes[j].what)
    {
      HeadIsClear(b, s, j + 1);
    }
    forall i, j | 0 <= i < |s'.delivered| && 0 <= j < |s'.fes| ensures !Passed(s'.delivered[i], s'.fes[j].what) {
      if i < |s.delivered| { assert !Passed(s.delivered[i], s.fes[j + 1].what); }
    }
  }

  lemma ReachShape(b: Bus, s: State)
    requires Shape(b, s) && s.fes != []
    ensures OnBus(b, s.fes[0].what.tap) && Shape(b, Reach(b, s))
  {
    var e, s1 := s.fes[0].what, Deliver(s);
    assert OnTime(b, s.frames, s.fes[0]);
    DeliverShape(b, s);
    forall i | 0 <= i < |s1.delivered| ensures !Passed(s1.delivered[i], Travel(e.frame, e.dir, Next(e.dir, e.tap))) {
      if i < |s.delivered| { assert !Passed(s.delivered[i], e); }
    }
    SendOnKeeps(b, s1, e.frame, e.dir, e.tap);
  }

  lemma ReachOwes(b: Bus, s: State)
    requires b.speed > 0.0 && AllTravel(b, s.fes) && s.fes != []
    requires s.fes[0].time == Due(b, s.fes[0].what.frame, s.fes[0].what.tap)
    ensures var s' := Reach(b, s);
            AllTravel(b, s'.fes) && multiset(s'.delivered) + Owed(b, s'.fes) == multiset(s.delivered) + Owed(b, s.fes)
  {
    var w, s1 := s.fes[0].what, Deliver(s);
    var d := multiset{Delivery(w.frame, w.tap, s.fes[0].time)};
    SendOnOwes(b, s1, w.frame, w.dir, w.tap);
    assert multiset(s1.delivered) == multiset(s.delivered) + d;
    Swap(multiset(s.delivered), d, Owed(b, s.fes[1..]), Beyond(b, w.frame, w.dir, w.tap));
  }

  lemma Swap(a: multiset<Delivery>, b: multiset<Delivery>, c: multiset<Delivery>, d: multiset<Delivery>)
    ensures (a + b) + (c + d) == a + ((b + d) + c)
  {
  }

  lemma ReachLog(b: Bus, s: State)
    requires Shape(b, s) && s.fes != [] && OnBus(b, s.fes[0].what.tap)
    requires NoneOvertaken(s.delivered) && DeliveredKnown(s.delivered, |s.frames|)
    ensures NoneOvertaken(Reach(b, s).delivered) && DeliveredKnown(Reach(b, s).delivered, |s.frames|)
  {
    assert OnTime(b, s.frames, s.fes[0]);
    forall i | 0 <= i < |s.delivered|
      ensures !Overtaken(s.delivered[i], Delivery(s.fes[0].what.frame, s.fes[0].what.tap, s.fes[0].time))
    {
      assert !Passed(s.delivered[i], s.fes[0].what);
    }
  }

  lemma ReachKeeps(b: Bus, s: State)
    requires Inv(b, s) && s.fes != []
    ensures OnBus(b, s.fes[0].what.tap) && Inv(b, Reach(b, s))
  {
    assert OnTime(b, s.frames, s.fes[0]);
    ReachShape(b, s);
    ReachOwes(b, s);
    ReachLog(b, s);
  }

  // -------------------------------------------------------------------- runs

  /** A frame arrives on a tap, or the first self-message is due. */
  datatype Input = FromTap(tap: nat, t: real) | Timer

  predicate Enabled(b: Bus, s: State, e: Input) {
    match e
    case FromTap(p, t) => OnBus(b, p) && s.now <= t && NotBefore(s.fes, t)
    case Timer => s.fes != [] && OnBus(b, s.fes[0].what.tap)
  }

  function Step(b: Bus, s: State, e: Input): State
    requires b.speed > 0.0 && Enabled(b, s, e)
  {
    match e
    case FromTap(p, t) => Arrive(b, s, p, t)
    case Timer => Reach(b, s)
  }

  /** The state after a run; None if the order of events is not possible. */
  function Run(b: Bus, es: seq<Input>): Option<State>
    requires b.speed > 0.0
  {
    if es == [] then Some(State(0.0, [], [], []))
    else
      var before := Run(b, es[..|es| - 1]);
      if before.None? || !Enabled(b, before.value, es[|es| - 1]) then None
      else Some(Step(b, before.value, es[|es| - 1]))
  }

  lemma {:induction false} RunKeepsInv(b: Bus, es: seq<Input>)
    requires ValidBus(b) && Run(b, es).Some?
    ensures Inv(b, Run(b, es).value)
  {
    if es != [] {
      var s := Run(b, es[..|es| - 1]).value;
      RunKeepsInv(b, es[..|es| - 1]);
      match es[|es| - 1]
      case FromTap(p, t) => ArriveKeeps(b, s, p, t);
      case Timer => ReachKeeps(b, s);
    }
  }

  /** Main result: at every moment of every run, a delivery has been made at most once,
      only to a tap other than the frame's own, and only at exactly the time the distance
      takes; it has been made once the clock is past that time, or nothing is pending. */
  lemma DeliveredExactlyOnce(b: Bus, es: seq<Input>, d: Delivery)
    requires ValidBus(b) && Run(b, es).Some?
    ensures var s := Run(b, es).value;
            && Recorded(b, s.frames)
            && (d in s.delivered ==> Expected(b, s.frames, d))
            && multiset(s.delivered)[d] <= 1
            && (Expected(b, s.frames, d) && (d.time < s.now || s.fes == []) ==> multiset(s.delivered)[d] == 1)
  {
    RunKeepsInv(b, es);
    var s := Run(b, es).value;
    TotalOnce(b, s.frames, d);
    if d in Owed(b, s.fes) {
      forall i | 0 <= i < |s.fes| ensures s.now <= Due(b, s.fes[i].what.frame, s.fes[i].what.tap) {
        assert OnTime(b, s.frames, s.fes[i]);
      }
      OwedLater(b, s.fes, s.now, d);
    }
    assert d in s.delivered <==> d in multiset(s.delivered);
  }

  /** Main result: frames from one tap reach every tap in the order in which they were sent. */
  lemma FramesKeepOrder(b: Bus, es: seq<Input>, i: nat, j: nat)
    requires ValidBus(b) && Run(b, es).Some?
    requires var l := Run(b, es).value.delivered;
             i < j < |l| && l[i].tap == l[j].tap && l[i].frame.src == l[j].frame.src
    ensures var l := Run(b, es).value.delivered; l[i].frame.id < l[j].frame.id
  {
    RunKeepsInv(b, es);
    var s := Run(b, es).value;
    var x, y := s.delivered[i], s.delivered[j];
    assert !Overtaken(x, y);
    if x.frame.id == y.frame.id {
      DeliveredExactlyOnce(b, es, x);
      DeliveredExactlyOnce(b, es, y);
      assert x == y;
      TwiceCounts(s.delivered, i, j);
    }
  }

  lemma TwiceCounts(l: seq<Delivery>, i: nat, j: nat)
    requires i < j < |l| && l[i] == l[j]
    ensures multiset(l)[l[i]] >= 2
  {
    assert l == l[..i] + [l[i]] + l[i + 1..j] + [l[j]] + l[j + 1..];
  }

  // --------------------------------------------------------------- the module

  datatype BusTap = BusTap(id: nat, position: real, up: real, down: real)

  /** The first loop of initialize. */
  method FillPositions(pos: seq<real>, taps: nat) returns (tap: array<BusTap>)
    ensures fresh(tap) && tap.Length == taps
    ensures forall i :: 0 <= i < taps ==> tap[i] == BusTap(i, PositionAt(pos, i), 0.0, 0.0)
  {
    tap := new BusTap[taps](_ => BusTap(0, 0.0, 0.0, 0.0));
    var distance := if |pos| >= 2 then pos[|pos| - 1] - pos[|pos| - 2] else 5.0;
    for i := 0 to taps
      invariant forall j :: 0 <= j < i ==> tap[j] == BusTap(j, PositionAt(pos, j), 0.0, 0.0)
    {
      var position := 5.0;
      if i < |pos| {
        position := pos[i];
      } else if i > 0 {
        position := tap[i - 1].position + distance;
      }
      assert position == PositionAt(pos, i);
      tap[i] := BusTap(i, position, 0.0, 0.0);
    }
  }

  /** The second loop: false where initialize raises an error. */
  method CheckOrder(pos: seq<real>, tap: array<BusTap>) returns (ok: bool)
    requires forall i :: 0 <= i < tap.Length ==> tap[i].position == PositionAt(pos, i)
    ensures ok <==> Ascending(Positions(pos, tap.Length))
  {
    ghost var p := Positions(pos, tap.Length);
    var i := 0;
    while i < tap.Length - 1
      invariant 0 <= i && (tap.Length > 0 ==> i < tap.Length) && (tap.Length == 0 ==> i == 0)
      invariant forall j :: 0 <= j < i ==> p[j] <= p[j + 1]
    {
      if tap[i].position > tap[i + 1].position {
        assert !(p[i] <= p[i + 1]);
        return false;
      }
      i := i + 1;
    }
    return true;
  }

  predicate TapGood(b: Bus, k: int, x: BusTap)
    requires OnBus(b, k) && b.speed > 0.0
  {
    x == BusTap(k, b.pos[k], Delay(b, Upstream, k), Delay(b, Downstream, k))
  }

  /** The third loop; with a single tap it would read past the end of the array. */
  method FillDelays(tap: array<BusTap>, speed: real, ghost b: Bus)
    requires tap.Length == |b.pos| && tap.Length != 1 && speed == b.speed && speed > 0.0
    requires forall i :: 0 <= i < tap.Length ==> tap[i] == BusTap(i, b.pos[i], 0.0, 0.0)
    modifies tap
    ensures forall i :: 0 <= i < tap.Length ==> TapGood(b, i, tap[i])
  {
    for i := 0 to tap.Length
      invariant forall j :: 0 <= j < i ==> TapGood(b, j, tap[j])
      invariant forall j :: i <= j < tap.Length ==> tap[j] == BusTap(j, b.pos[j], 0.0, 0.0)
    {
      if i == 0 {
        tap[i] := tap[i].(up := 0.0, down := (tap[i + 1].position - tap[i].position) / speed);
      } else if i == tap.Length - 1 {
        tap[i] := tap[i].(up := tap[i - 1].down, down := 0.0);
      } else {
        tap[i] := tap[i].(up := tap[i - 1].down, down := (tap[i + 1].position - tap[i].position) / speed);
      }
    }
  }

  class EtherBusModule {
    const tap: array<BusTap>
    const ok: bool
    ghost const bus: Bus
    var now: real
    var fes: seq<Event<Travel>>
    var frames: seq<Frame>
    var delivered: seq<Delivery>

    ghost function View(): State
      reads this
    {
      State(now, fes, frames, delivered)
    }

    ghost predicate Valid()
      reads tap
    {
      ValidBus(bus) && tap.Length == |bus.pos| && forall i :: 0 <= i < tap.Length ==> TapGood(bus, i, tap[i])
    }

    /** initialize: the bus is usable exactly if the given positions are in order. */
    constructor (pos: seq<real>, taps: nat, speed: real)
      requires taps != 1 && speed > 0.0
      ensures bus == Bus(Positions(pos, taps), speed) && fresh(tap) && View() == State(0.0, [], [], [])
      ensures ok <==> Ascending(pos[..if taps < |pos| then taps else |pos|])
      ensures ok ==> Valid()
    {
      var t := FillPositions(pos, taps);
      var inOrder := CheckOrder(pos, t);
      ghost var b := Bus(Positions(pos, taps), speed);
      OrderedIffGivenOrdered(pos, taps);
      if inOrder { FillDelays(t, speed, b); }
      tap, ok, bus := t, inOrder, b;
      now, fes, frames, delivered := 0.0, [], [], [];
    }

    method Continue(f: Frame, dir: Direction, k: nat)
      requires Valid() && k < tap.Length
      modifies this`fes
      ensures View() == SendOn(bus, old(View()), f, dir, k)
    {
      assert TapGood(bus, k, tap[k]);
      var isLast := if dir.Upstream? then k == 0 else k == tap.Length - 1;
      if !isLast {
        var delay := if dir.Upstream? then tap[k].up else tap[k].down;
        fes := Schedule(fes, now + delay, Travel(f, dir, if dir.Upstream? then k - 1 else k + 1));
      }
    }

    /** handleMessage for a frame from the network entity at a tap. */
    method HandleArrival(tapPoint: nat, t: real)
      requires Valid() && tapPoint < tap.Length
      modifies this
      ensures View() == Arrive(bus, old(View()), tapPoint, t)
      ensures old(Inv(bus, View()) && Enabled(bus, View(), FromTap(tapPoint, t))) ==> Inv(bus, View())
    {
      if Inv(bus, View()) && Enabled(bus, View(), FromTap(tapPoint, t)) { ArriveKeeps(bus, View(), tapPoint, t); }
      var f := Frame(|frames|, tapPoint, t);
      now, frames := t, frames + [f];
      Continue(f, Upstream, tapPoint);
      Continue(f, Downstream, tapPoint);
    }

    /** handleMessage for a self-message. */
    method HandleSelfMessage()
      requires Valid() && fes != [] && OnBus(bus, fes[0].what.tap)
      modifies this
      ensures View() == Reach(bus, old(View()))
      ensures old(Inv(bus, View())) ==> Inv(bus, View())
    {
      if Inv(bus, View()) { ReachKeeps(bus, View()); }
      var e := fes[0];
      now, fes := e.time, fes[1..];
      delivered := delivered + [Delivery(e.what.frame, e.what.tap, now)];
      Continue(e.what.frame, e.what.dir, e.what.tap);
    }
  }
}
