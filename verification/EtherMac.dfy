/** The half/full-duplex Ethernet MAC: CSMA/CD with inter-frame gap, jam, truncated
    binary exponential backoff and PAUSE, as event handlers over one state value. */
module EtherMac {
  import opened Options

  const MAX_ETHERNET_FRAME: int := 1518
  const GIGABIT_MIN_FRAME_WITH_EXT: int := 512
  const GIGABIT_MAX_BURST_BYTES: int := 8192
  const INTERFRAME_GAP_BITS: int := 96
  const MAX_ATTEMPTS: int := 16
  const BACKOFF_RANGE_LIMIT: int := 10
  const JAM_SIGNAL_BYTES: int := 4
  const PREAMBLE_AND_SFD_BYTES: int := 8
  const PAUSE_BITTIME: int := 512

  datatype TxState = TxIdle | WaitIfg | Transmitting | Jamming | Backoff | Paused
  datatype RxState = RxIdle | Receiving | RxCollision

  datatype Frame =
    | Data(id: int, bytes: nat)
    | Pause(id: int, bytes: nat, units: nat)

  /** What arrives on the wire: its length there, and how long ago it was sent. */
  datatype NetMsg = FrameMsg(frame: Frame, bits: nat, age: nat) | Jam(bits: nat, age: nat)

  /** Times are integers in one unit; `bitTime` of them make a bit. */
  datatype Config = Config(
    duplex: bool, carrierExtension: bool, frameBursting: bool,
    bitTime: nat, slotTime: nat, txQueueLimit: nat, shortestFrameDuration: nat)
  {
    /** How long so many bits take. */
    function Span(bits: nat): nat { bits * bitTime }
    function Ifg(): nat { Span(INTERFRAME_GAP_BITS) }
    function JamDuration(): nat { Span(8 * JAM_SIGNAL_BYTES) }
    function Slots(n: nat): nat { n * slotTime }
  }

  /** A self-message: when it is due, if it is scheduled. */
  datatype Timer = Off | Due(at: int)

  datatype Mac = Mac(
    now: int,
    tx: TxState, rx: RxState,
    queue: seq<Frame>,
    pauseUnitsRequested: nat,
    backoffs: nat, concurrent: int,
    receiving: Option<Frame>,
    endIfg: Timer, endTx: Timer, endRx: Timer, endBackoff: Timer, endJam: Timer, endPause: Timer,
    bytesSentInBurst: nat,
    channelBusySince: int, successTime: int, collisionTime: int,
    framesSent: nat, numBackoffs: nat)

  datatype Error =
    // internal consistency checks
    | TransmittingAndReceiving | AlreadyScheduled | NotWaitIfg | NothingToTransmit
    | BadEndOfTransmission | FrameNotFound | NotBackoff | BackoffQueueEmpty | NotJamming
    | NotPaused | FrameHeldWhileIdle | QueueUnderflow
    // caused by the environment
    | StrayJam | FrameToSelf | FrameTooLong | QueueTooLong | CableTooLong

  predicate Internal(e: Error) {
    !(e.StrayJam? || e.FrameToSelf? || e.FrameTooLong? || e.QueueTooLong? || e.CableTooLong?)
  }

  datatype Outcome = Next(mac: Mac) | Fault(error: Error) {
    predicate IsFailure() { Fault? }
    function PropagateFailure(): Outcome requires Fault? { this }
    function Extract(): Mac requires Next? { mac }
  }

  // ------------------------------------------------------------- scheduling

  function ScheduleEndIfg(c: Config, s: Mac): Outcome {
    if s.endIfg.Due? then Fault(AlreadyScheduled)
    else Next(s.(endIfg := Due(s.now + c.Ifg()), tx := WaitIfg))
  }

  function ScheduleEndTx(c: Config, s: Mac, bytes: nat): Outcome {
    if s.endTx.Due? then Fault(AlreadyScheduled)
    else Next(s.(endTx := Due(s.now + c.Span(8 * bytes)), tx := Transmitting))
  }

  function ScheduleEndPause(c: Config, s: Mac, units: nat): Outcome {
    if s.endPause.Due? then Fault(AlreadyScheduled)
    else Next(s.(endPause := Due(s.now + c.Span(units * PAUSE_BITTIME)), tx := Paused))
  }

  function ScheduleEndRx(c: Config, s: Mac, bits: nat): Outcome {
    if s.endRx.Due? then Fault(AlreadyScheduled)
    else Next(s.(endRx := Due(s.now + c.Span(bits)), rx := Receiving))
  }

  function SendJamSignal(c: Config, s: Mac): Outcome {
    if s.endJam.Due? then Fault(AlreadyScheduled)
    else Next(s.(endJam := Due(s.now + c.JamDuration()), tx := Jamming))
  }

  function BeginSendFrames(c: Config, s: Mac): Outcome {
    if s.queue != [] then ScheduleEndIfg(c, s) else Next(s.(tx := TxIdle))
  }

  // --------------------------------------------------------------- handlers

  /** PAUSE frames go to the front, ahead of the frame being sent. */
  function Enqueue(c: Config, s: Mac, frame: Frame, toSelf: bool): Outcome {
    if toSelf then Fault(FrameToSelf)
    else if frame.bytes > MAX_ETHERNET_FRAME then Fault(FrameTooLong)
    else if frame.Data? then
      if c.txQueueLimit != 0 && |s.queue| > c.txQueueLimit then Fault(QueueTooLong)
      else Next(s.(queue := s.queue + [frame]))
    else Next(s.(queue := [frame] + s.queue))
  }

  function ProcessFrameFromUpperLayer(c: Config, s: Mac, frame: Frame, toSelf: bool): Outcome {
    var s1 :- Enqueue(c, s, frame, toSelf);
    if (c.duplex || s1.rx == RxIdle) && s1.tx == TxIdle then ScheduleEndIfg(c, s1) else Next(s1)
  }

  function ProcessPauseCommand(c: Config, s: Mac, units: nat): Outcome {
    if s.tx == TxIdle then
      if units > 0 then ScheduleEndPause(c, s, units) else Next(s)
    else if s.tx == Paused then
      var s1 := s.(endPause := Off);
      if units > 0 then ScheduleEndPause(c, s1, units) else Next(s1)
    else
      Next(s.(pauseUnitsRequested := units))
  }

  function FrameReceptionComplete(c: Config, s: Mac, frame: Frame): Outcome {
    if frame.Pause? then ProcessPauseCommand(c, s, frame.units) else Next(s)
  }

  /** A frame arrives while transmitting in half-duplex mode. */
  function CollideWithTransmission(c: Config, s: Mac, bits: nat): Outcome {
    var s1 :- SendJamSignal(c, s.(endTx := Off));
    ReceiveCollision(c, s1, bits)
  }

  /** Nothing but a collision is received until both the frame and our jam are over. */
  function ReceiveCollision(c: Config, s: Mac, bits: nat): Outcome {
    var endRxTime, endJamTime := s.now + c.Span(bits), s.now + c.JamDuration();
    if s.endRx.Due? then Fault(AlreadyScheduled)
    else Next(s.(rx := RxCollision, concurrent := s.concurrent + 1,
                 endRx := Due(if endRxTime < endJamTime then endJamTime else endRxTime)))
  }

  function StartReception(c: Config, s: Mac, msg: NetMsg): Outcome {
    if msg.Jam? then Fault(StrayJam)
    else if s.receiving.Some? then Fault(FrameHeldWhileIdle)
    else
      var s1 :- ScheduleEndRx(c, s.(concurrent := s.concurrent + 1, receiving := Some(msg.frame)), msg.bits);
      Next(s1.(channelBusySince := s.now))
  }

  /** The next frame begins less than a bit time before the current one ends. */
  predicate BackToBack(c: Config, s: Mac, msg: NetMsg) {
    s.rx == Receiving && msg.FrameMsg? && s.endRx.Due? && s.endRx.at - s.now < c.bitTime
  }

  function FollowWithNextFrame(c: Config, s: Mac, msg: NetMsg): Outcome
    requires msg.FrameMsg?
  {
    if s.receiving.None? then Fault(FrameNotFound)
    else
      var s1 :- FrameReceptionComplete(c, s.(endRx := Off, receiving := None), s.receiving.value);
      ScheduleEndRx(c, s1.(receiving := Some(msg.frame)), msg.bits)
  }

  function OverlapReception(c: Config, s: Mac, msg: NetMsg): Outcome {
    var endRxTime := s.now + c.Span(msg.bits);
    if msg.Jam? && s.concurrent <= 0 then Fault(StrayJam)
    else
      var n := if msg.Jam? then s.concurrent - 1 else s.concurrent + 1;
      var moved := if msg.Jam? then n == 0 else !s.endRx.Due? || s.endRx.at < endRxTime;
      Next(s.(concurrent := n, receiving := None, rx := RxCollision,
              endRx := if moved then Due(endRxTime) else s.endRx))
  }

  /** The propagation took as long as the shortest frame, on a half-duplex cable. */
  predicate TooOld(c: Config, msg: NetMsg) {
    !c.duplex && msg.age >= c.shortestFrameDuration
  }

  function ProcessMsgFromNetwork(c: Config, s: Mac, msg: NetMsg): Outcome {
    if TooOld(c, msg) then Fault(CableTooLong)
    else if !c.duplex && s.tx == Transmitting then
      if msg.Jam? then Fault(StrayJam) else CollideWithTransmission(c, s, msg.bits)
    else if s.rx == RxIdle then StartReception(c, s, msg)
    else if BackToBack(c, s, msg) then FollowWithNextFrame(c, s, msg)
    else OverlapReception(c, s, msg)
  }

  /** Sending into an ongoing reception: collide at once. */
  function CollideBlindly(c: Config, s: Mac): Outcome {
    var s1 :- SendJamSignal(c, s);
    Next(s1.(receiving := None, rx := RxCollision))
  }

  function BeginTransmission(c: Config, s: Mac, bytes: nat): Outcome {
    var s1 :- ScheduleEndTx(c, s, bytes);
    Next(s1.(channelBusySince := if c.duplex then s1.channelBusySince else s1.now))
  }

  function StartFrameTransmission(c: Config, s: Mac): Outcome {
    if s.queue == [] then Fault(NothingToTransmit)
    else
      var bytes := s.queue[0].bytes + PREAMBLE_AND_SFD_BYTES;
      var s1 := s.(bytesSentInBurst := if c.frameBursting then bytes else s.bytesSentInBurst);
      if !c.duplex && s1.rx != RxIdle then CollideBlindly(c, s1) else BeginTransmission(c, s1, bytes)
  }

  function HandleEndIfg(c: Config, s: Mac): Outcome {
    if s.tx != WaitIfg then Fault(NotWaitIfg)
    else if s.queue == [] then Fault(NothingToTransmit)
    else
      var frame := s.queue[0];
      var extended := if c.carrierExtension && frame.bytes < GIGABIT_MIN_FRAME_WITH_EXT
                      then frame.(bytes := GIGABIT_MIN_FRAME_WITH_EXT) else frame;
      StartFrameTransmission(c, s.(queue := [extended] + s.queue[1..],
                                   bytesSentInBurst := if c.frameBursting then 0 else s.bytesSentInBurst))
  }

  function BaseEndTx(c: Config, s: Mac): Outcome {
    if s.tx != Transmitting || (!c.duplex && s.rx != RxIdle) then Fault(BadEndOfTransmission)
    else if s.queue == [] then Fault(FrameNotFound)
    else Next(s.(queue := s.queue[1..], framesSent := s.framesSent + 1))
  }

  /** After a transmission: obey a PAUSE, go on with the burst, or wait. */
  function ContinueSending(c: Config, s: Mac): Outcome {
    if s.pauseUnitsRequested > 0 then
      var s1 :- ScheduleEndPause(c, s, s.pauseUnitsRequested);
      Next(s1.(pauseUnitsRequested := 0))
    else if c.frameBursting && s.queue != [] && s.bytesSentInBurst < GIGABIT_MAX_BURST_BYTES then
      StartFrameTransmission(c, s)
    else
      BeginSendFrames(c, s)
  }

  function HandleEndTx(c: Config, s: Mac): Outcome {
    var s1 :- BaseEndTx(c, s);
    ContinueSending(c, s1.(backoffs := 0,
                           successTime := s1.successTime + if c.duplex then 0 else s1.now - s1.channelBusySince))
  }

  /** The reception is over: a frame came through, or a collision did. */
  function FinishReception(c: Config, s: Mac, dt: int): Outcome {
    if s.rx == Receiving then
      if s.receiving.None? then Fault(FrameNotFound)
      else FrameReceptionComplete(c, s.(receiving := None, successTime := s.successTime + dt), s.receiving.value)
    else Next(s.(collisionTime := s.collisionTime + dt))
  }

  function HandleEndRx(c: Config, s: Mac): Outcome {
    var s1 :- FinishReception(c, s, s.now - s.channelBusySince);
    ReceiverBecomesIdle(c, s1)
  }

  function ReceiverBecomesIdle(c: Config, s: Mac): Outcome {
    var s1 := s.(rx := RxIdle, concurrent := 0);
    if s1.tx == TxIdle && s1.queue != [] then ScheduleEndIfg(c, s1) else Next(s1)
  }

  function HandleEndBackoff(c: Config, s: Mac): Outcome {
    if s.tx != Backoff then Fault(NotBackoff)
    else if s.queue == [] then Fault(BackoffQueueEmpty)
    else if s.rx == RxIdle then ScheduleEndIfg(c, s)
    else Next(s.(tx := TxIdle))
  }

  function Pow2(n: nat): (r: nat)
    ensures r >= 1
  {
    if n == 0 then 1 else 2 * Pow2(n - 1)
  }

  /** Slots to choose from before attempt number n. */
  function BackoffRange(n: nat): nat {
    if n >= BACKOFF_RANGE_LIMIT then 1024 else Pow2(n)
  }

  function HandleRetransmission(c: Config, s: Mac, slot: nat): Outcome {
    if s.backoffs + 1 > MAX_ATTEMPTS then
      if s.queue == [] then Fault(QueueUnderflow)
      else Next(s.(queue := s.queue[1..], tx := TxIdle, backoffs := 0))
    else if s.endBackoff.Due? then Fault(AlreadyScheduled)
    else Next(s.(backoffs := s.backoffs + 1, tx := Backoff, numBackoffs := s.numBackoffs + 1,
                 endBackoff := Due(s.now + c.Slots(slot))))
  }

  function HandleEndJam(c: Config, s: Mac, slot: nat): Outcome {
    if s.tx != Jamming then Fault(NotJamming) else HandleRetransmission(c, s, slot)
  }

  function HandleEndPause(c: Config, s: Mac): Outcome {
    if s.tx != Paused then Fault(NotPaused) else BeginSendFrames(c, s)
  }

  // ----------------------------------------------------------------- events

  datatype Event =
    | Upper(frame: Frame, toSelf: bool)
    | Net(msg: NetMsg)
    | EndIfg | EndTx | EndRx | EndBackoff | EndPause
    | EndJam(slot: nat)

  /** The timer that an event is the expiry of, and the state once it is taken off. */
  function TimerOf(s: Mac, e: Event): Timer {
    match e
    case EndIfg => s.endIfg
    case EndTx => s.endTx
    case EndRx => s.endRx
    case EndBackoff => s.endBackoff
    case EndPause => s.endPause
    case EndJam(_) => s.endJam
    case _ => Off
  }

  function TakeOff(s: Mac, e: Event): Mac {
    match e
    case EndIfg => s.(endIfg := Off)
    case EndTx => s.(endTx := Off)
    case EndRx => s.(endRx := Off)
    case EndBackoff => s.(endBackoff := Off)
    case EndPause => s.(endPause := Off)
    case EndJam(_) => s.(endJam := Off)
    case _ => s
  }

  predicate NotBefore(tm: Timer, t: int) {
    tm.Due? ==> tm.at >= t
  }

  predicate AllNotBefore(s: Mac, t: int) {
    && NotBefore(s.endIfg, t) && NotBefore(s.endTx, t) && NotBefore(s.endRx, t)
    && NotBefore(s.endBackoff, t) && NotBefore(s.endJam, t) && NotBefore(s.endPause, t)
  }

  /** The event can be the next one, at time t: no scheduled event is passed over;
      events due at the same time may come in any order. */
  predicate Enabled(s: Mac, e: Event, t: int) {
    && t >= s.now && AllNotBefore(s, t)
    && (e.Upper? || e.Net? || TimerOf(s, e) == Due(t))
    && (e.EndJam? && s.backoffs < MAX_ATTEMPTS ==> e.slot < BackoffRange(s.backoffs + 1))
  }

  function Dispatch(c: Config, s: Mac, e: Event): Outcome {
    if !c.duplex && s.tx == Transmitting && s.rx != RxIdle then Fault(TransmittingAndReceiving)
    else match e
      case Upper(frame, toSelf) => ProcessFrameFromUpperLayer(c, s, frame, toSelf)
      case Net(msg) => ProcessMsgFromNetwork(c, s, msg)
      case EndIfg => HandleEndIfg(c, s)
      case EndTx => HandleEndTx(c, s)
      case EndRx => HandleEndRx(c, s)
      case EndBackoff => HandleEndBackoff(c, s)
      case EndJam(slot) => HandleEndJam(c, s, slot)
      case EndPause => HandleEndPause(c, s)
  }

  /** The state the handler of e finds at time t. */
  function Before(s: Mac, e: Event, t: int): Mac {
    TakeOff(s, e).(now := t)
  }

  function Step(c: Config, s: Mac, e: Event, t: int): Outcome {
    Dispatch(c, Before(s, e, t), e)
  }

  /** The state autoconfig leaves, with the frames that came down meanwhile. */
  function AfterAutoconfig(c: Config, queue: seq<Frame>, t: int): (s: Mac) {
    var s := Mac(t, TxIdle, RxIdle, queue, 0, 0, 0, None, Off, Off, Off, Off, Off, Off, 0, 0, 0, 0, 0, 0);
    if queue == [] then s else s.(endIfg := Due(t + c.Ifg()), tx := WaitIfg)
  }

  // -------------------------------------------------------------- invariant

  predicate Timers(s: Mac) {
    && (s.endIfg.Due? <==> s.tx == WaitIfg)
    && (s.endTx.Due? <==> s.tx == Transmitting)
    && (s.endJam.Due? <==> s.tx == Jamming)
    && (s.endBackoff.Due? <==> s.tx == Backoff)
    && (s.endPause.Due? ==> s.tx == Paused)
    && (s.endRx.Due? <==> s.rx != RxIdle)
    && AllNotBefore(s, s.now)
  }

  predicate Receiver(s: Mac) {
    && (s.receiving.Some? <==> s.rx == Receiving)
    && (s.rx == Receiving ==> s.concurrent == 1)
    && (s.rx == RxIdle ==> s.concurrent == 0)
    && s.concurrent >= 0
  }

  predicate Sized(q: seq<Frame>) {
    forall i :: 0 <= i < |q| ==> q[i].bytes <= MAX_ETHERNET_FRAME
  }

  predicate Transmitter(c: Config, s: Mac) {
    && (!c.duplex && s.tx == Transmitting ==> s.rx == RxIdle)
    && (c.duplex ==> s.tx != Jamming && s.tx != Backoff)
    && (s.tx in {WaitIfg, Transmitting, Jamming, Backoff} ==> s.queue != [])
    && s.backoffs <= MAX_ATTEMPTS
    && Sized(s.queue)
    && s.bytesSentInBurst <= MAX_ETHERNET_FRAME + PREAMBLE_AND_SFD_BYTES
  }

  predicate Busy(c: Config, s: Mac) {
    s.rx != RxIdle || (!c.duplex && s.tx == Transmitting)
  }

  /** Time accounted for so far, up to now if the channel is busy. */
  function Paid(c: Config, s: Mac): int {
    s.successTime + s.collisionTime + if Busy(c, s) then s.now - s.channelBusySince else 0
  }

  predicate Inv(c: Config, s: Mac) {
    && Timers(s) && Receiver(s) && Transmitter(c, s)
    && (Busy(c, s) ==> s.channelBusySince <= s.now)
  }

  function Ids(q: seq<Frame>): seq<int> {
    seq(|q|, i requires 0 <= i < |q| => q[i].id)
  }

  /** How a step changes the queue, the counters and the channel totals. */
  predicate QueueEffect(s: Mac, e: Event, s': Mac) {
    match e
    case Upper(f, _) =>
      s'.queue == (if f.Data? then s.queue + [f] else [f] + s.queue) && s'.backoffs == s.backoffs
      && s'.framesSent == s.framesSent && s'.numBackoffs == s.numBackoffs
    case EndTx =>
      s.queue != [] && s'.queue == s.queue[1..] && s'.backoffs == 0
      && s'.framesSent == s.framesSent + 1 && s'.numBackoffs == s.numBackoffs
    case EndJam(_) =>
      if s.backoffs < MAX_ATTEMPTS then
        s'.queue == s.queue && s'.backoffs == s.backoffs + 1
        && s'.framesSent == s.framesSent && s'.numBackoffs == s.numBackoffs + 1
      else
        s.queue != [] && s'.queue == s.queue[1..] && s'.backoffs == 0
        && s'.framesSent == s.framesSent && s'.numBackoffs == s.numBackoffs
    case EndIfg =>
      s.queue != [] && s'.queue != [] && s'.queue[0].id == s.queue[0].id && s'.queue[1..] == s.queue[1..]
      && s'.backoffs == s.backoffs && s'.framesSent == s.framesSent && s'.numBackoffs == s.numBackoffs
    case _ =>
      s'.queue == s.queue && s'.backoffs == s.backoffs
      && s'.framesSent == s.framesSent && s'.numBackoffs == s.numBackoffs
  }


  /** What only the outside can do wrong. */
  predicate Offends(c: Config, s: Mac, e: Event) {
    match e
    case Upper(frame, toSelf) =>
      toSelf || frame.bytes > MAX_ETHERNET_FRAME || (frame.Data? && c.txQueueLimit != 0 && |s.queue| > c.txQueueLimit)
    case Net(msg) => TooOld(c, msg) || (msg.Jam? && (s.rx == RxIdle || s.concurrent == 0))
    case _ => false
  }

  /** The state a handler starts from: consistent, but for the timer just taken off. */
  predicate Ready(c: Config, s: Mac, e: Event) {
    && (s.endIfg.Due? <==> s.tx == WaitIfg && !e.EndIfg?)
    && (s.endTx.Due? <==> s.tx == Transmitting && !e.EndTx?)
    && (s.endJam.Due? <==> s.tx == Jamming && !e.EndJam?)
    && (s.endBackoff.Due? <==> s.tx == Backoff && !e.EndBackoff?)
    && (s.endPause.Due? ==> s.tx == Paused && !e.EndPause?)
    && (s.endRx.Due? <==> s.rx != RxIdle && !e.EndRx?)
    && AllNotBefore(s, s.now) && Receiver(s) && Transmitter(c, s)
    && (Busy(c, s) ==> s.channelBusySince <= s.now)
    && (e.EndIfg? ==> s.tx == WaitIfg) && (e.EndTx? ==> s.tx == Transmitting)
    && (e.EndJam? ==> s.tx == Jamming) && (e.EndBackoff? ==> s.tx == Backoff)
    && (e.EndPause? ==> s.tx == Paused) && (e.EndRx? ==> s.rx != RxIdle)
  }

  predicate GoodOutcome(c: Config, s: Mac, e: Event, o: Outcome) {
    && o.Next? && Inv(c, o.mac) && o.mac.now == s.now
    && QueueEffect(s, e, o.mac)
    && Paid(c, o.mac) == Paid(c, s) && o.mac.successTime >= s.successTime && o.mac.collisionTime >= s.collisionTime
  }

  lemma UpperGood(c: Config, s: Mac, frame: Frame, toSelf: bool)
    requires Ready(c, s, Upper(frame, toSelf))
    ensures var o := ProcessFrameFromUpperLayer(c, s, frame, toSelf);
            if Offends(c, s, Upper(frame, toSelf)) then o.Fault? && !Internal(o.error)
            else GoodOutcome(c, s, Upper(frame, toSelf), o)
  {
    if !Offends(c, s, Upper(frame, toSelf)) {
      assert Sized(s.queue + [frame]) && Sized([frame] + s.queue);
    }
  }

  lemma ReceptionCompleteGood(c: Config, s: Mac, frame: Frame)
    requires s.endPause.Due? ==> s.tx == Paused
    ensures var o := FrameReceptionComplete(c, s, frame);
            && o.Next?
            && o.mac == s.(tx := o.mac.tx, endPause := o.mac.endPause, pauseUnitsRequested := o.mac.pauseUnitsRequested)
            && (o.mac.tx == s.tx || (s.tx == TxIdle && o.mac.tx == Paused))
            && (o.mac.endPause.Due? ==> o.mac.tx == Paused)
            && (NotBefore(s.endPause, s.now) ==> NotBefore(o.mac.endPause, s.now))
  {
  }

  lemma CollideGood(c: Config, s: Mac, msg: NetMsg)
    requires Ready(c, s, Net(msg)) && !c.duplex && s.tx == Transmitting
    ensures GoodOutcome(c, s, Net(msg), CollideWithTransmission(c, s, msg.bits))
  {
  }

  lemma FollowGood(c: Config, s: Mac, msg: NetMsg)
    requires Ready(c, s, Net(msg)) && BackToBack(c, s, msg) && (c.duplex || s.tx != Transmitting)
    ensures GoodOutcome(c, s, Net(msg), FollowWithNextFrame(c, s, msg))
  {
    ReceptionCompleteGood(c, s.(endRx := Off, receiving := None), s.receiving.value);
  }

  lemma NetGood(c: Config, s: Mac, msg: NetMsg)
    requires Ready(c, s, Net(msg))
    ensures var o := ProcessMsgFromNetwork(c, s, msg);
            if Offends(c, s, Net(msg)) then o.Fault? && !Internal(o.error) else GoodOutcome(c, s, Net(msg), o)
  {
    if TooOld(c, msg) {
    } else if !c.duplex && s.tx == Transmitting {
      CollideGood(c, s, msg);
    } else if BackToBack(c, s, msg) {
      FollowGood(c, s, msg);
    }
  }

  lemma EndIfgGood(c: Config, s: Mac)
    requires Ready(c, s, EndIfg)
    ensures GoodOutcome(c, s, EndIfg, HandleEndIfg(c, s))
  {
  }

  lemma EndTxGood(c: Config, s: Mac)
    requires Ready(c, s, EndTx)
    ensures GoodOutcome(c, s, EndTx, HandleEndTx(c, s))
  {
    assert Sized(s.queue[1..]);
  }

  lemma FinishReceptionGood(c: Config, s: Mac, dt: int)
    requires Ready(c, s, EndRx)
    ensures var o := FinishReception(c, s, dt);
            && o.Next?
            && o.mac == s.(tx := o.mac.tx, endPause := o.mac.endPause, pauseUnitsRequested := o.mac.pauseUnitsRequested,
                           receiving := None,
                           successTime := s.successTime + if s.rx == Receiving then dt else 0,
                           collisionTime := s.collisionTime + if s.rx == Receiving then 0 else dt)
            && (o.mac.tx == s.tx || (s.tx == TxIdle && o.mac.tx == Paused))
            && (o.mac.endPause.Due? ==> o.mac.tx == Paused) && NotBefore(o.mac.endPause, s.now)
  {
    if s.receiving.Some? {
      ReceptionCompleteGood(c, s.(receiving := None, successTime := s.successTime + dt), s.receiving.value);
    }
  }

  lemma EndRxGood(c: Config, s: Mac)
    requires Ready(c, s, EndRx)
    ensures GoodOutcome(c, s, EndRx, HandleEndRx(c, s))
  {
    FinishReceptionGood(c, s, s.now - s.channelBusySince);
  }

  lemma OtherTimersGood(c: Config, s: Mac, e: Event)
    requires Ready(c, s, e) && (e.EndBackoff? || e.EndJam? || e.EndPause?)
    ensures GoodOutcome(c, s, e, Dispatch(c, s, e))
  {
    if s.queue != [] { assert Sized(s.queue[1..]); }
  }

  lemma BeforeReady(c: Config, s: Mac, e: Event, t: int)
    requires Inv(c, s) && Enabled(s, e, t)
    ensures Ready(c, Before(s, e, t), e) && (Offends(c, Before(s, e, t), e) <==> Offends(c, s, e))
  {
  }

  /** Every step from a consistent state either is consistent again or is refused
      because of the environment: no internal check can fire. */
  lemma StepKeepsInv(c: Config, s: Mac, e: Event, t: int)
    requires Inv(c, s) && Enabled(s, e, t)
    ensures Step(c, s, e, t).Fault? <==> Offends(c, s, e)
    ensures Step(c, s, e, t).Fault? ==> !Internal(Step(c, s, e, t).error)
    ensures Step(c, s, e, t).Next? ==> GoodOutcome(c, Before(s, e, t), e, Step(c, s, e, t))
  {
    var s1 := Before(s, e, t);
    BeforeReady(c, s, e, t);
    match e
    case Upper(frame, toSelf) => UpperGood(c, s1, frame, toSelf);
    case Net(msg) => NetGood(c, s1, msg);
    case EndIfg => EndIfgGood(c, s1);
    case EndTx => EndTxGood(c, s1);
    case EndRx => EndRxGood(c, s1);
    case _ => OtherTimersGood(c, s1, e);
  }

  // ------------------------------------------------------------ whole runs

  /** How an event may change the transmit state. */
  predicate TxEffect(s: Mac, e: Event, s': Mac) {
    match e
    case EndIfg => s.tx == WaitIfg && s'.tx in {Transmitting, Jamming}
    case EndTx => s.tx == Transmitting && s'.tx in {TxIdle, WaitIfg, Transmitting, Paused}
    case EndJam(_) => s.tx == Jamming && s'.tx == if s.backoffs < MAX_ATTEMPTS then Backoff else TxIdle
    case EndBackoff => s.tx == Backoff && s'.tx in {WaitIfg, TxIdle}
    case _ =>
      || s'.tx == s.tx
      || (s.tx == Transmitting && s'.tx == Jamming)
      || (s.tx in {TxIdle, Paused} && s'.tx in {TxIdle, Paused, WaitIfg})
  }

  lemma NetTxEffect(c: Config, s: Mac, msg: NetMsg)
    requires Ready(c, s, Net(msg)) && ProcessMsgFromNetwork(c, s, msg).Next?
    ensures TxEffect(s, Net(msg), ProcessMsgFromNetwork(c, s, msg).mac)
  {
    if BackToBack(c, s, msg) && (c.duplex || s.tx != Transmitting) {
      ReceptionCompleteGood(c, s.(endRx := Off, receiving := None), s.receiving.value);
    }
  }

  lemma EndRxTxEffect(c: Config, s: Mac)
    requires Ready(c, s, EndRx)
    ensures HandleEndRx(c, s).Next? && TxEffect(s, EndRx, HandleEndRx(c, s).mac)
  {
    EndRxGood(c, s);
    FinishReceptionGood(c, s, s.now - s.channelBusySince);
  }

  lemma OtherTxEffect(c: Config, s: Mac, e: Event)
    requires Ready(c, s, e) && !e.Net? && !e.EndRx? && Dispatch(c, s, e).Next?
    ensures TxEffect(s, e, Dispatch(c, s, e).mac)
  {
  }

  lemma StepTxEffect(c: Config, s: Mac, e: Event, t: int)
    requires Inv(c, s) && Enabled(s, e, t) && Step(c, s, e, t).Next?
    ensures TxEffect(s, e, Step(c, s, e, t).mac)
  {
    var s1 := Before(s, e, t);
    BeforeReady(c, s, e, t);
    match e
    case Net(msg) => NetTxEffect(c, s1, msg);
    case EndRx => EndRxTxEffect(c, s1);
    case _ => OtherTxEffect(c, s1, e);
  }

  // --------------------------------------------------------------- the book

  /** A backoff: the frame that had collided, by its number, the slots drawn, and when it
      began and ended. */
  datatype Draw = Draw(frame: Option<nat>, slots: nat, at: int, until: Option<int>)

  /** A frame is taken from the queue, as sent or as given up: its number, that of the frame
      last put on the wire, the draws since the last departure, and the counters below. */
  datatype Departure = Departure(
    frame: nat, wire: Option<nat>, draws: seq<Draw>, jumped: nat, late: nat, tries: nat, sent: bool)

  /** What an observer writes down of the frames, which are numbered as they are accepted.
      `queued` are those in the queue; `wire` was put on the wire last, and `jumped` PAUSE
      frames from above have been accepted since; `first` was put on the wire first since
      the last departure, and `late` PAUSE frames have been accepted since then; `tries`
      counts the ends of gaps, jams, backoffs and transmissions since the last departure. */
  datatype Book = Book(
    accepted: seq<Frame>, queued: seq<nat>, departed: seq<Departure>,
    wire: Option<nat>, jumped: nat, first: Option<nat>, late: nat, draws: seq<Draw>, tries: nat)

  function Arrive(b: Book, f: Frame): Book {
    var n := |b.accepted|;
    if f.Data? then b.(accepted := b.accepted + [f], queued := b.queued + [n])
    else b.(accepted := b.accepted + [f], queued := [n] + b.queued, jumped := b.jumped + 1,
            late := if b.first.Some? then b.late + 1 else 0)
  }

  function PutOnWire(b: Book): Book {
    if b.queued == [] then b
    else b.(wire := Some(b.queued[0]), jumped := 0, first := if b.first.Some? then b.first else Some(b.queued[0]))
  }

  function DrawSlots(b: Book, slots: nat, now: int): Book {
    b.(draws := b.draws + [Draw(b.wire, slots, now, None)])
  }

  function EndWait(b: Book, now: int): Book {
    var n := |b.draws| - 1;
    if n < 0 then b else b.(draws := b.draws[..n] + [b.draws[n].(until := Some(now))])
  }

  function Leave(b: Book, sent: bool): Book {
    if b.queued == [] then b
    else b.(departed := b.departed + [Departure(b.queued[0], b.wire, b.draws, b.jumped, b.late, b.tries, sent)],
            queued := b.queued[1..], first := None, late := 0, draws := [], tries := 0)
  }

  function Try(b: Book): Book {
    b.(tries := b.tries + 1)
  }

  /** The book after the event e that led from s to s'. */
  function Enter(b: Book, s: Mac, e: Event, s': Mac): Book {
    match e
    case Upper(frame, _) => Arrive(b, frame)
    case EndIfg => PutOnWire(Try(b))
    case EndTx => if s'.tx == Transmitting then PutOnWire(Leave(Try(b), true)) else Leave(Try(b), true)
    case EndJam(slots) => if s.backoffs < MAX_ATTEMPTS then DrawSlots(Try(b), slots, s'.now) else Leave(Try(b), false)
    case EndBackoff => EndWait(Try(b), s'.now)
    case _ => b
  }

  predicate Distinct(q: seq<nat>) {
    forall i, j :: 0 <= i < j < |q| ==> q[i] != q[j]
  }

  predicate AllBelow(q: seq<nat>, n: nat) {
    forall i :: 0 <= i < |q| ==> q[i] < n
  }

  predicate OnlyData(q: seq<Frame>) {
    forall i :: 0 <= i < |q| ==> q[i].Data?
  }

  /** The numbers below n, in order. */
  function Upto(n: nat): (q: seq<nat>)
    ensures |q| == n && forall i :: 0 <= i < n ==> q[i] == i
  {
    if n == 0 then [] else Upto(n - 1) + [n - 1]
  }

  function Frames(ds: seq<Departure>): (q: seq<nat>)
    ensures |q| == |ds| && forall i :: 0 <= i < |ds| ==> q[i] == ds[i].frame
  {
    if ds == [] then [] else Frames(ds[..|ds| - 1]) + [ds[|ds| - 1].frame]
  }

  /** Together d and q are the numbers below n, each once; in order, if inOrder. */
  predicate Partition(d: seq<nat>, q: seq<nat>, n: nat, inOrder: bool) {
    multiset(d + q) == multiset(Upto(n)) && (inOrder ==> d + q == Upto(n))
  }

  /** Every frame accepted has departed or is queued, once; in order, if all are data. */
  predicate Conserved(b: Book) {
    Partition(Frames(b.departed), b.queued, |b.accepted|, OnlyData(b.accepted))
  }

  /** The k-th draw is below 2^min(k,10). */
  predicate Ranged(draws: seq<Draw>) {
    |draws| <= MAX_ATTEMPTS && forall i :: 0 <= i < |draws| ==> draws[i].slots < BackoffRange(i + 1)
  }

  predicate DrawnBy(draws: seq<Draw>, frame: Option<nat>) {
    forall i :: 0 <= i < |draws| ==> draws[i].frame == frame
  }

  /** The frame that departs is the one on the wire exactly if no PAUSE frame was accepted
      from above since, and the draws are its own exactly if none was accepted since the
      first try, or there are no draws. */
  predicate GoodDeparture(d: Departure) {
    && (d.wire == Some(d.frame) <==> d.jumped == 0)
    && (DrawnBy(d.draws, Some(d.frame)) <==> d.late == 0 || d.draws == [])
    && Ranged(d.draws) && (!d.sent ==> |d.draws| == MAX_ATTEMPTS) && d.tries <= 50
  }

  predicate AllGood(ds: seq<Departure>) {
    forall i :: 0 <= i < |ds| ==> GoodDeparture(ds[i])
  }

  predicate Undisturbed(ds: seq<Departure>) {
    forall i :: 0 <= i < |ds| ==> ds[i].jumped == 0 && ds[i].late == 0
  }

  predicate Numbered(b: Book) {
    && Distinct(b.queued) && AllBelow(b.queued, |b.accepted|)
    && forall i :: 0 <= i < |b.draws| ==> b.draws[i].frame.Some? && b.draws[i].frame.value < |b.accepted|
  }

  /** The frame first put on the wire is in the queue, behind the late PAUSE frames; it made
      the first draw, and all of them if there are no late PAUSE frames. */
  predicate Tried(b: Book) {
    && (if b.first.Some? then b.late < |b.queued| && b.queued[b.late] == b.first.value
        else b.late == 0 && b.draws == [])
    && (b.draws != [] ==> b.draws[0].frame == b.first) && (b.late == 0 ==> DrawnBy(b.draws, b.first))
    && Ranged(b.draws)
  }

  predicate Undelayed(b: Book) {
    OnlyData(b.accepted) ==> b.jumped == 0 && b.late == 0 && Undisturbed(b.departed)
  }

  predicate BookInv(b: Book) {
    Numbered(b) && Conserved(b) && Tried(b) && AllGood(b.departed) && Undelayed(b)
  }

  /** The frame on the wire is still in the queue, behind the PAUSE frames that jumped it. */
  predicate Held(b: Book) {
    && b.wire.Some? && b.first.Some? && b.jumped <= b.late && b.jumped < |b.queued|
    && b.queued[b.jumped] == b.wire.value
    && (b.draws == [] ==> b.wire == b.first)
  }

  lemma OnlyDataExtend(q: seq<Frame>, f: Frame)
    ensures OnlyData(q + [f]) <==> OnlyData(q) && f.Data?
  {
    assert (q + [f])[|q|] == f;
    assert forall i :: 0 <= i < |q| ==> q[i] == (q + [f])[i];
  }

  /** A new number, at either end of the queue. */
  lemma OneMore(d: seq<nat>, q: seq<nat>, n: nat, inOrder: bool, q': seq<nat>, n': nat, inOrder': bool)
    requires Partition(d, q, n, inOrder) && n' == n + 1
    requires if inOrder' then inOrder && q' == q + [n] else q' == q + [n] || q' == [n] + q
    ensures Partition(d, q', n', inOrder')
  {
    assert Upto(n + 1) == Upto(n) + [n];
    assert d + (q + [n]) == (d + q) + [n];
    assert multiset(d + ([n] + q)) == multiset(d) + multiset([n]) + multiset(q);
  }

  lemma ArriveConserves(b: Book, f: Frame)
    requires Conserved(b)
    ensures Conserved(Arrive(b, f))
  {
    var b' := Arrive(b, f);
    OnlyDataExtend(b.accepted, f);
    OneMore(Frames(b.departed), b.queued, |b.accepted|, OnlyData(b.accepted),
            b'.queued, |b'.accepted|, OnlyData(b'.accepted));
  }

  lemma ArriveNumbered(b: Book, f: Frame)
    requires Numbered(b)
    ensures Numbered(Arrive(b, f))
  {
  }

  lemma ArriveTried(b: Book, f: Frame)
    requires Tried(b)
    ensures Tried(Arrive(b, f)) && (Held(b) ==> Held(Arrive(b, f)))
  {
    var q := [|b.accepted|] + b.queued;
    assert forall i :: 0 < i < |q| ==> q[i] == b.queued[i - 1];
  }

  lemma ArriveKeeps(b: Book, f: Frame)
    requires BookInv(b)
    ensures BookInv(Arrive(b, f)) && (Held(b) ==> Held(Arrive(b, f)))
  {
    ArriveNumbered(b, f);
    ArriveTried(b, f);
    ArriveConserves(b, f);
    OnlyDataExtend(b.accepted, f);
  }

  lemma PutOnWireKeeps(b: Book)
    requires BookInv(b) && b.queued != [] && (b.first.Some? ==> b.draws != [])
    ensures BookInv(PutOnWire(b)) && Held(PutOnWire(b))
  {
  }

  /** The same draws but for their ends. */
  predicate SameDraws(draws: seq<Draw>, draws': seq<Draw>) {
    |draws'| == |draws| &&
    forall i :: 0 <= i < |draws| ==> draws'[i].frame == draws[i].frame && draws'[i].slots == draws[i].slots
  }

  lemma SameDrawsKeep(b: Book, draws: seq<Draw>)
    requires Numbered(b) && Tried(b) && SameDraws(b.draws, draws)
    ensures Numbered(b.(draws := draws)) && Tried(b.(draws := draws))
  {
  }

  lemma EndWaitSame(b: Book, now: int)
    ensures SameDraws(b.draws, EndWait(b, now).draws) && EndWait(b, now) == b.(draws := EndWait(b, now).draws)
  {
  }

  lemma EndWaitKeeps(b: Book, now: int)
    requires BookInv(b)
    ensures BookInv(EndWait(b, now)) && |EndWait(b, now).draws| == |b.draws|
  {
    EndWaitSame(b, now);
    SameDrawsKeep(b, EndWait(b, now).draws);
  }

  lemma DrawTried(b: Book, d: Draw)
    requires Numbered(b) && Tried(b) && Held(b) && d.frame == b.wire
    requires |b.draws| < MAX_ATTEMPTS && d.slots < BackoffRange(|b.draws| + 1)
    ensures Numbered(b.(draws := b.draws + [d])) && Tried(b.(draws := b.draws + [d]))
  {
  }

  lemma DrawKeeps(b: Book, slots: nat, now: int)
    requires BookInv(b) && Held(b) && |b.draws| < MAX_ATTEMPTS && slots < BackoffRange(|b.draws| + 1)
    ensures BookInv(DrawSlots(b, slots, now))
  {
    DrawTried(b, Draw(b.wire, slots, now, None));
  }

  lemma PartitionMoves(d: seq<nat>, q: seq<nat>, n: nat, inOrder: bool)
    requires Partition(d, q, n, inOrder) && q != []
    ensures Partition(d + [q[0]], q[1..], n, inOrder)
  {
    assert (d + [q[0]]) + q[1..] == d + q;
  }

  lemma FramesMore(ds: seq<Departure>, d: Departure)
    ensures Frames(ds + [d]) == Frames(ds) + [d.frame]
  {
    assert (ds + [d])[..|ds|] == ds;
  }

  lemma LeaveConserves(b: Book, sent: bool)
    requires Conserved(b) && b.queued != []
    ensures Conserved(Leave(b, sent))
  {
    FramesMore(b.departed, Departure(b.queued[0], b.wire, b.draws, b.jumped, b.late, b.tries, sent));
    PartitionMoves(Frames(b.departed), b.queued, |b.accepted|, OnlyData(b.accepted));
  }

  /** The departure, for whatever reason, of the first in the queue. */
  lemma DepartureIsGood(b: Book, sent: bool)
    requires BookInv(b) && Held(b) && b.tries <= 50 && (!sent ==> |b.draws| == MAX_ATTEMPTS)
    ensures GoodDeparture(Departure(b.queued[0], b.wire, b.draws, b.jumped, b.late, b.tries, sent))
  {
    assert b.jumped > 0 ==> b.queued[0] != b.queued[b.jumped];
    assert b.late > 0 ==> b.queued[0] != b.queued[b.late];
  }

  lemma LeaveNumbered(b: Book, sent: bool)
    requires Numbered(b)
    ensures Numbered(Leave(b, sent))
  {
  }

  lemma LeaveDeparted(b: Book, sent: bool, d: Departure)
    requires AllGood(b.departed) && Undelayed(b) && b.queued != [] && GoodDeparture(d)
    requires d == Departure(b.queued[0], b.wire, b.draws, b.jumped, b.late, b.tries, sent)
    ensures AllGood(Leave(b, sent).departed) && Undelayed(Leave(b, sent))
  {
  }

  lemma LeaveKeeps(b: Book, sent: bool)
    requires BookInv(b) && Held(b) && b.tries <= 50 && (!sent ==> |b.draws| == MAX_ATTEMPTS)
    ensures BookInv(Leave(b, sent))
  {
    DepartureIsGood(b, sent);
    LeaveConserves(b, sent);
    LeaveNumbered(b, sent);
    LeaveDeparted(b, sent, Departure(b.queued[0], b.wire, b.draws, b.jumped, b.late, b.tries, sent));
  }

  /** What an observer writes down during a run. */
  datatype Log = Log(start: int, idle: int, book: Book)

  datatype World = World(mac: Mac, log: Log)

  datatype Timed = Timed(e: Event, t: int)

  function Record(c: Config, l: Log, s: Mac, ev: Timed, s': Mac): Log {
    l.(idle := l.idle + (if Busy(c, s) then 0 else ev.t - s.now), book := Enter(l.book, s, ev.e, s'))
  }

  /** None if the event cannot happen or is refused. */
  function StepWorld(c: Config, w: World, ev: Timed): Option<World> {
    if !Enabled(w.mac, ev.e, ev.t) then None
    else match Step(c, w.mac, ev.e, ev.t)
      case Fault(_) => None
      case Next(s) => Some(World(s, Record(c, w.log, w.mac, ev, s)))
  }

  function Initial(c: Config, queue: seq<Frame>, t: int): World {
    World(AfterAutoconfig(c, queue, t), Log(t, 0, Book(queue, Upto(|queue|), [], None, 0, None, 0, [], 0)))
  }

  function Exec(c: Config, w: World, evs: seq<Timed>): Option<World> {
    if evs == [] then Some(w)
    else
      var before := Exec(c, w, evs[..|evs| - 1]);
      if before.None? then None else StepWorld(c, before.value, evs[|evs| - 1])
  }

  function CountSent(ds: seq<Departure>): nat {
    if ds == [] then 0
    else CountSent(ds[..|ds| - 1]) + if ds[|ds| - 1].sent then 1 else 0
  }

  function CountDraws(ds: seq<Departure>): nat {
    if ds == [] then 0 else CountDraws(ds[..|ds| - 1]) + |ds[|ds| - 1].draws|
  }

  /** At most so many more ends of gaps, jams, backoffs and transmissions before the first
      frame of the queue departs. */
  function TriesLeft(s: Mac): int {
    3 * (MAX_ATTEMPTS - s.backoffs) +
    match s.tx
    case Backoff => 3
    case Transmitting => 1
    case Jamming => 1
    case _ => 2
  }

  predicate InHand(s: Mac) {
    s.tx == Transmitting || s.tx == Jamming
  }

  predicate SameIds(b: Book, q: seq<Frame>) {
    && |b.queued| == |q| && AllBelow(b.queued, |b.accepted|)
    && forall i :: 0 <= i < |q| ==> q[i].id == b.accepted[b.queued[i]].id
  }

  predicate Counted(b: Book, s: Mac) {
    && s.backoffs == |b.draws| && s.framesSent == CountSent(b.departed)
    && s.numBackoffs == CountDraws(b.departed) + |b.draws|
  }

  /** The book is about this MAC. */
  predicate Coupled(b: Book, s: Mac) {
    && SameIds(b, s.queue) && Counted(b, s)
    && Followed(b, s) && b.tries + TriesLeft(s) <= 50
  }

  /** Each backoff lasted exactly as many slots as were drawn. */
  predicate Waited(c: Config, draws: seq<Draw>) {
    forall i :: 0 <= i < |draws| ==> draws[i].until == Some(draws[i].at + c.Slots(draws[i].slots))
  }

  predicate AllWaited(c: Config, ds: seq<Departure>) {
    forall i :: 0 <= i < |ds| ==> Waited(c, ds[i].draws)
  }

  /** All backoffs are over, or the last one is due to be when its slots have passed. */
  predicate Waiting(c: Config, draws: seq<Draw>, s: Mac) {
    if s.tx == Backoff then
      var n := |draws| - 1;
      && n >= 0 && Waited(c, draws[..n]) && draws[n].until == None
      && s.endBackoff == Due(draws[n].at + c.Slots(draws[n].slots))
    else Waited(c, draws)
  }

  predicate Waits(c: Config, b: Book, s: Mac) {
    AllWaited(c, b.departed) && Waiting(c, b.draws, s)
  }

  /** How an event may change the backoff timer. */
  predicate BackoffEffect(c: Config, s: Mac, e: Event, s': Mac) {
    && (e.EndBackoff? ==> s.endBackoff == Due(s'.now))
    && (s'.tx == Backoff ==>
          if e.EndJam? then s'.endBackoff == Due(s'.now + c.Slots(e.slot))
          else s.tx == Backoff && s'.endBackoff == s.endBackoff)
  }

  lemma NetBackoffEffect(c: Config, s: Mac, msg: NetMsg)
    requires Ready(c, s, Net(msg)) && ProcessMsgFromNetwork(c, s, msg).Next?
    ensures BackoffEffect(c, s, Net(msg), ProcessMsgFromNetwork(c, s, msg).mac)
  {
    if BackToBack(c, s, msg) && (c.duplex || s.tx != Transmitting) {
      ReceptionCompleteGood(c, s.(endRx := Off, receiving := None), s.receiving.value);
    }
  }

  lemma OtherBackoffEffect(c: Config, s: Mac, e: Event)
    requires Ready(c, s, e) && !e.Net? && !e.EndBackoff? && Dispatch(c, s, e).Next?
    ensures BackoffEffect(c, s, e, Dispatch(c, s, e).mac)
  {
    if e.EndRx? { FinishReceptionGood(c, s, s.now - s.channelBusySince); }
  }

  lemma StepBackoffEffect(c: Config, s: Mac, e: Event, t: int)
    requires Inv(c, s) && Enabled(s, e, t) && Step(c, s, e, t).Next?
    ensures BackoffEffect(c, s, e, Step(c, s, e, t).mac)
  {
    var s1 := Before(s, e, t);
    BeforeReady(c, s, e, t);
    match e
    case Net(msg) => NetBackoffEffect(c, s1, msg);
    case EndBackoff => OtherTimersGood(c, s1, e);
    case _ => OtherBackoffEffect(c, s1, e);
  }

  lemma LeaveWaited(c: Config, b: Book, sent: bool)
    requires AllWaited(c, b.departed) && Waited(c, b.draws)
    ensures AllWaited(c, Leave(b, sent).departed) && Waited(c, Leave(b, sent).draws)
  {
  }

  lemma DrawWaits(c: Config, draws: seq<Draw>, d: Draw, s: Mac)
    requires Waited(c, draws) && s.tx == Backoff && d.until == None && s.endBackoff == Due(d.at + c.Slots(d.slots))
    ensures Waiting(c, draws + [d], s)
  {
    assert (draws + [d])[..|draws|] == draws;
  }

  lemma WaitOver(c: Config, b: Book, s: Mac, now: int)
    requires Waiting(c, b.draws, s) && s.tx == Backoff && s.endBackoff == Due(now)
    ensures Waited(c, EndWait(b, now).draws)
  {
    var n := |b.draws| - 1;
    var before, draws := b.draws[..n], EndWait(b, now).draws;
    assert forall i :: 0 <= i < n ==> draws[i] == before[i];
  }

  lemma WaitsKept(c: Config, b: Book, s: Mac, e: Event, s': Mac)
    requires Waits(c, b, s) && TxEffect(s, e, s') && BackoffEffect(c, s, e, s')
    ensures Waits(c, Enter(b, s, e, s'), s')
  {
    if e.EndTx? {
      LeaveWaited(c, Try(b), true);
    } else if e.EndJam? {
      if s.backoffs < MAX_ATTEMPTS {
        DrawWaits(c, b.draws, Draw(b.wire, e.slot, s'.now, None), s');
      } else {
        LeaveWaited(c, Try(b), false);
      }
    } else if e.EndBackoff? {
      WaitOver(c, Try(b), s, s'.now);
    }
  }

  predicate TimeAccounted(c: Config, w: World) {
    && w.log.idle >= 0 && w.mac.successTime >= 0 && w.mac.collisionTime >= 0 && w.log.start <= w.mac.now
    && Paid(c, w.mac) + w.log.idle == w.mac.now - w.log.start
  }

  predicate WorldInv(c: Config, w: World) {
    && Inv(c, w.mac) && BookInv(w.log.book) && Coupled(w.log.book, w.mac) && Waits(c, w.log.book, w.mac)
    && TimeAccounted(c, w)
  }

  predicate IsTry(e: Event) {
    e.EndIfg? || e.EndTx? || e.EndJam? || e.EndBackoff?
  }

  predicate Departs(s: Mac, e: Event) {
    e.EndTx? || (e.EndJam? && s.backoffs >= MAX_ATTEMPTS)
  }

  /** Every try is one less to come, and nothing else makes them more. */
  lemma TriesLessen(s: Mac, e: Event, s': Mac)
    requires TxEffect(s, e, s') && QueueEffect(s, e, s') && s.backoffs <= MAX_ATTEMPTS
    ensures if Departs(s, e) then TriesLeft(s') <= 50 && TriesLeft(s) >= 1
            else TriesLeft(s') + (if IsTry(e) then 1 else 0) <= TriesLeft(s)
  {
  }

  lemma SameIdsKept(b: Book, s: Mac, e: Event, s': Mac)
    requires SameIds(b, s.queue) && QueueEffect(s, e, s')
    ensures SameIds(Enter(b, s, e, s'), s'.queue)
  {
    match e
    case Upper(f, _) =>
      var b' := Arrive(b, f);
      assert forall i :: 0 <= i < |b.accepted| ==> b'.accepted[i] == b.accepted[i];
      assert b'.accepted[|b.accepted|] == f;
    case EndIfg =>
      assert forall i :: 0 < i < |s.queue| ==> s'.queue[i] == s'.queue[1..][i - 1] == s.queue[i];
      assert |s'.queue| == 1 + |s'.queue[1..]|;
    case _ =>
  }

  lemma CountsExtend(ds: seq<Departure>, d: Departure)
    ensures CountSent(ds + [d]) == CountSent(ds) + if d.sent then 1 else 0
    ensures CountDraws(ds + [d]) == CountDraws(ds) + |d.draws|
  {
    assert (ds + [d])[..|ds|] == ds;
  }

  lemma LeaveCounts(b: Book, sent: bool)
    requires b.queued != []
    ensures var b' := Leave(b, sent);
            && CountSent(b'.departed) == CountSent(b.departed) + (if sent then 1 else 0)
            && CountDraws(b'.departed) == CountDraws(b.departed) + |b.draws|
  {
    CountsExtend(b.departed, Departure(b.queued[0], b.wire, b.draws, b.jumped, b.late, b.tries, sent));
  }

  lemma CountedKept(b: Book, s: Mac, e: Event, s': Mac)
    requires Counted(b, s) && |b.queued| == |s.queue| && QueueEffect(s, e, s')
    ensures Counted(Enter(b, s, e, s'), s')
  {
    if Departs(s, e) { LeaveCounts(Try(b), e.EndTx?); }
  }

  /** The frame in hand is followed until it departs or has drawn. */
  predicate Followed(b: Book, s: Mac) {
    if InHand(s) then Held(b) else b.first.Some? ==> b.draws != []
  }

  lemma TransmissionEnds(b: Book, again: bool)
    requires BookInv(b) && Held(b) && b.tries < 50 && (again ==> |b.queued| > 1)
    ensures var b1 := Leave(Try(b), true); BookInv(b1) && b1.first == None
    ensures again ==> var b2 := PutOnWire(Leave(Try(b), true)); BookInv(b2) && Held(b2)
  {
    LeaveKeeps(Try(b), true);
    if again { PutOnWireKeeps(Leave(Try(b), true)); }
  }

  lemma JamEnds(b: Book, slots: nat, now: int)
    requires BookInv(b) && Held(b) && b.tries < 50 && |b.draws| <= MAX_ATTEMPTS
    requires |b.draws| < MAX_ATTEMPTS ==> slots < BackoffRange(|b.draws| + 1)
    ensures var b' := if |b.draws| < MAX_ATTEMPTS then DrawSlots(Try(b), slots, now) else Leave(Try(b), false);
            BookInv(b') && (b'.first.Some? ==> b'.draws != [])
  {
    if |b.draws| < MAX_ATTEMPTS { DrawKeeps(Try(b), slots, now); } else { LeaveKeeps(Try(b), false); }
  }

  /** The book stays in order. */
  lemma BookKept(b: Book, s: Mac, e: Event, s': Mac)
    requires BookInv(b) && Followed(b, s) && |b.queued| == |s.queue| && |b.draws| == s.backoffs <= MAX_ATTEMPTS
    requires TxEffect(s, e, s') && QueueEffect(s, e, s') && (InHand(s') ==> s'.queue != [])
    requires b.tries + TriesLeft(s) <= 50
    requires e.EndJam? && s.backoffs < MAX_ATTEMPTS ==> e.slot < BackoffRange(s.backoffs + 1)
    ensures BookInv(Enter(b, s, e, s')) && Followed(Enter(b, s, e, s'), s')
  {
    match e
    case Upper(f, _) => ArriveKeeps(b, f);
    case EndIfg => PutOnWireKeeps(Try(b));
    case EndTx => TransmissionEnds(b, s'.tx == Transmitting);
    case EndJam(slots) => JamEnds(b, slots, s'.now);
    case EndBackoff => EndWaitKeeps(Try(b), s'.now);
    case _ =>
  }

  lemma TriesKept(b: Book, s: Mac, e: Event, s': Mac)
    requires TxEffect(s, e, s') && QueueEffect(s, e, s') && s.backoffs <= MAX_ATTEMPTS && |b.queued| == |s.queue|
    requires b.tries + TriesLeft(s) <= 50
    ensures Enter(b, s, e, s').tries + TriesLeft(s') <= 50
  {
    TriesLessen(s, e, s');
  }

  lemma CoupledKept(b: Book, s: Mac, e: Event, s': Mac)
    requires BookInv(b) && Coupled(b, s) && TxEffect(s, e, s') && QueueEffect(s, e, s') && s.backoffs <= MAX_ATTEMPTS
    requires InHand(s') ==> s'.queue != []
    requires e.EndJam? && s.backoffs < MAX_ATTEMPTS ==> e.slot < BackoffRange(s.backoffs + 1)
    ensures BookInv(Enter(b, s, e, s')) && Coupled(Enter(b, s, e, s'), s')
  {
    BookKept(b, s, e, s');
    SameIdsKept(b, s, e, s');
    CountedKept(b, s, e, s');
    TriesKept(b, s, e, s');
  }

  lemma KeepsTimeAccounted(c: Config, w: World, ev: Timed, s': Mac)
    requires TimeAccounted(c, w) && w.mac.now <= ev.t == s'.now
    requires Paid(c, s') == Paid(c, Before(w.mac, ev.e, ev.t))
    requires s'.successTime >= w.mac.successTime && s'.collisionTime >= w.mac.collisionTime
    ensures TimeAccounted(c, World(s', Record(c, w.log, w.mac, ev, s')))
  {
    var s1 := Before(w.mac, ev.e, ev.t);
    assert s1 == w.mac.(now := s1.now, endIfg := s1.endIfg, endTx := s1.endTx, endRx := s1.endRx,
                        endBackoff := s1.endBackoff, endJam := s1.endJam, endPause := s1.endPause);
    var l' := Record(c, w.log, w.mac, ev, s');
    assert l'.start == w.log.start && l'.idle == w.log.idle + if Busy(c, w.mac) then 0 else ev.t - w.mac.now;
  }

  lemma StepKeepsTime(c: Config, w: World, ev: Timed)
    requires Inv(c, w.mac) && TimeAccounted(c, w) && StepWorld(c, w, ev).Some?
    ensures Inv(c, StepWorld(c, w, ev).value.mac) && TimeAccounted(c, StepWorld(c, w, ev).value)
  {
    StepKeepsInv(c, w.mac, ev.e, ev.t);
    KeepsTimeAccounted(c, w, ev, Step(c, w.mac, ev.e, ev.t).mac);
  }

  lemma StepEffects(c: Config, s: Mac, e: Event, t: int)
    requires Inv(c, s) && Enabled(s, e, t) && Step(c, s, e, t).Next?
    ensures var s' := Step(c, s, e, t).mac;
            TxEffect(s, e, s') && QueueEffect(s, e, s') && (InHand(s') ==> s'.queue != [])
  {
    StepKeepsInv(c, s, e, t);
    StepTxEffect(c, s, e, t);
    assert QueueEffect(Before(s, e, t), e, Step(c, s, e, t).mac);
  }

  lemma StepKeepsBook(c: Config, w: World, ev: Timed)
    requires Inv(c, w.mac) && BookInv(w.log.book) && Coupled(w.log.book, w.mac) && StepWorld(c, w, ev).Some?
    ensures var w' := StepWorld(c, w, ev).value; BookInv(w'.log.book) && Coupled(w'.log.book, w'.mac)
  {
    StepEffects(c, w.mac, ev.e, ev.t);
    CoupledKept(w.log.book, w.mac, ev.e, Step(c, w.mac, ev.e, ev.t).mac);
  }

  lemma StepKeepsWaits(c: Config, w: World, ev: Timed)
    requires Inv(c, w.mac) && Waits(c, w.log.book, w.mac) && StepWorld(c, w, ev).Some?
    ensures var w' := StepWorld(c, w, ev).value; Waits(c, w'.log.book, w'.mac)
  {
    StepTxEffect(c, w.mac, ev.e, ev.t);
    StepBackoffEffect(c, w.mac, ev.e, ev.t);
    WaitsKept(c, w.log.book, w.mac, ev.e, Step(c, w.mac, ev.e, ev.t).mac);
  }

  lemma StepKeepsWorldInv(c: Config, w: World, ev: Timed)
    requires WorldInv(c, w) && StepWorld(c, w, ev).Some?
    ensures WorldInv(c, StepWorld(c, w, ev).value)
  {
    StepKeepsTime(c, w, ev);
    StepKeepsBook(c, w, ev);
    StepKeepsWaits(c, w, ev);
  }

  lemma NothingDeparted(d: seq<nat>, q: seq<nat>, n: nat, inOrder: bool)
    requires d == [] && q == Upto(n)
    ensures Partition(d, q, n, inOrder)
  {
    assert d + q == q;
  }

  lemma InitialBook(queue: seq<Frame>, b: Book)
    requires b == Book(queue, Upto(|queue|), [], None, 0, None, 0, [], 0)
    ensures BookInv(b) && SameIds(b, queue)
  {
    NothingDeparted(Frames(b.departed), b.queued, |queue|, OnlyData(queue));
  }

  lemma InitialCoupled(c: Config, queue: seq<Frame>, t: int, b: Book)
    requires b == Book(queue, Upto(|queue|), [], None, 0, None, 0, [], 0) && SameIds(b, queue)
    ensures Coupled(b, AfterAutoconfig(c, queue, t)) && Waits(c, b, AfterAutoconfig(c, queue, t))
  {
  }

  lemma InitialMac(c: Config, queue: seq<Frame>, t: int)
    requires Sized(queue)
    ensures Inv(c, AfterAutoconfig(c, queue, t)) && TimeAccounted(c, Initial(c, queue, t))
  {
  }

  lemma InitialInv(c: Config, queue: seq<Frame>, t: int)
    requires Sized(queue)
    ensures WorldInv(c, Initial(c, queue, t))
  {
    var b := Initial(c, queue, t).log.book;
    InitialBook(queue, b);
    InitialCoupled(c, queue, t, b);
    InitialMac(c, queue, t);
  }

  /** Every state of every run satisfies the invariant. */
  lemma {:induction false} RunKeepsInv(c: Config, queue: seq<Frame>, t: int, evs: seq<Timed>)
    requires Sized(queue) && Exec(c, Initial(c, queue, t), evs).Some?
    ensures WorldInv(c, Exec(c, Initial(c, queue, t), evs).value)
  {
    var w0 := Initial(c, queue, t);
    if evs == [] {
      InitialInv(c, queue, t);
    } else {
      RunKeepsInv(c, queue, t, evs[..|evs| - 1]);
      StepKeepsWorldInv(c, Exec(c, w0, evs[..|evs| - 1]).value, evs[|evs| - 1]);
    }
  }

  /** What a run from the end of autoconfig guarantees, spelled out. */
  lemma RunIsSafe(c: Config, queue: seq<Frame>, t: int, evs: seq<Timed>, e: Event, at: int)
    requires Sized(queue) && Exec(c, Initial(c, queue, t), evs).Some?
    ensures var s := Exec(c, Initial(c, queue, t), evs).value.mac;
            && Timers(s) && Receiver(s)
            && (!c.duplex && s.tx == Transmitting ==> s.rx == RxIdle)
            && (Enabled(s, e, at) ==>
                  var o := Step(c, s, e, at);
                  (o.Fault? <==> Offends(c, s, e)) && (o.Fault? ==> !Internal(o.error)))
  {
    RunKeepsInv(c, queue, t, evs);
    var s := Exec(c, Initial(c, queue, t), evs).value.mac;
    if Enabled(s, e, at) { StepKeepsInv(c, s, e, at); }
  }

  // ------------------------------------------------------------ accounting

  function Sum(draws: seq<Draw>): nat {
    if draws == [] then 0 else Sum(draws[..|draws| - 1]) + draws[|draws| - 1].slots
  }

  /** The largest total of n draws. */
  function SlotBudget(n: nat): nat {
    if n == 0 then 0 else SlotBudget(n - 1) + BackoffRange(n) - 1
  }

  lemma {:induction false} WithinBudget(draws: seq<Draw>)
    requires Ranged(draws)
    ensures Sum(draws) <= SlotBudget(|draws|)
  {
    if draws != [] { WithinBudget(draws[..|draws| - 1]); }
  }

  lemma {:induction false} BudgetMonotone(m: nat, n: nat)
    requires m <= n
    ensures SlotBudget(m) <= SlotBudget(n)
  {
    if m < n { BudgetMonotone(m, n - 1); }
  }

  lemma FullBudget()
    ensures SlotBudget(16) == 8174
  {
    assert Pow2(3) == 8 && Pow2(6) == 64 && Pow2(9) == 512;
    assert SlotBudget(4) == 26;
    assert SlotBudget(8) == 502;
    assert SlotBudget(12) == 4082;
  }

  lemma DrawsBounded(draws: seq<Draw>)
    requires Ranged(draws)
    ensures Sum(draws) <= 8174
  {
    WithinBudget(draws);
    BudgetMonotone(|draws|, 16);
    FullBudget();
  }

  /** The time spent in backoffs that are over. */
  function TotalWait(draws: seq<Draw>): int {
    if draws == [] then 0
    else
      var d := draws[|draws| - 1];
      TotalWait(draws[..|draws| - 1]) + if d.until.Some? then d.until.value - d.at else 0
  }

  lemma {:induction false} WaitIsSum(c: Config, draws: seq<Draw>)
    requires Waited(c, draws)
    ensures TotalWait(draws) == c.Slots(Sum(draws))
  {
    if draws != [] {
      var n := |draws| - 1;
      WaitIsSum(c, draws[..n]);
      SlotsAdd(c, Sum(draws[..n]), draws[n].slots);
    }
  }

  lemma SlotsAdd(c: Config, m: nat, n: nat)
    ensures c.Slots(m + n) == c.Slots(m) + c.Slots(n)
  {
  }

  lemma SlotsMonotone(c: Config, m: nat, n: nat)
    requires m <= n
    ensures c.Slots(m) <= c.Slots(n)
  {
    SlotsAdd(c, m, n - m);
  }

  /** Main result on waiting, for every run: each backoff that is over lasted exactly its
      slots, so that a departed frame has waited the sum of its draws, 8174 slots at most;
      and the timer of a backoff that is not over is due when its slots have passed. */
  lemma RunWaits(c: Config, queue: seq<Frame>, t: int, evs: seq<Timed>)
    requires Sized(queue) && Exec(c, Initial(c, queue, t), evs).Some?
    ensures var w := Exec(c, Initial(c, queue, t), evs).value;
            var b := w.log.book;
            && (forall i :: 0 <= i < |b.departed| ==>
                  var draws := b.departed[i].draws;
                  && Waited(c, draws) && TotalWait(draws) == Sum(draws) * c.slotTime
                  && TotalWait(draws) <= 8174 * c.slotTime)
            && Waiting(c, b.draws, w.mac)
  {
    RunKeepsInv(c, queue, t, evs);
    var b := Exec(c, Initial(c, queue, t), evs).value.log.book;
    forall i | 0 <= i < |b.departed|
      ensures var draws := b.departed[i].draws;
              Waited(c, draws) && TotalWait(draws) == Sum(draws) * c.slotTime && TotalWait(draws) <= 8174 * c.slotTime
    {
      var draws := b.departed[i].draws;
      assert GoodDeparture(b.departed[i]);
      WaitIsSum(c, draws);
      DrawsBounded(draws);
      SlotsMonotone(c, Sum(draws), 8174);
    }
  }

  /** Main result on frames, for every run.  Every frame accepted has departed or is queued,
      once.  The frame that departs is the one last put on the wire if and only if no PAUSE
      frame was accepted from above since; the draws since the last departure are all its
      own if and only if none was accepted since the first try, or there are none; they are
      16 at most, the k-th below 2^min(k,10), 8174 slots in all, and 16 exactly if it is
      given up; and it departs within 50 tries. */
  lemma RunAccounts(c: Config, queue: seq<Frame>, t: int, evs: seq<Timed>)
    requires Sized(queue) && Exec(c, Initial(c, queue, t), evs).Some?
    ensures var w := Exec(c, Initial(c, queue, t), evs).value;
            var b := w.log.book;
            && Conserved(b) && SameIds(b, w.mac.queue)
            && (forall i :: 0 <= i < |b.departed| ==> GoodDeparture(b.departed[i]) && Sum(b.departed[i].draws) <= 8174)
            && b.tries + TriesLeft(w.mac) <= 50
            && w.mac.framesSent == CountSent(b.departed) && w.mac.numBackoffs == CountDraws(b.departed) + w.mac.backoffs
  {
    RunKeepsInv(c, queue, t, evs);
    var b := Exec(c, Initial(c, queue, t), evs).value.log.book;
    forall i | 0 <= i < |b.departed| ensures Sum(b.departed[i].draws) <= 8174 {
      assert GoodDeparture(b.departed[i]);
      DrawsBounded(b.departed[i].draws);
    }
  }

  /** Hence, without PAUSE frames from above: the i-th frame accepted is the i-th to depart,
      it is the one on the wire, and the draws logged with it are its own. */
  lemma EachFrameItsOwn(c: Config, queue: seq<Frame>, t: int, evs: seq<Timed>, i: nat)
    requires Sized(queue) && Exec(c, Initial(c, queue, t), evs).Some?
    requires var b := Exec(c, Initial(c, queue, t), evs).value.log.book; OnlyData(b.accepted) && i < |b.departed|
    ensures var d := Exec(c, Initial(c, queue, t), evs).value.log.book.departed[i];
            && d.frame == i && d.wire == Some(i) && DrawnBy(d.draws, Some(i))
            && |d.draws| <= MAX_ATTEMPTS && Sum(d.draws) <= 8174 && (!d.sent ==> |d.draws| == MAX_ATTEMPTS)
  {
    RunKeepsInv(c, queue, t, evs);
    RunAccounts(c, queue, t, evs);
    var b := Exec(c, Initial(c, queue, t), evs).value.log.book;
    assert (Frames(b.departed) + b.queued)[i] == Upto(|b.accepted|)[i];
  }

  /** Main result on time, for every run: success and collision time never exceed the time
      elapsed, and the idle time reported is exactly the idle time. */
  lemma RunAccountsTime(c: Config, queue: seq<Frame>, t: int, evs: seq<Timed>)
    requires Sized(queue) && Exec(c, Initial(c, queue, t), evs).Some?
    ensures var w := Exec(c, Initial(c, queue, t), evs).value;
            && (!Busy(c, w.mac) ==> w.mac.now - w.log.start - w.mac.successTime - w.mac.collisionTime == w.log.idle)
            && w.mac.successTime + w.mac.collisionTime <= w.mac.now - w.log.start
  {
    RunKeepsInv(c, queue, t, evs);
  }

  /** A frame follows without a gap exactly if bursting is on, no PAUSE is requested and
      there is a frame: the limit of GIGABIT_MAX_BURST_BYTES has no say, since
      bytesSentInBurst is the size of one frame. */
  lemma BurstGoesOn(c: Config, s: Mac, at: int)
    requires Inv(c, s) && Enabled(s, EndTx, at)
    ensures var o := Step(c, s, EndTx, at);
            o.Next? && (o.mac.tx == Transmitting <==> c.frameBursting && s.pauseUnitsRequested == 0 && |s.queue| > 1)
  {
    BeforeReady(c, s, EndTx, at);
    EndTxGood(c, Before(s, EndTx, at));
  }

  function OnWire(s: Mac): nat {
    if s.tx == Transmitting && s.queue != [] then s.queue[0].bytes + PREAMBLE_AND_SFD_BYTES else 0
  }

  /** The bytes sent one frame after another since the last inter-frame gap ended. */
  function BurstBytes(c: Config, w0: World, evs: seq<Timed>): nat
    requires Exec(c, w0, evs).Some?
  {
    if evs == [] then 0
    else
      var n := |evs| - 1;
      var s := Exec(c, w0, evs).value.mac;
      match evs[n].e
      case EndIfg => OnWire(s)
      case EndTx => BurstBytes(c, w0, evs[..n]) + OnWire(s)
      case _ => BurstBytes(c, w0, evs[..n])
  }

  const GIGABIT: Config := Config(true, false, true, 1, 4096, 0, 512)

  /** After k frames the next one is on the wire, the first of q. */
  function Bursting(k: nat, q: seq<Frame>): Mac {
    Mac(96 + 12208 * k, Transmitting, RxIdle, q, 0, 0, 0, None,
        Off, Due(96 + 12208 * (k + 1)), Off, Off, Off, Off, 1526, 0, 0, 0, k, 0)
  }

  /** The run evs leads to s, with so many bytes in the present burst. */
  predicate BurstAt(c: Config, w0: World, evs: seq<Timed>, s: Mac, bytes: nat) {
    Exec(c, w0, evs).Some? && Exec(c, w0, evs).value.mac == s && BurstBytes(c, w0, evs) == bytes
  }

  lemma BurstBegins(c: Config, w0: World, t: int, s: Mac)
    requires Hop(c, w0.mac, EndIfg, t, s)
    ensures BurstAt(c, w0, [Timed(EndIfg, t)], s, OnWire(s))
  {
    var evs := [Timed(EndIfg, t)];
    assert evs[..0] == [];
  }

  lemma BurstExtends(c: Config, w0: World, evs: seq<Timed>, s: Mac, bytes: nat, t: int, s': Mac)
    requires BurstAt(c, w0, evs, s, bytes) && Hop(c, s, EndTx, t, s')
    ensures BurstAt(c, w0, evs + [Timed(EndTx, t)], s', bytes + OnWire(s'))
  {
    var more := evs + [Timed(EndTx, t)];
    assert more[..|evs|] == evs;
  }

  lemma HopFirst(q: seq<Frame>)
    requires q != [] && q[0] == Data(1, MAX_ETHERNET_FRAME)
    ensures Hop(GIGABIT, AfterAutoconfig(GIGABIT, q, 0), EndIfg, 96, Bursting(0, q))
  {
    assert [q[0]] + q[1..] == q;
  }

  lemma HopNext(k: nat, f: Frame, q: seq<Frame>)
    requires q != [] && q[0] == Data(1, MAX_ETHERNET_FRAME)
    ensures Hop(GIGABIT, Bursting(k, [f] + q), EndTx, 96 + 12208 * (k + 1), Bursting(k + 1, q))
  {
    assert ([f] + q)[1..] == q;
  }

  lemma BurstExtendsBy(w0: World, evs: seq<Timed>, k: nat, f: Frame, q: seq<Frame>, bytes: nat)
    requires BurstAt(GIGABIT, w0, evs, Bursting(k, [f] + q), bytes) && q != [] && q[0] == Data(1, MAX_ETHERNET_FRAME)
    ensures BurstAt(GIGABIT, w0, evs + [Timed(EndTx, 96 + 12208 * (k + 1))], Bursting(k + 1, q), bytes + 1526)
  {
    HopNext(k, f, q);
    BurstExtends(GIGABIT, w0, evs, Bursting(k, [f] + q), bytes, 96 + 12208 * (k + 1), Bursting(k + 1, q));
  }

  /** Some run leads to s with so many bytes in the present burst. */
  ghost predicate InBurst(w0: World, s: Mac, bytes: nat) {
    exists evs :: BurstAt(GIGABIT, w0, evs, s, bytes)
  }

  lemma BurstNext(w0: World, k: nat, q: seq<Frame>, bytes: nat)
    requires InBurst(w0, Bursting(k, q), bytes) && |q| > 1 && q[1] == Data(1, MAX_ETHERNET_FRAME)
    ensures InBurst(w0, Bursting(k + 1, q[1..]), bytes + 1526)
  {
    var evs :| BurstAt(GIGABIT, w0, evs, Bursting(k, q), bytes);
    assert q == [q[0]] + q[1..];
    BurstExtendsBy(w0, evs, k, q[0], q[1..], bytes);
  }

  predicate AllLong(q: seq<Frame>) {
    forall i :: 0 <= i < |q| ==> q[i] == Data(1, MAX_ETHERNET_FRAME)
  }

  /** The frames before q' have gone out as well. */
  lemma {:induction false} BurstContinues(w0: World, k: nat, q: seq<Frame>, bytes: nat,
                                          k': nat, q': seq<Frame>, bytes': nat)
    requires InBurst(w0, Bursting(k, q), bytes) && AllLong(q) && k <= k' < k + |q|
    requires q' == q[k' - k..] && bytes' == bytes + 1526 * (k' - k)
    ensures InBurst(w0, Bursting(k', q'), bytes')
    decreases k' - k
  {
    if k == k' {
      assert q' == q;
    } else {
      BurstNext(w0, k, q, bytes);
      assert q[1..][k' - k - 1..] == q';
      BurstContinues(w0, k + 1, q[1..], bytes + 1526, k', q', bytes');
    }
  }

  lemma BurstStarts(q: seq<Frame>, w0: World, s: Mac)
    requires w0 == Initial(GIGABIT, q, 0) && AllLong(q) && q != [] && s == Bursting(0, q)
    ensures InBurst(w0, s, 1526)
  {
    HopFirst(q);
    BurstBegins(GIGABIT, w0, 96, s);
    assert OnWire(s) == 1526;
  }

  /** However many frames of full length are queued, a run sends them all in one burst: with
      k sent and one on the wire it is of 1526 * (k + 1) bytes, and for k >= 5 of more than
      GIGABIT_MAX_BURST_BYTES. */
  lemma BurstUnbounded(q: seq<Frame>, k: nat, w0: World, s: Mac, bytes: nat)
    requires AllLong(q) && k < |q| && w0 == Initial(GIGABIT, q, 0)
    requires s == Bursting(k, q[k..]) && bytes == 1526 + 1526 * k
    ensures InBurst(w0, s, bytes) && (bytes > GIGABIT_MAX_BURST_BYTES <==> k >= 5)
  {
    BurstStarts(q, w0, Bursting(0, q));
    BurstContinues(w0, 0, q, 1526, k, q[k..], bytes);
  }

  // ------------------------------------------- PAUSE frames from above

  /** In one step: the frame taken from the queue is not the one last put on the wire if and
      only if a PAUSE frame from above has been accepted since. */
  lemma PopsAnotherIffJumped(c: Config, w: World, ev: Timed)
    requires WorldInv(c, w) && StepWorld(c, w, ev).Some? && Departs(w.mac, ev.e)
    ensures var b, b' := w.log.book, StepWorld(c, w, ev).value.log.book;
            var n := |b.departed|;
            && |b'.departed| == n + 1 && b'.departed[..n] == b.departed
            && b'.departed[n].frame == b.queued[0] && b'.departed[n].wire == b.wire
            && (b.wire != Some(b.queued[0]) <==> b.jumped > 0)
  {
    StepEffects(c, w.mac, ev.e, ev.t);
    var b := w.log.book;
    assert b.jumped > 0 ==> b.queued[0] != b.queued[b.jumped];
  }

  lemma LeavesUntried(b: Book, p: Frame, sent: bool)
    requires BookInv(b) && Held(b) && p.Pause?
    ensures var n, b' := |b.departed|, Leave(Try(Arrive(b, p)), sent);
            && b'.queued == b.queued && |b'.departed| == n + 1
            && var d := b'.departed[n];
               Untried(d, |b.accepted|) && d.draws == b.draws && d.wire == b.wire && d.sent == sent
  {
    var b1 := Arrive(b, p);
    assert b1.queued[0] == |b.accepted| && b1.queued[1..] == b.queued;
  }

  /** Frame n departs without ever having been on the wire or drawn slots. */
  predicate Untried(d: Departure, n: nat) {
    d.frame == n && d.wire != Some(n) && forall i :: 0 <= i < |d.draws| ==> d.draws[i].frame != Some(n)
  }

  /** A PAUSE frame from above that is accepted during the jam after the sixteenth backoff
      is given up in place of the frame that collided, and without having been tried; that
      frame stays, with all its draws forgotten. */
  lemma PauseGivenUpUntried(c: Config, w: World, p: Frame, t: int, w1: World, slots: nat, t': int, w2: World)
    requires WorldInv(c, w) && w.mac.tx == Jamming && w.mac.backoffs == MAX_ATTEMPTS && p.Pause?
    requires StepWorld(c, w, Timed(Upper(p, false), t)) == Some(w1)
    requires StepWorld(c, w1, Timed(EndJam(slots), t')) == Some(w2)
    ensures var b, b2 := w.log.book, w2.log.book;
            && w2.mac.queue == w.mac.queue && w2.mac.backoffs == 0 && b2.queued == b.queued
            && |b2.departed| == |b.departed| + 1
            && var d := b2.departed[|b.departed|];
               Untried(d, |b.accepted|) && !d.sent && d.draws == b.draws && |d.draws| == MAX_ATTEMPTS
  {
    StepEffects(c, w.mac, Upper(p, false), t);
    StepKeepsTime(c, w, Timed(Upper(p, false), t));
    StepEffects(c, w1.mac, EndJam(slots), t');
    LeavesUntried(w.log.book, p, false);
    assert ([p] + w.mac.queue)[1..] == w.mac.queue;
  }

  /** A PAUSE frame from above that is accepted during a transmission is counted as sent at
      its end although it never was on the wire, and the frame that was goes out again. */
  lemma PauseCountedUnsent(c: Config, w: World, p: Frame, t: int, w1: World, t': int, w2: World)
    requires WorldInv(c, w) && w.mac.tx == Transmitting && p.Pause?
    requires StepWorld(c, w, Timed(Upper(p, false), t)) == Some(w1)
    requires StepWorld(c, w1, Timed(EndTx, t')) == Some(w2)
    ensures var b, b2 := w.log.book, w2.log.book;
            && w2.mac.queue == w.mac.queue && w2.mac.framesSent == w.mac.framesSent + 1 && b2.queued == b.queued
            && |b2.departed| == |b.departed| + 1
            && var d := b2.departed[|b.departed|]; Untried(d, |b.accepted|) && d.sent && d.wire == b.wire
  {
    StepEffects(c, w.mac, Upper(p, false), t);
    StepKeepsTime(c, w, Timed(Upper(p, false), t));
    StepEffects(c, w1.mac, EndTx, t');
    LeavesUntried(w.log.book, p, true);
    assert ([p] + w.mac.queue)[1..] == w.mac.queue;
  }

  lemma ExecExtends(c: Config, w0: World, evs: seq<Timed>, w: World, ev: Timed, w': World)
    requires Exec(c, w0, evs) == Some(w) && StepWorld(c, w, ev) == Some(w')
    ensures Exec(c, w0, evs + [ev]) == Some(w')
  {
    assert (evs + [ev])[..|evs|] == evs;
  }

  /** A departure untried is reached, of a frame counted as sent or given up. */
  ghost predicate UntriedReached(c: Config, w0: World, sent: bool) {
    exists evs :: Exec(c, w0, evs).Some? && LastUntried(Exec(c, w0, evs).value.log.book, sent)
  }

  predicate LastUntried(b: Book, sent: bool) {
    var n := |b.departed| - 1;
    n >= 0 && Untried(b.departed[n], b.departed[n].frame) && b.departed[n].sent == sent
  }

  /** Two more events are all it takes. */
  lemma ReachUntried(c: Config, w0: World, evs: seq<Timed>, w: World, ev: Timed, w1: World, ev': Timed, w2: World,
                     sent: bool)
    requires Exec(c, w0, evs) == Some(w) && StepWorld(c, w, ev) == Some(w1) && StepWorld(c, w1, ev') == Some(w2)
    requires LastUntried(w2.log.book, sent)
    ensures UntriedReached(c, w0, sent)
  {
    ExecExtends(c, w0, evs, w, ev, w1);
    ExecExtends(c, w0, evs + [ev], w1, ev', w2);
  }

  function OneSending(): Mac {
    Mac(96, Transmitting, RxIdle, [Data(1, 64)], 0, 0, 0, None,
        Off, Due(672), Off, Off, Off, Off, 0, 0, 0, 0, 0, 0)
  }

  lemma HopSending()
    ensures Hop(FULL_DUPLEX, AfterAutoconfig(FULL_DUPLEX, [Data(1, 64)], 0), EndIfg, 96, OneSending())
  {
    assert [Data(1, 64)][1..] == [];
  }

  lemma HopPauseFromAbove(c: Config, s: Mac, t: int)
    requires InHand(s) && t >= s.now && AllNotBefore(s, t)
    ensures Hop(c, s, Upper(Pause(3, 64, 1), false), t, s.(now := t, queue := [Pause(3, 64, 1)] + s.queue))
            || (!c.duplex && s.tx == Transmitting && s.rx != RxIdle)
  {
  }

  lemma PauseAccepted(c: Config, w: World, p: Frame, at: int) returns (w1: World)
    requires WorldInv(c, w) && InHand(w.mac) && AllNotBefore(w.mac, at) && at >= w.mac.now && p == Pause(3, 64, 1)
    ensures StepWorld(c, w, Timed(Upper(p, false), at)) == Some(w1) && WorldInv(c, w1)
    ensures w1.mac == w.mac.(now := at, queue := [p] + w.mac.queue)
  {
    HopPauseFromAbove(c, w.mac, at);
    w1 := StepWorld(c, w, Timed(Upper(p, false), at)).value;
    StepKeepsWorldInv(c, w, Timed(Upper(p, false), at));
  }

  lemma TransmissionOver(c: Config, w: World, at: int) returns (w1: World)
    requires WorldInv(c, w) && w.mac.endTx == Due(at) && AllNotBefore(w.mac, at)
    ensures StepWorld(c, w, Timed(EndTx, at)) == Some(w1)
  {
    StepKeepsInv(c, w.mac, EndTx, at);
    w1 := StepWorld(c, w, Timed(EndTx, at)).value;
  }

  /** It takes nothing but a transmission. */
  lemma PauseTakesTheCredit(c: Config, w0: World, evs: seq<Timed>, w: World, at: int)
    requires Exec(c, w0, evs) == Some(w) && WorldInv(c, w) && w.mac.tx == Transmitting
    requires w.mac.endTx == Due(at) && AllNotBefore(w.mac, at)
    ensures UntriedReached(c, w0, true)
  {
    var p := Pause(3, 64, 1);
    var w1 := PauseAccepted(c, w, p, at);
    var w2 := TransmissionOver(c, w1, at);
    PauseCountedUnsent(c, w, p, at, w1, at, w2);
    ReachUntried(c, w0, evs, w, Timed(Upper(p, false), at), w1, Timed(EndTx, at), w2, true);
  }

  lemma SendingWorld(w0: World) returns (evs: seq<Timed>, w: World)
    requires w0 == Initial(FULL_DUPLEX, [Data(1, 64)], 0)
    ensures Exec(FULL_DUPLEX, w0, evs) == Some(w) && WorldInv(FULL_DUPLEX, w) && w.mac == OneSending()
  {
    HopSending();
    evs := [] + [Timed(EndIfg, 96)];
    w := StepWorld(FULL_DUPLEX, w0, Timed(EndIfg, 96)).value;
    ExecExtends(FULL_DUPLEX, w0, [], w0, Timed(EndIfg, 96), w);
    RunKeepsInv(FULL_DUPLEX, [Data(1, 64)], 0, evs);
  }

  /** Data frame 0 is on the wire from 96 to 672; a PAUSE frame comes meanwhile, and is
      counted as sent. */
  lemma PauseCountedUnsentReached()
    ensures UntriedReached(FULL_DUPLEX, Initial(FULL_DUPLEX, [Data(1, 64)], 0), true)
  {
    var w0 := Initial(FULL_DUPLEX, [Data(1, 64)], 0);
    var evs, w := SendingWorld(w0);
    PauseTakesTheCredit(FULL_DUPLEX, w0, evs, w, 672);
  }

  // --------------------------------------------------------------- progress

  /** Someone will wake the transmitter up. */
  predicate Live(s: Mac) {
    && (s.tx == Paused ==> s.endPause.Due?)
    && (s.tx == TxIdle && s.queue != [] ==> s.rx != RxIdle)
  }

  /** A PAUSE frame with zero units is completely received while paused. */
  predicate ZeroPauseWhilePaused(c: Config, s: Mac, ev: Timed) {
    && s.tx == Paused && s.receiving.Some? && s.receiving.value.Pause? && s.receiving.value.units == 0
    && (ev.e.EndRx? || (ev.e.Net? && BackToBack(c, s.(now := ev.t), ev.e.msg)))
  }

  /** A frame is given up when the receiver is already idle, with another behind it. */
  predicate DropWhileIdle(s: Mac, ev: Timed) {
    ev.e.EndJam? && s.backoffs == MAX_ATTEMPTS && s.rx == RxIdle && |s.queue| > 1
  }

  predicate Hazard(c: Config, s: Mac, ev: Timed) {
    ZeroPauseWhilePaused(c, s, ev) || DropWhileIdle(s, ev)
  }

  lemma LiveAfterNet(c: Config, s: Mac, msg: NetMsg)
    requires Ready(c, s, Net(msg)) && Live(s) && !Offends(c, s, Net(msg))
    ensures var o := ProcessMsgFromNetwork(c, s, msg);
            o.Next? && (Live(o.mac) <==> !ZeroPauseWhilePaused(c, s, Timed(Net(msg), s.now)))
  {
    NetGood(c, s, msg);
    if BackToBack(c, s, msg) && (c.duplex || s.tx != Transmitting) {
      ReceptionCompleteGood(c, s.(endRx := Off, receiving := None), s.receiving.value);
    }
  }

  lemma LiveAfterEndRx(c: Config, s: Mac)
    requires Ready(c, s, EndRx) && Live(s)
    ensures var o := HandleEndRx(c, s);
            o.Next? && (Live(o.mac) <==> !ZeroPauseWhilePaused(c, s, Timed(EndRx, s.now)))
  {
    EndRxGood(c, s);
  }

  lemma LiveAfterOther(c: Config, s: Mac, e: Event)
    requires Ready(c, s, e) && !e.Net? && !e.EndRx?
    requires s.tx == Paused && !e.EndPause? ==> s.endPause.Due?
    requires s.tx == TxIdle && s.queue != [] ==> s.rx != RxIdle
    ensures var o := Dispatch(c, s, e); o.Next? ==> (Live(o.mac) <==> !DropWhileIdle(s, Timed(e, s.now)))
  {
  }

  /** A step loses progress exactly in the two hazardous cases. */
  lemma LiveUnlessHazard(c: Config, s: Mac, ev: Timed)
    requires Inv(c, s) && Live(s) && Enabled(s, ev.e, ev.t) && Step(c, s, ev.e, ev.t).Next?
    ensures Live(Step(c, s, ev.e, ev.t).mac) <==> !Hazard(c, s, ev)
  {
    BeforeReady(c, s, ev.e, ev.t);
    var s1 := Before(s, ev.e, ev.t);
    match ev.e
    case Net(msg) =>
      NetGood(c, s1, msg);
      LiveAfterNet(c, s1, msg);
    case EndRx => LiveAfterEndRx(c, s1);
    case _ => LiveAfterOther(c, s1, ev.e);
  }

  /** A live transmitter with something to send has an event coming. */
  lemma LiveHasEvent(c: Config, s: Mac)
    requires Inv(c, s) && Live(s) && s.queue != []
    ensures WillMove(s)
  {
  }

  /** A timer of the transmitter is pending, or it is idle until a reception ends. */
  predicate WillMove(s: Mac) {
    || s.endIfg.Due? || s.endTx.Due? || s.endJam.Due? || s.endBackoff.Due? || s.endPause.Due?
    || (s.tx == TxIdle && s.endRx.Due?)
  }

  predicate NoHazard(c: Config, w0: World, evs: seq<Timed>) {
    forall i :: 0 <= i < |evs| ==> var w := Exec(c, w0, evs[..i]); w.Some? && !Hazard(c, w.value.mac, evs[i])
  }

  lemma {:induction false} RunStaysLive(c: Config, queue: seq<Frame>, t: int, evs: seq<Timed>)
    requires Sized(queue) && Exec(c, Initial(c, queue, t), evs).Some? && NoHazard(c, Initial(c, queue, t), evs)
    ensures Live(Exec(c, Initial(c, queue, t), evs).value.mac)
  {
    var w0 := Initial(c, queue, t);
    if evs != [] {
      var n := |evs| - 1;
      assert forall i :: 0 <= i < n ==> evs[..n][..i] == evs[..i];
      RunStaysLive(c, queue, t, evs[..n]);
      RunKeepsInv(c, queue, t, evs[..n]);
      LiveUnlessHazard(c, Exec(c, w0, evs[..n]).value.mac, evs[n]);
    }
  }

  /** Main progress result: a run without hazards never leaves a queued frame
      without an event that will get it going. */
  lemma RunProgresses(c: Config, queue: seq<Frame>, t: int, evs: seq<Timed>)
    requires Sized(queue) && Exec(c, Initial(c, queue, t), evs).Some? && NoHazard(c, Initial(c, queue, t), evs)
    ensures var s := Exec(c, Initial(c, queue, t), evs).value.mac; Live(s) && (s.queue != [] ==> WillMove(s))
  {
    RunStaysLive(c, queue, t, evs);
    RunKeepsInv(c, queue, t, evs);
    var s := Exec(c, Initial(c, queue, t), evs).value.mac;
    if s.queue != [] { LiveHasEvent(c, s); }
  }

  /** Nothing is scheduled although a frame is waiting. */
  predicate Stuck(s: Mac) {
    && s.queue != []
    && s.endIfg == s.endTx == s.endRx == s.endBackoff == s.endJam == s.endPause == Off
  }

  ghost predicate Reaches(c: Config, w0: World, s: Mac) {
    exists evs :: Exec(c, w0, evs).Some? && Exec(c, w0, evs).value.mac == s
  }

  /** s' is the next state, by e at time t. */
  predicate Hop(c: Config, s: Mac, e: Event, t: int, s': Mac) {
    Enabled(s, e, t) && Step(c, s, e, t) == Next(s')
  }

  lemma ReachHop(c: Config, w0: World, s: Mac, e: Event, t: int, s': Mac)
    requires Reaches(c, w0, s) && Hop(c, s, e, t, s')
    ensures Reaches(c, w0, s')
  {
    var evs :| Exec(c, w0, evs).Some? && Exec(c, w0, evs).value.mac == s;
    var more := evs + [Timed(e, t)];
    assert more[..|evs|] == evs;
    assert Exec(c, w0, more).value.mac == s';
  }

  lemma ReachStart(c: Config, w0: World)
    ensures Reaches(c, w0, w0.mac)
  {
    assert Exec(c, w0, []) == Some(w0);
  }

  const FULL_DUPLEX: Config := Config(true, false, false, 1, 512, 0, 512)
  const HALF_DUPLEX: Config := Config(false, false, false, 1, 512, 0, 512)

  // First exclusion: PAUSE 5, then PAUSE 0 while paused, then a frame to send.

  /** A PAUSE frame is coming in. */
  function PauseArriving(s: Mac, t: int, f: Frame): Mac {
    s.(now := t, rx := Receiving, concurrent := 1, receiving := Some(f), endRx := Due(t + 576), channelBusySince := t)
  }

  function PausedState(): Mac {
    AfterAutoconfig(FULL_DUPLEX, [], 0).(now := 576, tx := Paused, endPause := Due(3136), successTime := 576)
  }

  /** Still paused, but nothing will end the pause. */
  function PausedForGood(): Mac {
    PausedState().(now := 1176, endPause := Off, successTime := 1152, channelBusySince := 600)
  }

  lemma PauseArrives(s: Mac, t: int, f: Frame)
    requires s.tx != Transmitting && s.rx == RxIdle && s.receiving.None? && s.concurrent == 0 && s.endRx == Off
    requires t >= s.now && AllNotBefore(s, t) && f.Pause?
    ensures Hop(FULL_DUPLEX, s, Net(FrameMsg(f, 576, 0)), t, PauseArriving(s, t, f))
  {
  }

  lemma PauseObeyed()
    ensures var s := AfterAutoconfig(FULL_DUPLEX, [], 0);
            Hop(FULL_DUPLEX, PauseArriving(s, 0, Pause(1, 64, 5)), EndRx, 576, PausedState())
  {
  }

  lemma PauseCancelled()
    ensures Hop(FULL_DUPLEX, PauseArriving(PausedState(), 600, Pause(2, 64, 0)), EndRx, 1176, PausedForGood())
  {
  }

  lemma ReachPausedForGood(w0: World)
    requires w0 == Initial(FULL_DUPLEX, [], 0)
    ensures Reaches(FULL_DUPLEX, w0, PausedForGood())
  {
    var c, f, g := FULL_DUPLEX, Pause(1, 64, 5), Pause(2, 64, 0);
    ReachStart(c, w0);
    PauseArrives(w0.mac, 0, f);
    ReachHop(c, w0, w0.mac, Net(FrameMsg(f, 576, 0)), 0, PauseArriving(w0.mac, 0, f));
    PauseObeyed();
    ReachHop(c, w0, PauseArriving(w0.mac, 0, f), EndRx, 576, PausedState());
    PauseArrives(PausedState(), 600, g);
    ReachHop(c, w0, PausedState(), Net(FrameMsg(g, 576, 0)), 600, PauseArriving(PausedState(), 600, g));
    PauseCancelled();
    ReachHop(c, w0, PauseArriving(PausedState(), 600, g), EndRx, 1176, PausedForGood());
  }

  /** The first exclusion is needed: the next frame to send is stranded. */
  lemma ZeroPauseStrands()
    ensures exists c, s :: Reaches(c, Initial(c, [], 0), s) && Stuck(s)
  {
    ReachPausedForGood(Initial(FULL_DUPLEX, [], 0));
    var s := PausedForGood().(now := 2000, queue := [Data(3, 64)]);
    assert Hop(FULL_DUPLEX, PausedForGood(), Upper(Data(3, 64), false), 2000, s);
    ReachHop(FULL_DUPLEX, Initial(FULL_DUPLEX, [], 0), PausedForGood(), Upper(Data(3, 64), false), 2000, s);
    assert Stuck(s);
  }

  // Second exclusion: sixteen rounds in which a frame and the jam that ends it come in
  // during our IFG, so that we collide on sending and the reception ends before our
  // own jam does; then one more collision.

  /** Two frames queued, the first one's IFG running at time t after k collisions;
      b is when the channel was last seized. */
  function RoundStart(k: nat, t: int, b: int): Mac {
    Mac(t, WaitIfg, RxIdle, [Data(1, 64), Data(2, 64)], 0, k, 0, None,
        Due(t + 96), Off, Off, Off, Off, Off, 0, b, 0, 102 * k, 0, k)
  }

  function FrameSeen(k: nat, t: int): Mac {
    RoundStart(k, t, t + 10).(now := t + 10, rx := Receiving, concurrent := 1, receiving := Some(Data(9, 64)),
                              endRx := Due(t + 586))
  }

  function JamSeen(k: nat, t: int): Mac {
    RoundStart(k, t, t + 10).(now := t + 80, rx := RxCollision, endRx := Due(t + 112))
  }

  function JamSent(k: nat, t: int): Mac {
    JamSeen(k, t).(now := t + 96, tx := Jamming, endIfg := Off, endJam := Due(t + 128))
  }

  function JamEnding(k: nat, t: int): Mac {
    RoundStart(k, t, t + 10).(now := t + 112, tx := Jamming, endIfg := Off, endJam := Due(t + 128),
                              collisionTime := 102 * k + 102)
  }

  function BackingOff(k: nat, t: int): Mac {
    JamEnding(k, t).(now := t + 128, tx := Backoff, endJam := Off, endBackoff := Due(t + 128),
                     backoffs := k + 1, numBackoffs := k + 1)
  }

  lemma HopFrame(k: nat, t: int, b: int)
    ensures Hop(HALF_DUPLEX, RoundStart(k, t, b), Net(FrameMsg(Data(9, 64), 576, 0)), t + 10, FrameSeen(k, t))
  {
  }

  lemma HopJam(k: nat, t: int)
    ensures Hop(HALF_DUPLEX, FrameSeen(k, t), Net(Jam(32, 0)), t + 80, JamSeen(k, t))
  {
  }

  lemma HopSend(k: nat, t: int)
    ensures Hop(HALF_DUPLEX, JamSeen(k, t), EndIfg, t + 96, JamSent(k, t))
  {
    var s := JamSeen(k, t);
    assert [Data(1, 64)] + s.queue[1..] == s.queue;
  }

  lemma HopIdle(k: nat, t: int)
    ensures Hop(HALF_DUPLEX, JamSent(k, t), EndRx, t + 112, JamEnding(k, t))
  {
  }

  lemma HopBackoff(k: nat, t: int)
    requires k < 16
    ensures Hop(HALF_DUPLEX, JamEnding(k, t), EndJam(0), t + 128, BackingOff(k, t))
  {
    assert BackoffRange(k + 1) > 0 && HALF_DUPLEX.Slots(0) == 0;
  }

  lemma HopRetry(k: nat, t: int)
    ensures Hop(HALF_DUPLEX, BackingOff(k, t), EndBackoff, t + 128, RoundStart(k + 1, t + 128, t + 10))
  {
  }

  lemma Collide(w0: World, k: nat, t: int, b: int)
    requires Reaches(HALF_DUPLEX, w0, RoundStart(k, t, b))
    ensures Reaches(HALF_DUPLEX, w0, JamEnding(k, t))
  {
    HopFrame(k, t, b);
    ReachHop(HALF_DUPLEX, w0, RoundStart(k, t, b), Net(FrameMsg(Data(9, 64), 576, 0)), t + 10, FrameSeen(k, t));
    HopJam(k, t);
    ReachHop(HALF_DUPLEX, w0, FrameSeen(k, t), Net(Jam(32, 0)), t + 80, JamSeen(k, t));
    HopSend(k, t);
    ReachHop(HALF_DUPLEX, w0, JamSeen(k, t), EndIfg, t + 96, JamSent(k, t));
    HopIdle(k, t);
    ReachHop(HALF_DUPLEX, w0, JamSent(k, t), EndRx, t + 112, JamEnding(k, t));
  }

  lemma {:induction false} Rounds(w0: World, k: nat, t: int, b: int) returns (t': int, b': int)
    requires k <= 16 && Reaches(HALF_DUPLEX, w0, RoundStart(k, t, b))
    ensures Reaches(HALF_DUPLEX, w0, RoundStart(16, t', b'))
    decreases 16 - k
  {
    t', b' := t, b;
    if k < 16 {
      Collide(w0, k, t, b);
      HopBackoff(k, t);
      ReachHop(HALF_DUPLEX, w0, JamEnding(k, t), EndJam(0), t + 128, BackingOff(k, t));
      HopRetry(k, t);
      ReachHop(HALF_DUPLEX, w0, BackingOff(k, t), EndBackoff, t + 128, RoundStart(k + 1, t + 128, t + 10));
      t', b' := Rounds(w0, k + 1, t + 128, t + 10);
    }
  }

  /** The second exclusion is needed: the first frame is given up with the receiver
      idle, and the second is stranded. */
  lemma DropWhileIdleStrands()
    ensures exists c, s :: Reaches(c, Initial(c, [Data(1, 64), Data(2, 64)], 0), s) && Stuck(s)
  {
    var w0 := Initial(HALF_DUPLEX, [Data(1, 64), Data(2, 64)], 0);
    ReachStart(HALF_DUPLEX, w0);
    assert w0.mac == RoundStart(0, 0, 0);
    var t, b := Rounds(w0, 0, 0, 0);
    Collide(w0, 16, t, b);
    var s := GiveUp(w0, t);
  }

  /** With a PAUSE frame accepted during the last jam, that is given up instead. */
  lemma PauseGivenUpReached()
    ensures UntriedReached(HALF_DUPLEX, Initial(HALF_DUPLEX, [Data(1, 64), Data(2, 64)], 0), false)
  {
    var w0 := Initial(HALF_DUPLEX, [Data(1, 64), Data(2, 64)], 0);
    ReachStart(HALF_DUPLEX, w0);
    assert w0.mac == RoundStart(0, 0, 0);
    var t, b := Rounds(w0, 0, 0, 0);
    Collide(w0, 16, t, b);
    var evs, w := LastJamWorld(w0, t);
    PauseTakesTheBlame(HALF_DUPLEX, w0, evs, w, t + 128);
  }

  lemma JamOver(c: Config, w: World, at: int) returns (w1: World)
    requires WorldInv(c, w) && w.mac.backoffs == MAX_ATTEMPTS && w.mac.endJam == Due(at) && AllNotBefore(w.mac, at)
    ensures StepWorld(c, w, Timed(EndJam(0), at)) == Some(w1)
  {
    StepKeepsInv(c, w.mac, EndJam(0), at);
    w1 := StepWorld(c, w, Timed(EndJam(0), at)).value;
  }

  /** It takes nothing but the last jam. */
  lemma PauseTakesTheBlame(c: Config, w0: World, evs: seq<Timed>, w: World, at: int)
    requires Exec(c, w0, evs) == Some(w) && WorldInv(c, w) && w.mac.tx == Jamming && w.mac.backoffs == MAX_ATTEMPTS
    requires w.mac.endJam == Due(at) && AllNotBefore(w.mac, at)
    ensures UntriedReached(c, w0, false)
  {
    var p := Pause(3, 64, 1);
    var w1 := PauseAccepted(c, w, p, at);
    var w2 := JamOver(c, w1, at);
    PauseGivenUpUntried(c, w, p, at, w1, 0, at, w2);
    ReachUntried(c, w0, evs, w, Timed(Upper(p, false), at), w1, Timed(EndJam(0), at), w2, false);
  }

  lemma LastJamWorld(w0: World, t: int) returns (evs: seq<Timed>, w: World)
    requires w0 == Initial(HALF_DUPLEX, [Data(1, 64), Data(2, 64)], 0) && Reaches(HALF_DUPLEX, w0, JamEnding(16, t))
    ensures Exec(HALF_DUPLEX, w0, evs) == Some(w) && WorldInv(HALF_DUPLEX, w) && w.mac == JamEnding(16, t)
  {
    evs :| Exec(HALF_DUPLEX, w0, evs).Some? && Exec(HALF_DUPLEX, w0, evs).value.mac == JamEnding(16, t);
    w := Exec(HALF_DUPLEX, w0, evs).value;
    RunKeepsInv(HALF_DUPLEX, [Data(1, 64), Data(2, 64)], 0, evs);
  }

  lemma GiveUp(w0: World, t: int) returns (s: Mac)
    requires Reaches(HALF_DUPLEX, w0, JamEnding(16, t))
    ensures Reaches(HALF_DUPLEX, w0, s) && Stuck(s)
  {
    var s0 := JamEnding(16, t);
    s := s0.(now := t + 128, tx := TxIdle, endJam := Off, queue := s0.queue[1..], backoffs := 0);
    assert Hop(HALF_DUPLEX, s0, EndJam(0), t + 128, s);
    ReachHop(HALF_DUPLEX, w0, s0, EndJam(0), t + 128, s);
  }
}
