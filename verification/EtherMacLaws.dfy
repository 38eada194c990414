/** What each event does to the MAC, by its effect and not by the handler that brings it
    about: the transmit state, the timers, the receiver, the times and the pauses. */
module EtherMacLaws {
  import opened Options
  import opened EtherMac

  /** A span is so many bit times. */
  lemma SpanIsBits(c: Config, bits: nat)
    ensures c.Span(bits) == bits * c.bitTime && c.Slots(bits) == bits * c.slotTime
  {
  }

  function Later(a: int, b: int): int {
    if a < b then b else a
  }

  /** The units of the PAUSE frame that is completely received with this event, if one is. */
  function PauseHeard(c: Config, s: Mac, e: Event, t: int): Option<nat> {
    if s.receiving.Some? && s.receiving.value.Pause? && (e.EndRx? || (e.Net? && Follows(c, s, e.msg, t)))
    then Some(s.receiving.value.units) else None
  }

  /** The message comes right behind the frame being received, and interrupts nothing. */
  predicate Follows(c: Config, s: Mac, msg: NetMsg, t: int) {
    && (c.duplex || s.tx != Transmitting) && s.rx == Receiving
    && msg.FrameMsg? && s.endRx.Due? && s.endRx.at - t < c.bitTime
  }

  // -------------------------------------------------------- transmit state

  /** The transmit state after a PAUSE frame of u units is received, if one is. */
  function Pausing(tx: TxState, heard: Option<nat>): TxState {
    if tx == TxIdle && heard.Some? && heard.value > 0 then Paused else tx
  }

  function NextTx(c: Config, s: Mac, e: Event, t: int): TxState {
    match e
    case Upper(_, _) => if s.tx == TxIdle && (c.duplex || s.rx == RxIdle) then WaitIfg else s.tx
    case Net(_) => if !c.duplex && s.tx == Transmitting then Jamming else Pausing(s.tx, PauseHeard(c, s, e, t))
    case EndIfg => if !c.duplex && s.rx != RxIdle then Jamming else Transmitting
    case EndTx =>
      if s.pauseUnitsRequested > 0 then Paused
      else if |s.queue| <= 1 then TxIdle
      else if c.frameBursting then Transmitting
      else WaitIfg
    case EndRx =>
      var tx := Pausing(s.tx, PauseHeard(c, s, e, t));
      if tx == TxIdle && s.queue != [] then WaitIfg else tx
    case EndBackoff => if s.rx == RxIdle then WaitIfg else TxIdle
    case EndJam(_) => if s.backoffs < MAX_ATTEMPTS then Backoff else TxIdle
    case EndPause => if s.queue != [] then WaitIfg else TxIdle
  }

  // ---------------------------------------------------------------- timers

  /** A timer runs from when its state is entered, for as long as that state lasts by itself. */
  predicate TimersSet(c: Config, s: Mac, e: Event, t: int, s': Mac) {
    && (s'.tx == WaitIfg ==> s'.endIfg == if s.tx == WaitIfg then s.endIfg else Due(t + c.Span(96)))
    && (s'.tx == Jamming ==> s'.endJam == if s.tx == Jamming then s.endJam else Due(t + c.Span(32)))
    && (s'.tx == Transmitting ==>
          if e.EndIfg? || e.EndTx? then
            s'.queue != [] && s'.endTx == Due(t + c.Span(8 * (s'.queue[0].bytes + 8)))
          else s'.endTx == s.endTx)
  }

  // -------------------------------------------------------------- receiver

  /** What is on the air: the frame being received without a collision, how many
      transmissions there are, and when the last of them ends. */
  datatype Air = Air(rx: RxState, held: Option<Frame>, count: int, end: Timer)

  function AirOf(s: Mac): Air {
    Air(s.rx, s.receiving, s.concurrent, s.endRx)
  }

  function NextAir(c: Config, s: Mac, e: Event, t: int): Air {
    match e
    case Net(msg) =>
      var end := t + c.Span(msg.bits);
      if !c.duplex && s.tx == Transmitting then
        Air(RxCollision, None, s.concurrent + 1, Due(Later(end, t + c.Span(32))))
      else if msg.FrameMsg? && s.rx == RxIdle then Air(Receiving, Some(msg.frame), 1, Due(end))
      else if Follows(c, s, msg, t) then Air(Receiving, Some(msg.frame), 1, Due(end))
      else if msg.FrameMsg? then
        Air(RxCollision, None, s.concurrent + 1, if s.endRx.Due? then Due(Later(s.endRx.at, end)) else Due(end))
      else Air(RxCollision, None, s.concurrent - 1, if s.concurrent == 1 then Due(end) else s.endRx)
    case EndIfg => if !c.duplex && s.rx != RxIdle then AirOf(s).(rx := RxCollision, held := None) else AirOf(s)
    case EndRx => Air(RxIdle, None, 0, Off)
    case _ => AirOf(s)
  }

  // ----------------------------------------------------------- times, bytes

  /** A busy interval is paid to success or to collision when it ends. */
  predicate TimesPaid(c: Config, s: Mac, e: Event, t: int, s': Mac) {
    var success := (e.EndRx? && s.rx == Receiving) || (e.EndTx? && !c.duplex);
    var collision := e.EndRx? && s.rx != Receiving;
    && s'.successTime == s.successTime + (if success then t - s.channelBusySince else 0)
    && s'.collisionTime == s.collisionTime + (if collision then t - s.channelBusySince else 0)
  }

  /** Where carrier extension is on, no frame is sent shorter than the minimum. */
  predicate Extended(c: Config, s: Mac, e: Event, s': Mac) {
    e.EndIfg? && s.queue != [] && s'.queue != [] ==>
      s'.queue[0] == if c.carrierExtension && s.queue[0].bytes < 512 then s.queue[0].(bytes := 512) else s.queue[0]
  }

  // ---------------------------------------------------------------- pauses

  function PauseEnd(c: Config, t: int, units: nat): Timer {
    Due(t + c.Span(units * 512))
  }

  /** A PAUSE heard while idle or paused is obeyed at once, one heard while busy at the end
      of the next transmission. */
  predicate PausesObeyed(c: Config, s: Mac, e: Event, t: int, s': Mac) {
    match PauseHeard(c, s, e, t)
    case Some(units) =>
      if s.tx == TxIdle || s.tx == Paused then
        && s'.pauseUnitsRequested == s.pauseUnitsRequested
        && s'.endPause == if units > 0 then PauseEnd(c, t, units) else Off
      else s'.pauseUnitsRequested == units && s'.endPause == s.endPause
    case None =>
      if e.EndTx? then
        s'.pauseUnitsRequested == 0 &&
        s'.endPause == if s.pauseUnitsRequested > 0 then PauseEnd(c, t, s.pauseUnitsRequested) else s.endPause
      else
        s'.pauseUnitsRequested == s.pauseUnitsRequested && s'.endPause == if e.EndPause? then Off else s.endPause
  }

  // -------------------------------------------------------------- the laws

  /** All of it, for the event e at time t. */
  predicate Lawful(c: Config, s: Mac, e: Event, t: int, s': Mac) {
    && s'.tx == NextTx(c, s, e, t) && TimersSet(c, s, e, t, s') && AirOf(s') == NextAir(c, s, e, t)
    && TimesPaid(c, s, e, t, s') && Extended(c, s, e, s') && PausesObeyed(c, s, e, t, s')
  }

  lemma CollisionLawful(c: Config, s: Mac, msg: NetMsg)
    requires Ready(c, s, Net(msg)) && !c.duplex && s.tx == Transmitting
    ensures var o := CollideWithTransmission(c, s, msg.bits); o.Next? && Lawful(c, s, Net(msg), s.now, o.mac)
  {
  }

  lemma StartLawful(c: Config, s: Mac, msg: NetMsg)
    requires Ready(c, s, Net(msg)) && (c.duplex || s.tx != Transmitting) && s.rx == RxIdle && msg.FrameMsg?
    ensures var o := StartReception(c, s, msg); o.Next? && Lawful(c, s, Net(msg), s.now, o.mac)
  {
  }

  lemma FollowLawful(c: Config, s: Mac, msg: NetMsg)
    requires Ready(c, s, Net(msg)) && Follows(c, s, msg, s.now)
    ensures var o := FollowWithNextFrame(c, s, msg); o.Next? && Lawful(c, s, Net(msg), s.now, o.mac)
  {
  }

  lemma OverlapLawful(c: Config, s: Mac, msg: NetMsg)
    requires Ready(c, s, Net(msg)) && (c.duplex || s.tx != Transmitting) && s.rx != RxIdle && !Follows(c, s, msg, s.now)
    requires OverlapReception(c, s, msg).Next?
    ensures Lawful(c, s, Net(msg), s.now, OverlapReception(c, s, msg).mac)
  {
  }

  lemma NetLawful(c: Config, s: Mac, msg: NetMsg)
    requires Ready(c, s, Net(msg)) && ProcessMsgFromNetwork(c, s, msg).Next?
    ensures Lawful(c, s, Net(msg), s.now, ProcessMsgFromNetwork(c, s, msg).mac)
  {
    if !c.duplex && s.tx == Transmitting {
      CollisionLawful(c, s, msg);
    } else if s.rx == RxIdle {
      StartLawful(c, s, msg);
    } else if BackToBack(c, s, msg) {
      FollowLawful(c, s, msg);
    } else {
      OverlapLawful(c, s, msg);
    }
  }

  lemma EndRxTransmits(c: Config, s: Mac)
    requires Ready(c, s, EndRx)
    ensures var o := HandleEndRx(c, s);
            && o.Next? && o.mac.tx == NextTx(c, s, EndRx, s.now) && TimersSet(c, s, EndRx, s.now, o.mac)
            && PausesObeyed(c, s, EndRx, s.now, o.mac)
  {
  }

  lemma EndRxReceives(c: Config, s: Mac)
    requires Ready(c, s, EndRx)
    ensures var o := HandleEndRx(c, s);
            o.Next? && AirOf(o.mac) == NextAir(c, s, EndRx, s.now) && TimesPaid(c, s, EndRx, s.now, o.mac)
  {
  }

  lemma EndRxLawful(c: Config, s: Mac)
    requires Ready(c, s, EndRx)
    ensures HandleEndRx(c, s).Next? && Lawful(c, s, EndRx, s.now, HandleEndRx(c, s).mac)
  {
    EndRxTransmits(c, s);
    EndRxReceives(c, s);
  }

  lemma EndTxLawful(c: Config, s: Mac)
    requires Ready(c, s, EndTx)
    ensures HandleEndTx(c, s).Next? && Lawful(c, s, EndTx, s.now, HandleEndTx(c, s).mac)
  {
  }

  lemma EndIfgLawful(c: Config, s: Mac)
    requires Ready(c, s, EndIfg)
    ensures HandleEndIfg(c, s).Next? && Lawful(c, s, EndIfg, s.now, HandleEndIfg(c, s).mac)
  {
  }

  lemma UpperLawful(c: Config, s: Mac, e: Event)
    requires Ready(c, s, e) && e.Upper? && Dispatch(c, s, e).Next?
    ensures Lawful(c, s, e, s.now, Dispatch(c, s, e).mac)
  {
  }

  lemma OtherLawful(c: Config, s: Mac, e: Event)
    requires Ready(c, s, e) && (e.EndBackoff? || e.EndJam? || e.EndPause?) && Dispatch(c, s, e).Next?
    ensures Lawful(c, s, e, s.now, Dispatch(c, s, e).mac)
  {
  }

  /** The timer taken off before the handler runs makes no difference to the laws. */
  lemma BeforeSame(c: Config, s: Mac, e: Event, t: int, s': Mac)
    requires Lawful(c, Before(s, e, t), e, t, s') && (e.EndRx? || e.Net? || Before(s, e, t).endRx == s.endRx)
    requires s.tx == WaitIfg && e.EndIfg? ==> s'.tx != WaitIfg
    requires s.tx == Jamming && e.EndJam? ==> s'.tx != Jamming
    requires s.endPause.Due? && e.EndPause? ==> s'.endPause == Off
    ensures Lawful(c, s, e, t, s')
  {
  }

  /** Every step from a consistent state is lawful. */
  lemma StepLawful(c: Config, s: Mac, e: Event, t: int)
    requires Inv(c, s) && Enabled(s, e, t) && Step(c, s, e, t).Next?
    ensures Lawful(c, s, e, t, Step(c, s, e, t).mac)
  {
    var s1 := Before(s, e, t);
    BeforeReady(c, s, e, t);
    match e {
      case Net(msg) => NetLawful(c, s1, msg);
      case EndRx => EndRxLawful(c, s1);
      case EndTx => EndTxLawful(c, s1);
      case EndIfg => EndIfgLawful(c, s1);
      case Upper(_, _) => UpperLawful(c, s1, e);
      case _ => OtherLawful(c, s1, e);
    }
    BeforeSame(c, s, e, t, Step(c, s, e, t).mac);
  }

  /** What is refused, and only that: a frame from above to this very MAC, longer than 1518
      bytes or, if data, beyond the limit of the queue; in half-duplex mode a message that
      took as long as the shortest frame; and a jam while nothing is on the air. */
  lemma RefusedIff(c: Config, s: Mac, e: Event, t: int)
    requires Inv(c, s) && Enabled(s, e, t)
    ensures Step(c, s, e, t).Fault? <==>
              match e
              case Upper(f, toSelf) =>
                toSelf || f.bytes > 1518 || (f.Data? && c.txQueueLimit > 0 && |s.queue| > c.txQueueLimit)
              case Net(msg) =>
                || (!c.duplex && msg.age >= c.shortestFrameDuration)
                || (msg.Jam? && (s.rx == RxIdle || s.concurrent == 0))
              case _ => false
    ensures Step(c, s, e, t).Fault? ==>
              match Step(c, s, e, t).error
              case FrameToSelf => e.Upper? && e.toSelf
              case FrameTooLong => e.Upper? && e.frame.bytes > 1518
              case QueueTooLong => e.Upper? && |s.queue| > c.txQueueLimit
              case CableTooLong => e.Net? && e.msg.age >= c.shortestFrameDuration
              case StrayJam => e.Net? && e.msg.Jam?
              case _ => false
  {
    StepKeepsInv(c, s, e, t);
  }

  // ------------------------------------------------------------------ runs

  /** What is asked for after this event, if `asked` was before. */
  function NextAsked(c: Config, s: Mac, ev: Timed, asked: nat): nat {
    var heard := PauseHeard(c, s, ev.e, ev.t);
    if heard.Some? && s.tx != TxIdle && s.tx != Paused then heard.value
    else if ev.e.EndTx? then 0
    else asked
  }

  /** When the pause is to end after this event, if it was to end at `until` before. */
  function NextUntil(c: Config, s: Mac, ev: Timed, asked: nat, until: Timer): Timer {
    var heard := PauseHeard(c, s, ev.e, ev.t);
    if heard.Some? && (s.tx == TxIdle || s.tx == Paused) then
      if heard.value > 0 then PauseEnd(c, ev.t, heard.value) else Off
    else if ev.e.EndTx? && asked > 0 then PauseEnd(c, ev.t, asked)
    else if ev.e.EndPause? then Off
    else until
  }

  /** The units of the last PAUSE frame completely received while the transmitter was
      neither idle nor paused, if it has not been obeyed. */
  function Asked(c: Config, w0: World, evs: seq<Timed>): nat
    requires Exec(c, w0, evs).Some?
  {
    if evs == [] then 0
    else
      var n := |evs| - 1;
      NextAsked(c, Exec(c, w0, evs[..n]).value.mac, evs[n], Asked(c, w0, evs[..n]))
  }

  /** When the pause obeyed now is to end. */
  function PausedUntil(c: Config, w0: World, evs: seq<Timed>): Timer
    requires Exec(c, w0, evs).Some?
  {
    if evs == [] then Off
    else
      var n := |evs| - 1;
      var s := Exec(c, w0, evs[..n]).value.mac;
      NextUntil(c, s, evs[n], Asked(c, w0, evs[..n]), PausedUntil(c, w0, evs[..n]))
  }

  lemma PauseStep(c: Config, s: Mac, ev: Timed)
    requires Inv(c, s) && Enabled(s, ev.e, ev.t) && Step(c, s, ev.e, ev.t).Next?
    ensures var s' := Step(c, s, ev.e, ev.t).mac;
            && s'.pauseUnitsRequested == NextAsked(c, s, ev, s.pauseUnitsRequested)
            && s'.endPause == NextUntil(c, s, ev, s.pauseUnitsRequested, s.endPause)
  {
    StepLawful(c, s, ev.e, ev.t);
  }

  lemma {:induction false} PausesFollowed(c: Config, queue: seq<Frame>, t: int, evs: seq<Timed>)
    requires Sized(queue) && Exec(c, Initial(c, queue, t), evs).Some?
    ensures var s := Exec(c, Initial(c, queue, t), evs).value.mac;
            s.pauseUnitsRequested == Asked(c, Initial(c, queue, t), evs)
            && s.endPause == PausedUntil(c, Initial(c, queue, t), evs)
  {
    if evs != [] {
      var n := |evs| - 1;
      PausesFollowed(c, queue, t, evs[..n]);
      RunKeepsInv(c, queue, t, evs[..n]);
      PauseStep(c, Exec(c, Initial(c, queue, t), evs[..n]).value.mac, evs[n]);
    }
  }

  /** Main result on PAUSE, for every run: the end of a transmission leads to a pause if and
      only if a PAUSE frame of more than zero units has been heard while busy and not been
      obeyed, and that pause lasts exactly its units; and whenever a pause is to end, it is
      due as the PAUSE frames heard say. */
  lemma RunPauses(c: Config, queue: seq<Frame>, t: int, evs: seq<Timed>, at: int)
    requires Sized(queue) && Exec(c, Initial(c, queue, t), evs).Some?
    ensures var w0 := Initial(c, queue, t);
            var s := Exec(c, w0, evs).value.mac;
            && s.endPause == PausedUntil(c, w0, evs)
            && (Enabled(s, EndTx, at) ==>
                  var o := Step(c, s, EndTx, at);
                  && o.Next? && (o.mac.tx == Paused <==> Asked(c, w0, evs) > 0)
                  && (o.mac.tx == Paused ==> o.mac.endPause == PauseEnd(c, at, Asked(c, w0, evs))))
  {
    RunKeepsInv(c, queue, t, evs);
    PausesFollowed(c, queue, t, evs);
    var s := Exec(c, Initial(c, queue, t), evs).value.mac;
    if Enabled(s, EndTx, at) {
      StepKeepsInv(c, s, EndTx, at);
      StepLawful(c, s, EndTx, at);
    }
  }

  /** And every step of every run is lawful. */
  lemma RunIsLawful(c: Config, queue: seq<Frame>, t: int, evs: seq<Timed>, e: Event, at: int)
    requires Sized(queue) && Exec(c, Initial(c, queue, t), evs).Some?
    ensures var s := Exec(c, Initial(c, queue, t), evs).value.mac;
            Enabled(s, e, at) && Step(c, s, e, at).Next? ==> Lawful(c, s, e, at, Step(c, s, e, at).mac)
  {
    RunKeepsInv(c, queue, t, evs);
    var s := Exec(c, Initial(c, queue, t), evs).value.mac;
    if Enabled(s, e, at) && Step(c, s, e, at).Next? { StepLawful(c, s, e, at); }
  }
}
