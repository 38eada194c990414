/** EtherMAC as the object it is: fields, self-messages and one method per handler,
    each proved to do what the transition functions of EtherMac say. */
module EtherMacModule {
  import opened Options
  import opened EtherMac
  import opened EtherMacLaws

  lemma UpperHandled(c: Config, s: Mac, frame: Frame, toSelf: bool)
    requires Ready(c, s, Upper(frame, toSelf))
    ensures var o, e := ProcessFrameFromUpperLayer(c, s, frame, toSelf), Upper(frame, toSelf);
            if Offends(c, s, e) then o.Fault? && !Internal(o.error)
            else GoodOutcome(c, s, e, o) && Lawful(c, s, e, s.now, o.mac)
  {
    UpperGood(c, s, frame, toSelf);
    if !Offends(c, s, Upper(frame, toSelf)) { UpperLawful(c, s, Upper(frame, toSelf)); }
  }

  lemma NetHandled(c: Config, s: Mac, msg: NetMsg)
    requires Ready(c, s, Net(msg))
    ensures var o := ProcessMsgFromNetwork(c, s, msg);
            if Offends(c, s, Net(msg)) then o.Fault? && !Internal(o.error)
            else GoodOutcome(c, s, Net(msg), o) && Lawful(c, s, Net(msg), s.now, o.mac)
  {
    NetGood(c, s, msg);
    if !Offends(c, s, Net(msg)) { NetLawful(c, s, msg); }
  }

  lemma OtherHandled(c: Config, s: Mac, e: Event)
    requires Ready(c, s, e) && (e.EndBackoff? || e.EndJam? || e.EndPause?)
    ensures GoodOutcome(c, s, e, Dispatch(c, s, e)) && Lawful(c, s, e, s.now, Dispatch(c, s, e).mac)
  {
    OtherTimersGood(c, s, e);
    OtherLawful(c, s, e);
  }

  class EtherMAC {
    const c: Config
    var now: int
    var transmitState: TxState
    var receiveState: RxState
    var txQueue: seq<Frame>
    var pauseUnitsRequested: nat
    var backoffs: nat
    var numConcurrentTransmissions: int
    var frameBeingReceived: Option<Frame>
    var endIFGMsg: Timer
    var endTxMsg: Timer
    var endRxMsg: Timer
    var endBackoffMsg: Timer
    var endJammingMsg: Timer
    var endPauseMsg: Timer
    var bytesSentInBurst: nat
    var channelBusySince: int
    var totalSuccessfulRxTxTime: int
    var totalCollisionTime: int
    var numFramesSent: nat
    var numBackoffs: nat

    ghost function State(): Mac
      reads this
    {
      Mac(now, transmitState, receiveState, txQueue, pauseUnitsRequested, backoffs, numConcurrentTransmissions,
          frameBeingReceived, endIFGMsg, endTxMsg, endRxMsg, endBackoffMsg, endJammingMsg, endPauseMsg,
          bytesSentInBurst, channelBusySince, totalSuccessfulRxTxTime, totalCollisionTime, numFramesSent, numBackoffs)
    }

    /** The object did what o says: it is in the new state, or stopped with the error. */
    ghost predicate Did(o: Outcome, err: Option<Error>)
      reads this
    {
      match o
      case Next(s) => err.None? && State() == s
      case Fault(e) => err == Some(e)
    }

    /** What the handler of e owes to its callers, from a state s in which e may happen: it
        stops exactly if the environment offends, never on an internal check; otherwise
        the state is consistent again, queue and counters have changed as e allows, the
        channel time is in balance, and states, timers, receiver and pauses obey the laws. */
    ghost predicate Handled(s: Mac, e: Event, err: Option<Error>)
      reads this
    {
      Ready(c, s, e) ==>
        if Offends(c, s, e) then err.Some? && !Internal(err.value)
        else err.None? && GoodOutcome(c, s, e, Next(State())) && Lawful(c, s, e, s.now, State())
    }

    constructor (config: Config, queue: seq<Frame>, t: int)
      ensures c == config && State() == AfterAutoconfig(config, queue, t)
    {
      c := config;
      now, txQueue := t, queue;
      receiveState, frameBeingReceived := RxIdle, None;
      pauseUnitsRequested, backoffs, numConcurrentTransmissions := 0, 0, 0;
      endTxMsg, endRxMsg, endBackoffMsg, endJammingMsg, endPauseMsg := Off, Off, Off, Off, Off;
      bytesSentInBurst, channelBusySince, totalSuccessfulRxTxTime, totalCollisionTime := 0, 0, 0, 0;
      numFramesSent, numBackoffs := 0, 0;
      if queue != [] {
        endIFGMsg, transmitState := Due(t + config.Ifg()), WaitIfg;
      } else {
        endIFGMsg, transmitState := Off, TxIdle;
      }
    }

    // ----------------------------------------------------- scheduling helpers

    method ScheduleEndIFGPeriod() returns (err: Option<Error>)
      modifies this
      ensures Did(ScheduleEndIfg(c, old(State())), err)
    {
      if endIFGMsg.Due? { return Some(AlreadyScheduled); }
      endIFGMsg := Due(now + c.Ifg());
      transmitState := WaitIfg;
      return None;
    }

    method ScheduleEndTxPeriod(bytes: nat) returns (err: Option<Error>)
      modifies this
      ensures Did(ScheduleEndTx(c, old(State()), bytes), err)
    {
      if endTxMsg.Due? { return Some(AlreadyScheduled); }
      endTxMsg := Due(now + c.Span(8 * bytes));
      transmitState := Transmitting;
      return None;
    }

    method ScheduleEndPausePeriod(pauseUnits: nat) returns (err: Option<Error>)
      modifies this
      ensures Did(ScheduleEndPause(c, old(State()), pauseUnits), err)
    {
      if endPauseMsg.Due? { return Some(AlreadyScheduled); }
      endPauseMsg := Due(now + c.Span(pauseUnits * PAUSE_BITTIME));
      transmitState := Paused;
      return None;
    }

    method ScheduleEndRxPeriod(bits: nat) returns (err: Option<Error>)
      modifies this
      ensures Did(ScheduleEndRx(c, old(State()), bits), err)
    {
      if endRxMsg.Due? { return Some(AlreadyScheduled); }
      endRxMsg := Due(now + c.Span(bits));
      receiveState := Receiving;
      return None;
    }

    method SendJam() returns (err: Option<Error>)
      modifies this
      ensures Did(SendJamSignal(c, old(State())), err)
    {
      if endJammingMsg.Due? { return Some(AlreadyScheduled); }
      endJammingMsg := Due(now + c.JamDuration());
      transmitState := Jamming;
      return None;
    }

    method BeginSend() returns (err: Option<Error>)
      modifies this
      ensures Did(BeginSendFrames(c, old(State())), err)
    {
      if txQueue != [] {
        err := ScheduleEndIFGPeriod();
      } else {
        transmitState := TxIdle;
        err := None;
      }
    }

    method CheckAndScheduleEndPausePeriod() returns (pausing: bool, err: Option<Error>)
      modifies this
      ensures pausing <==> old(pauseUnitsRequested) > 0
      ensures !pausing ==> err.None? && State() == old(State())
      ensures pausing ==>
                var o := ScheduleEndPause(c, old(State()), old(pauseUnitsRequested));
                Did(if o.Fault? then o else Next(o.mac.(pauseUnitsRequested := 0)), err)
    {
      if pauseUnitsRequested > 0 {
        pausing := true;
        err := ScheduleEndPausePeriod(pauseUnitsRequested);
        if err.None? { pauseUnitsRequested := 0; }
      } else {
        pausing, err := false, None;
      }
    }

    // --------------------------------------------------------------- handlers

    method FrameFromUpperLayer(frame: Frame, toSelf: bool) returns (err: Option<Error>)
      modifies this
      ensures Did(ProcessFrameFromUpperLayer(c, old(State()), frame, toSelf), err)
      ensures Handled(old(State()), Upper(frame, toSelf), err)
    {
      if Ready(c, State(), Upper(frame, toSelf)) { UpperHandled(c, State(), frame, toSelf); }
      if toSelf { return Some(FrameToSelf); }
      if frame.bytes > MAX_ETHERNET_FRAME { return Some(FrameTooLong); }
      if frame.Data? {
        if c.txQueueLimit != 0 && |txQueue| > c.txQueueLimit { return Some(QueueTooLong); }
        txQueue := txQueue + [frame];
      } else {
        txQueue := [frame] + txQueue;
      }
      err := None;
      if (c.duplex || receiveState == RxIdle) && transmitState == TxIdle {
        err := ScheduleEndIFGPeriod();
      }
    }

    method PauseCommand(pauseUnits: nat) returns (err: Option<Error>)
      modifies this
      ensures Did(ProcessPauseCommand(c, old(State()), pauseUnits), err)
    {
      err := None;
      if transmitState == TxIdle {
        if pauseUnits > 0 { err := ScheduleEndPausePeriod(pauseUnits); }
      } else if transmitState == Paused {
        endPauseMsg := Off;
        if pauseUnits > 0 { err := ScheduleEndPausePeriod(pauseUnits); }
      } else {
        pauseUnitsRequested := pauseUnits;
      }
    }

    method ReceptionComplete(frame: Frame) returns (err: Option<Error>)
      modifies this
      ensures Did(FrameReceptionComplete(c, old(State()), frame), err)
    {
      err := None;
      if frame.Pause? { err := PauseCommand(frame.units); }
    }

    method MsgFromNetwork(msg: NetMsg) returns (err: Option<Error>)
      modifies this
      ensures Did(ProcessMsgFromNetwork(c, old(State()), msg), err)
      ensures Handled(old(State()), Net(msg), err)
    {
      if Ready(c, State(), Net(msg)) { NetHandled(c, State(), msg); }
      if !c.duplex && msg.age >= c.shortestFrameDuration { return Some(CableTooLong); }
      var endRxTime := now + c.Span(msg.bits);
      if !c.duplex && transmitState == Transmitting {
        if msg.Jam? { return Some(StrayJam); }
        err := TransmissionInterrupted(msg.bits);
      } else if receiveState == RxIdle {
        err := ReceptionStarts(msg);
      } else if receiveState == Receiving && msg.FrameMsg? && endRxMsg.Due? && endRxMsg.at - now < c.bitTime {
        err := NextFrameFollows(msg);
      } else {
        err := OverlappingReception(msg, endRxTime);
      }
    }

    /** The second branch of processMsgFromNetwork. */
    method ReceptionStarts(msg: NetMsg) returns (err: Option<Error>)
      modifies this
      ensures Did(StartReception(c, old(State()), msg), err)
    {
      if msg.Jam? { return Some(StrayJam); }
      numConcurrentTransmissions := numConcurrentTransmissions + 1;
      if frameBeingReceived.Some? { return Some(FrameHeldWhileIdle); }
      frameBeingReceived := Some(msg.frame);
      err := ScheduleEndRxPeriod(msg.bits);
      if err.Some? { return; }
      channelBusySince := now;
    }

    /** The first branch of processMsgFromNetwork. */
    method TransmissionInterrupted(bits: nat) returns (err: Option<Error>)
      modifies this
      ensures Did(CollideWithTransmission(c, old(State()), bits), err)
    {
      endTxMsg := Off;
      err := SendJam();
      if err.None? { err := CollisionReceived(bits); }
    }

    method CollisionReceived(bits: nat) returns (err: Option<Error>)
      modifies this
      ensures Did(ReceiveCollision(c, old(State()), bits), err)
    {
      var endRxTime := now + c.Span(bits);
      receiveState := RxCollision;
      numConcurrentTransmissions := numConcurrentTransmissions + 1;
      var endJamTime := now + c.JamDuration();
      if endRxMsg.Due? { return Some(AlreadyScheduled); }
      endRxMsg := Due(if endRxTime < endJamTime then endJamTime else endRxTime);
      err := None;
    }

    /** The back-to-back branch of processMsgFromNetwork. */
    method NextFrameFollows(msg: NetMsg) returns (err: Option<Error>)
      requires msg.FrameMsg?
      modifies this
      ensures Did(FollowWithNextFrame(c, old(State()), msg), err)
    {
      endRxMsg := Off;
      if frameBeingReceived.None? { return Some(FrameNotFound); }
      var frame := frameBeingReceived.value;
      frameBeingReceived := None;
      err := ReceptionComplete(frame);
      if err.Some? { return; }
      frameBeingReceived := Some(msg.frame);
      err := ScheduleEndRxPeriod(msg.bits);
    }

    /** The last branch of processMsgFromNetwork. */
    method OverlappingReception(msg: NetMsg, endRxTime: int) returns (err: Option<Error>)
      requires endRxTime == now + c.Span(msg.bits)
      modifies this
      ensures Did(OverlapReception(c, old(State()), msg), err)
    {
      if msg.Jam? {
        if numConcurrentTransmissions <= 0 { return Some(StrayJam); }
        numConcurrentTransmissions := numConcurrentTransmissions - 1;
        if numConcurrentTransmissions == 0 { endRxMsg := Due(endRxTime); }
      } else {
        numConcurrentTransmissions := numConcurrentTransmissions + 1;
        if !endRxMsg.Due? || endRxMsg.at < endRxTime { endRxMsg := Due(endRxTime); }
      }
      frameBeingReceived := None;
      receiveState := RxCollision;
      err := None;
    }

    method JamBlindly() returns (err: Option<Error>)
      modifies this
      ensures Did(CollideBlindly(c, old(State())), err)
    {
      err := SendJam();
      frameBeingReceived := None;
      receiveState := RxCollision;
    }

    method SendFrame(bytes: nat) returns (err: Option<Error>)
      modifies this
      ensures Did(BeginTransmission(c, old(State()), bytes), err)
    {
      err := ScheduleEndTxPeriod(bytes);
      if !c.duplex { channelBusySince := now; }
    }

    method StartTransmission() returns (err: Option<Error>)
      modifies this
      ensures Did(StartFrameTransmission(c, old(State())), err)
    {
      if txQueue == [] { return Some(NothingToTransmit); }
      var bytes := txQueue[0].bytes + PREAMBLE_AND_SFD_BYTES;
      if c.frameBursting { bytesSentInBurst := bytes; }
      if !c.duplex && receiveState != RxIdle {
        err := JamBlindly();
      } else {
        err := SendFrame(bytes);
      }
    }

    method EndIFGPeriod() returns (err: Option<Error>)
      modifies this
      ensures Did(HandleEndIfg(c, old(State())), err)
      ensures Handled(old(State()), EndIfg, err)
    {
      if Ready(c, State(), EndIfg) { EndIfgGood(c, State()); EndIfgLawful(c, State()); }
      if transmitState != WaitIfg { return Some(NotWaitIfg); }
      if txQueue == [] { return Some(NothingToTransmit); }
      var frame := txQueue[0];
      if c.carrierExtension && frame.bytes < GIGABIT_MIN_FRAME_WITH_EXT {
        frame := frame.(bytes := GIGABIT_MIN_FRAME_WITH_EXT);
      }
      txQueue := [frame] + txQueue[1..];
      if c.frameBursting { bytesSentInBurst := 0; }
      err := StartTransmission();
    }

    method BaseEndTxPeriod() returns (err: Option<Error>)
      modifies this
      ensures Did(BaseEndTx(c, old(State())), err)
    {
      if transmitState != Transmitting || (!c.duplex && receiveState != RxIdle) { return Some(BadEndOfTransmission); }
      if txQueue == [] { return Some(FrameNotFound); }
      txQueue := txQueue[1..];
      numFramesSent := numFramesSent + 1;
      return None;
    }

    method Continue() returns (err: Option<Error>)
      modifies this
      ensures Did(ContinueSending(c, old(State())), err)
    {
      var pausing;
      pausing, err := CheckAndScheduleEndPausePeriod();
      if pausing { return; }
      var burstFrame := c.frameBursting && txQueue != [] && bytesSentInBurst < GIGABIT_MAX_BURST_BYTES;
      if burstFrame {
        err := StartTransmission();
      } else {
        err := BeginSend();
      }
    }

    method EndTxPeriod() returns (err: Option<Error>)
      modifies this
      ensures Did(HandleEndTx(c, old(State())), err)
      ensures Handled(old(State()), EndTx, err)
    {
      if Ready(c, State(), EndTx) { EndTxGood(c, State()); EndTxLawful(c, State()); }
      err := BaseEndTxPeriod();
      if err.Some? { return; }
      if !c.duplex {
        totalSuccessfulRxTxTime := totalSuccessfulRxTxTime + (now - channelBusySince);
      }
      backoffs := 0;
      err := Continue();
    }

    method ReceptionOver(dt: int) returns (err: Option<Error>)
      modifies this
      ensures Did(FinishReception(c, old(State()), dt), err)
    {
      if receiveState == Receiving {
        if frameBeingReceived.None? { return Some(FrameNotFound); }
        var frame := frameBeingReceived.value;
        frameBeingReceived := None;
        totalSuccessfulRxTxTime := totalSuccessfulRxTxTime + dt;
        err := ReceptionComplete(frame);
      } else {
        totalCollisionTime := totalCollisionTime + dt;
        err := None;
      }
    }

    method EndRxPeriod() returns (err: Option<Error>)
      modifies this
      ensures Did(HandleEndRx(c, old(State())), err)
      ensures Handled(old(State()), EndRx, err)
    {
      if Ready(c, State(), EndRx) { EndRxGood(c, State()); EndRxLawful(c, State()); }
      err := ReceptionOver(now - channelBusySince);
      if err.None? { err := ReceiverIdle(); }
    }

    method ReceiverIdle() returns (err: Option<Error>)
      modifies this
      ensures Did(ReceiverBecomesIdle(c, old(State())), err)
    {
      err := None;
      receiveState := RxIdle;
      numConcurrentTransmissions := 0;
      if transmitState == TxIdle && txQueue != [] {
        err := ScheduleEndIFGPeriod();
      }
    }

    method EndBackoffPeriod() returns (err: Option<Error>)
      modifies this
      ensures Did(HandleEndBackoff(c, old(State())), err)
      ensures Handled(old(State()), EndBackoff, err)
    {
      if Ready(c, State(), EndBackoff) { OtherHandled(c, State(), EndBackoff); }
      if transmitState != Backoff { return Some(NotBackoff); }
      if txQueue == [] { return Some(BackoffQueueEmpty); }
      if receiveState == RxIdle {
        err := ScheduleEndIFGPeriod();
      } else {
        transmitState := TxIdle;
        err := None;
      }
    }

    method EndJammingPeriod(slotNumber: nat) returns (err: Option<Error>)
      modifies this
      ensures Did(HandleEndJam(c, old(State()), slotNumber), err)
      ensures Handled(old(State()), EndJam(slotNumber), err)
    {
      if Ready(c, State(), EndJam(slotNumber)) { OtherHandled(c, State(), EndJam(slotNumber)); }
      if transmitState != Jamming { return Some(NotJamming); }
      err := Retransmission(slotNumber);
    }

    method Retransmission(slotNumber: nat) returns (err: Option<Error>)
      modifies this
      ensures Did(HandleRetransmission(c, old(State()), slotNumber), err)
    {
      if backoffs + 1 > MAX_ATTEMPTS {
        if txQueue == [] { return Some(QueueUnderflow); }
        txQueue := txQueue[1..];
        transmitState := TxIdle;
        backoffs := 0;
        return None;
      }
      if endBackoffMsg.Due? { return Some(AlreadyScheduled); }
      backoffs := backoffs + 1;
      endBackoffMsg := Due(now + c.Slots(slotNumber));
      transmitState := Backoff;
      numBackoffs := numBackoffs + 1;
      return None;
    }

    method EndPausePeriod() returns (err: Option<Error>)
      modifies this
      ensures Did(HandleEndPause(c, old(State())), err)
      ensures Handled(old(State()), EndPause, err)
    {
      if Ready(c, State(), EndPause) { OtherHandled(c, State(), EndPause); }
      if transmitState != Paused { return Some(NotPaused); }
      err := BeginSend();
    }

    /** One event of the simulation, at its time.  From a consistent state the only
        errors are the environment's, and the state stays consistent. */
    method HandleMessage(e: Event, t: int) returns (err: Option<Error>)
      requires Inv(c, State()) && Enabled(State(), e, t)
      modifies this
      ensures Did(Step(c, old(State()), e, t), err)
      ensures err.Some? <==> Offends(c, old(State()), e)
      ensures err.Some? ==> !Internal(err.value)
      ensures err.None? ==> Inv(c, State()) && now == t && Lawful(c, old(State()), e, t, State())
    {
      StepKeepsInv(c, State(), e, t);
      if Step(c, State(), e, t).Next? { StepLawful(c, State(), e, t); }
      Deliver(e, t);
      if !c.duplex && transmitState == Transmitting && receiveState != RxIdle { return Some(TransmittingAndReceiving); }
      match e {
        case Upper(frame, toSelf) => err := FrameFromUpperLayer(frame, toSelf);
        case Net(msg) => err := MsgFromNetwork(msg);
        case EndIfg => err := EndIFGPeriod();
        case EndTx => err := EndTxPeriod();
        case EndRx => err := EndRxPeriod();
        case EndBackoff => err := EndBackoffPeriod();
        case EndJam(slot) => err := EndJammingPeriod(slot);
        case EndPause => err := EndPausePeriod();
      }
    }

    /** What the simulation kernel does before it calls handleMessage. */
    method Deliver(e: Event, t: int)
      modifies this
      ensures State() == Before(old(State()), e, t)
    {
      now := t;
      if e.EndIfg? || e.EndTx? || e.EndRx? {
        TakeOffFirst(e);
      } else if e.EndBackoff? {
        endBackoffMsg := Off;
      } else if e.EndJam? {
        endJammingMsg := Off;
      } else if e.EndPause? {
        endPauseMsg := Off;
      }
    }

    method TakeOffFirst(e: Event)
      requires e.EndIfg? || e.EndTx? || e.EndRx?
      modifies this
      ensures State() == TakeOff(old(State()), e)
    {
      if e.EndIfg? {
        endIFGMsg := Off;
      } else if e.EndTx? {
        endTxMsg := Off;
      } else {
        endRxMsg := Off;
      }
    }
  }
}
