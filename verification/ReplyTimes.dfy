/** When the server application sends each reply and each close: against the messages that
    came, and when they came. */
module ReplyTimes {
  import opened Options
  import opened EventList
  import opened DelayedClose

  /** A message from TCP and when it came; its number is its place in the list. */
  datatype Came = Came(t: real, msg: Msg)

  function Messages(es: seq<Input>): seq<Came> {
    if es == [] then []
    else
      var n := |es| - 1;
      Messages(es[..n]) + match es[n]
                          case FromTcp(m, t) => [Came(t, m)]
                          case Timer => []
  }

  /** The longest delay asked for so far, and not less than none. */
  function LongestDelay(log: seq<Came>): real {
    if log == [] then 0.0
    else
      var n := |log| - 1;
      var before := LongestDelay(log[..n]);
      if log[n].msg.Data? && log[n].msg.replyDelay > before then log[n].msg.replyDelay else before
  }

  function Number(x: Out): nat {
    if x.Reply? then x.req else x.decided
  }

  predicate Known(log: seq<Came>, x: Out) {
    Number(x) < |log| && (x.Reply? ==> log[x.req].msg.Data?)
  }

  /** A reply is due its own delay after its request, a close the longest delay so far after
      the message on which it was decided; both later by the module's own delay. */
  function DueTime(delay: real, log: seq<Came>, x: Out): real
    requires Known(log, x)
  {
    match x
    case Reply(_, n) => log[n].t + (delay + log[n].msg.replyDelay)
    case Close(_, n) => log[n].t + (delay + LongestDelay(log[..n + 1]))
  }

  /** When each of the messages sent was sent. */
  function SentTimes(delay: real, es: seq<Input>): seq<real>
    requires Run(delay, es).Some?
  {
    if es == [] then []
    else
      var n := |es| - 1;
      var s, s' := Run(delay, es[..n]).value, Run(delay, es).value;
      SentTimes(delay, es[..n]) + Repeat(|s'.sent| - |s.sent|, s'.now)
  }

  function Repeat(n: int, t: real): (r: seq<real>)
    ensures |r| == (if n < 0 then 0 else n) && forall i :: 0 <= i < |r| ==> r[i] == t
  {
    if n <= 0 then [] else Repeat(n - 1, t) + [t]
  }

  predicate AllDue(delay: real, log: seq<Came>, fes: seq<Event<Out>>) {
    forall k :: 0 <= k < |fes| ==> Known(log, fes[k].what) && fes[k].time == DueTime(delay, log, fes[k].what)
  }

  predicate AllInTime(delay: real, log: seq<Came>, sent: seq<Out>, times: seq<real>) {
    |times| == |sent| &&
    forall i :: 0 <= i < |sent| ==> Known(log, sent[i]) && times[i] == DueTime(delay, log, sent[i])
  }

  predicate OnTime(delay: real, log: seq<Came>, s: State, times: seq<real>) {
    && |log| == s.msgs && s.maxMsgDelay == LongestDelay(log)
    && AllDue(delay, log, s.fes) && AllInTime(delay, log, s.sent, times)
  }

  /** A later message makes no difference to what is due. */
  lemma DueStays(delay: real, log: seq<Came>, a: Came, x: Out)
    requires Known(log, x)
    ensures Known(log + [a], x) && DueTime(delay, log + [a], x) == DueTime(delay, log, x)
  {
    assert (log + [a])[..Number(x) + 1] == log[..Number(x) + 1];
  }

  lemma AllDueStays(delay: real, log: seq<Came>, a: Came, fes: seq<Event<Out>>, sent: seq<Out>, times: seq<real>)
    requires AllDue(delay, log, fes) && AllInTime(delay, log, sent, times)
    ensures AllDue(delay, log + [a], fes) && AllInTime(delay, log + [a], sent, times)
  {
    forall k | 0 <= k < |fes|
      ensures Known(log + [a], fes[k].what) && fes[k].time == DueTime(delay, log + [a], fes[k].what)
    {
      DueStays(delay, log, a, fes[k].what);
    }
    forall i | 0 <= i < |sent|
      ensures Known(log + [a], sent[i]) && times[i] == DueTime(delay, log + [a], sent[i])
    {
      DueStays(delay, log, a, sent[i]);
    }
  }

  lemma ScheduledDue(delay: real, log: seq<Came>, fes: seq<Event<Out>>, t: real, x: Out)
    requires AllDue(delay, log, fes) && Known(log, x) && t == DueTime(delay, log, x)
    ensures AllDue(delay, log, Schedule(fes, t, x))
  {
    var fes' := Schedule(fes, t, x);
    forall k | 0 <= k < |fes'| ensures Known(log, fes'[k].what) && fes'[k].time == DueTime(delay, log, fes'[k].what) {
      ScheduledAt(fes, t, x, k);
    }
  }

  /** From s, on time, to s' at the same time, on time. */
  predicate Onward(delay: real, log: seq<Came>, s: State, times: seq<real>, s': State) {
    && |s'.sent| >= |s.sent| && s'.now == s.now
    && OnTime(delay, log, s', times + Repeat(|s'.sent| - |s.sent|, s.now))
  }

  lemma Stays(delay: real, log: seq<Came>, s: State, times: seq<real>)
    requires OnTime(delay, log, s, times)
    ensures Onward(delay, log, s, times, s)
  {
    assert times + Repeat(0, s.now) == times;
  }

  lemma RepeatAdds(times: seq<real>, m: nat, n: nat, t: real)
    ensures (times + Repeat(m, t)) + Repeat(n, t) == times + Repeat(m + n, t)
  {
    assert Repeat(m, t) + Repeat(n, t) == Repeat(m + n, t);
  }

  lemma Twice(delay: real, log: seq<Came>, s: State, times: seq<real>, s1: State, s2: State)
    requires Onward(delay, log, s, times, s1)
    requires Onward(delay, log, s1, times + Repeat(|s1.sent| - |s.sent|, s.now), s2)
    ensures Onward(delay, log, s, times, s2)
  {
    RepeatAdds(times, |s1.sent| - |s.sent|, |s2.sent| - |s1.sent|, s.now);
  }

  lemma SentNow(delay: real, log: seq<Came>, s: State, x: Out, times: seq<real>)
    requires OnTime(delay, log, s, times) && Known(log, x) && s.now == DueTime(delay, log, x)
    ensures Onward(delay, log, s, times, s.(sent := s.sent + [x]))
  {
    assert Repeat(1, s.now) == [s.now];
  }

  lemma SentLater(delay: real, log: seq<Came>, s: State, x: Out, t: real, times: seq<real>)
    requires OnTime(delay, log, s, times) && Known(log, x) && t == DueTime(delay, log, x)
    ensures Onward(delay, log, s, times, s.(fes := Schedule(s.fes, t, x)))
  {
    ScheduledDue(delay, log, s.fes, t, x);
    assert times + Repeat(0, s.now) == times;
  }

  /** What is sent or scheduled when it is due is on time. */
  lemma PutOnTime(delay: real, log: seq<Came>, s: State, x: Out, d: real, times: seq<real>)
    requires OnTime(delay, log, s, times) && Known(log, x) && s.now + d == DueTime(delay, log, x)
    requires SendOrSchedule(s, x, d).Some?
    ensures Onward(delay, log, s, times, SendOrSchedule(s, x, d).value)
  {
    if d == 0.0 { SentNow(delay, log, s, x, times); } else { SentLater(delay, log, s, x, s.now + d, times); }
  }

  lemma CountedOnTime(delay: real, log: seq<Came>, s: State, m: Msg, times: seq<real>)
    requires OnTime(delay, log, s, times)
    ensures OnTime(delay, log + [Came(s.now, m)], Counted(s, m), times)
  {
    var log' := log + [Came(s.now, m)];
    assert log'[..|log|] == log;
    AllDueStays(delay, log, Came(s.now, m), s.fes, s.sent, times);
  }

  /** The reply to the last message. */
  lemma RespondOnTime(delay: real, log: seq<Came>, s: State, times: seq<real>)
    requires OnTime(delay, log, s, times) && log != [] && log[|log| - 1].t == s.now && log[|log| - 1].msg.Data?
    requires var m := log[|log| - 1].msg; Respond(delay, s, |log| - 1, m.conn, m.replyLength, m.replyDelay).Some?
    ensures var m := log[|log| - 1].msg;
            Onward(delay, log, s, times, Respond(delay, s, |log| - 1, m.conn, m.replyLength, m.replyDelay).value)
  {
    var m := log[|log| - 1].msg;
    if m.replyLength != 0 {
      PutOnTime(delay, log, s, Reply(m.conn, |log| - 1), delay + m.replyDelay, times);
    } else {
      Stays(delay, log, s, times);
    }
  }

  lemma CloseOnTime(delay: real, log: seq<Came>, s: State, conn: int, doClose: bool, times: seq<real>)
    requires OnTime(delay, log, s, times) && log != [] && log[|log| - 1].t == s.now
    requires CloseIf(delay, s, |log| - 1, conn, doClose).Some?
    ensures Onward(delay, log, s, times, CloseIf(delay, s, |log| - 1, conn, doClose).value)
  {
    if doClose {
      assert log[..|log|] == log;
      PutOnTime(delay, log, s, Close(conn, |log| - 1), delay + s.maxMsgDelay, times);
    } else {
      Stays(delay, log, s, times);
    }
  }

  lemma AnswerOnTime(delay: real, log: seq<Came>, s: State, times: seq<real>)
    requires OnTime(delay, log, s, times) && log != [] && log[|log| - 1].t == s.now && log[|log| - 1].msg.Data?
    requires var m := log[|log| - 1].msg;
             Answer(delay, s, |log| - 1, m.conn, m.replyLength, m.replyDelay, m.serverClose).Some?
    ensures var m := log[|log| - 1].msg;
            var s' := Answer(delay, s, |log| - 1, m.conn, m.replyLength, m.replyDelay, m.serverClose).value;
            Onward(delay, log, s, times, s')
  {
    var m := log[|log| - 1].msg;
    RespondOnTime(delay, log, s, times);
    var s1 := Respond(delay, s, |log| - 1, m.conn, m.replyLength, m.replyDelay).value;
    CloseOnTime(delay, log, s1, m.conn, m.serverClose, times + Repeat(|s1.sent| - |s.sent|, s.now));
    Twice(delay, log, s, times, s1, CloseIf(delay, s1, |log| - 1, m.conn, m.serverClose).value);
  }

  lemma MessageOnTime(delay: real, log: seq<Came>, s: State, m: Msg, times: seq<real>)
    requires OnTime(delay, log, s, times) && HandleMessage(delay, s, m).Some?
    ensures Onward(delay, log + [Came(s.now, m)], s, times, HandleMessage(delay, s, m).value)
  {
    var log', s1 := log + [Came(s.now, m)], Counted(s, m);
    CountedOnTime(delay, log, s, m, times);
    if m.Data? {
      AnswerOnTime(delay, log', s1, times);
    } else if m.PeerClosed? {
      CloseOnTime(delay, log', s1, m.conn, true, times);
    } else {
      Stays(delay, log', s1, times);
    }
  }

  lemma SendBackOnTime(delay: real, log: seq<Came>, s: State, times: seq<real>)
    requires OnTime(delay, log, s, times) && s.fes != []
    ensures OnTime(delay, log, SendBack(s), times + [s.fes[0].time])
  {
  }

  /** Main result: in every run each reply that has been sent was sent exactly its delay after
      its request came, and each close exactly the longest delay asked for until then after
      its message; and what is pending is scheduled for such times. */
  lemma {:induction false} SentWhenDue(delay: real, es: seq<Input>)
    requires Run(delay, es).Some?
    ensures OnTime(delay, Messages(es), Run(delay, es).value, SentTimes(delay, es))
  {
    if es != [] {
      var n := |es| - 1;
      SentWhenDue(delay, es[..n]);
      var s, log, times := Run(delay, es[..n]).value, Messages(es[..n]), SentTimes(delay, es[..n]);
      match es[n]
      case FromTcp(m, t) => MessageOnTime(delay, log, s.(now := t), m, times);
      case Timer =>
        SendBackOnTime(delay, log, s, times);
        assert Repeat(1, s.fes[0].time) == [s.fes[0].time];
        assert log + [] == log;
    }
  }
}
