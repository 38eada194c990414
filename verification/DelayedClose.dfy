/** TCPGenericSrvApp: replies with any delays, and a close that must come after them. */
module DelayedClose {
  import opened Options
  import opened EventList

  /** What the application sends to TCP.  Messages from TCP are numbered as they come:
      a reply carries the number of its request, a close that of the message on which
      it was decided. */
  datatype Out = Reply(conn: int, req: nat) | Close(conn: int, decided: nat)

  /** Foreign is data that is not a GenericAppMsg, which is an error. */
  datatype Msg =
    | Data(conn: int, replyLength: nat, replyDelay: real, serverClose: bool)
    | PeerClosed(conn: int)
    | Foreign
    | Other

  datatype State = State(now: real, maxMsgDelay: real, fes: seq<Event<Out>>, sent: seq<Out>, msgs: nat)

  /** sendOrSchedule; None where scheduling in the past is an error. */
  function SendOrSchedule(s: State, x: Out, delay: real): Option<State> {
    if delay == 0.0 then Some(s.(sent := s.sent + [x]))
    else if delay < 0.0 then None
    else Some(s.(fes := Schedule(s.fes, s.now + delay, x)))
  }

  function Max(a: real, b: real): real {
    if a > b then a else b
  }

  /** The reply to request n, if one was asked for. */
  function Respond(delay: real, s: State, n: nat, conn: int, length: nat, msgDelay: real): Option<State> {
    if length == 0 then Some(s) else SendOrSchedule(s, Reply(conn, n), delay + msgDelay)
  }

  /** The close decided on message n, if one was. */
  function CloseIf(delay: real, s: State, n: nat, conn: int, doClose: bool): Option<State> {
    if !doClose then Some(s) else SendOrSchedule(s, Close(conn, n), delay + s.maxMsgDelay)
  }

  /** The reply to a request, then the close it asks for. */
  function Answer(delay: real, s: State, n: nat, conn: int, length: nat, msgDelay: real, doClose: bool): Option<State> {
    var r := Respond(delay, s, n, conn, length, msgDelay);
    if r.None? then None else CloseIf(delay, r.value, n, conn, doClose)
  }

  /** A message from TCP is numbered, and its delay may be the longest so far. */
  function Counted(s: State, m: Msg): State {
    s.(msgs := s.msgs + 1, maxMsgDelay := if m.Data? then Max(m.replyDelay, s.maxMsgDelay) else s.maxMsgDelay)
  }

  /** handleMessage for a message from TCP, with the module's own reply delay. */
  function HandleMessage(delay: real, s: State, m: Msg): Option<State> {
    match m
    case PeerClosed(conn) => CloseIf(delay, Counted(s, m), s.msgs, conn, true)
    case Data(conn, length, msgDelay, doClose) => Answer(delay, Counted(s, m), s.msgs, conn, length, msgDelay, doClose)
    case Foreign => None
    case Other => Some(Counted(s, m))
  }

  /** handleMessage for a self-message, the first in the event list. */
  function SendBack(s: State): State
    requires s.fes != []
  {
    s.(now := s.fes[0].time, fes := s.fes[1..], sent := s.sent + [s.fes[0].what])
  }

  // -------------------------------------------------------------- invariant

  function Whats(fes: seq<Event<Out>>): (r: seq<Out>)
    ensures |r| == |fes|
  {
    if fes == [] then [] else [fes[0].what] + Whats(fes[1..])
  }

  /** Everything sent, then everything that will be, in order. */
  function All(s: State): seq<Out> {
    s.sent + Whats(s.fes)
  }

  /** After the close x, the reply y comes too late. */
  predicate TooLate(x: Out, y: Out) {
    x.Close? && y.Reply? && y.req <= x.decided
  }

  predicate Safe(all: seq<Out>) {
    forall i, j :: 0 <= i < j < |all| ==> !TooLate(all[i], all[j])
  }

  /** Every number given out so far is smaller. */
  predicate Below(all: seq<Out>, n: nat) {
    forall i :: 0 <= i < |all| ==> if all[i].Close? then all[i].decided < n else all[i].req < n
  }

  /** Nothing is due later than a close decided now would be. */
  predicate Horizon(fes: seq<Event<Out>>, h: real) {
    forall k :: 0 <= k < |fes| ==> fes[k].time <= h
  }

  predicate Inv(delay: real, s: State) {
    && s.maxMsgDelay >= 0.0
    && Horizon(s.fes, s.now + delay + s.maxMsgDelay)
    && (s.fes != [] ==> delay + s.maxMsgDelay > 0.0)
    && Safe(All(s)) && Below(All(s), s.msgs)
  }

  lemma InsertSafe(all: seq<Out>, k: nat, x: Out)
    requires Safe(all) && k <= |all|
    requires forall i :: 0 <= i < k ==> !TooLate(all[i], x)
    requires forall j :: k <= j < |all| ==> !TooLate(x, all[j])
    ensures Safe(all[..k] + [x] + all[k..])
  {
    var r := all[..k] + [x] + all[k..];
    forall i, j | 0 <= i < j < |r| ensures !TooLate(r[i], r[j]) {
      assert r[i] == if i < k then all[i] else if i == k then x else all[i - 1];
      assert r[j] == if j < k then all[j] else if j == k then x else all[j - 1];
    }
  }

  lemma InsertBelow(all: seq<Out>, k: nat, x: Out, n: nat)
    requires Below(all, n) && k <= |all| && (if x.Close? then x.decided < n else x.req < n)
    ensures Below(all[..k] + [x] + all[k..], n)
  {
    var r := all[..k] + [x] + all[k..];
    forall i | 0 <= i < |r| ensures if r[i].Close? then r[i].decided < n else r[i].req < n {
      assert r[i] == if i < k then all[i] else if i == k then x else all[i - 1];
    }
  }

  lemma {:induction false} WhatsInsert(fes: seq<Event<Out>>, k: nat, e: Event<Out>)
    requires k <= |fes|
    ensures Whats(fes[..k] + [e] + fes[k..]) == Whats(fes)[..k] + [e.what] + Whats(fes)[k..]
  {
    if k == 0 {
      assert fes[..0] + [e] + fes[0..] == [e] + fes;
      assert ([e] + fes)[1..] == fes;
    } else {
      WhatsInsert(fes[1..], k - 1, e);
      assert (fes[..k] + [e] + fes[k..])[1..] == fes[1..][..k - 1] + [e] + fes[1..][k - 1..];
    }
  }

  /** Sending or scheduling puts the message somewhere after what has been sent: right
      there if at once, and after everything if nothing is due later. */
  lemma SendOrSchedulePlaces(s: State, x: Out, delay: real) returns (k: nat)
    requires SendOrSchedule(s, x, delay).Some?
    ensures |s.sent| <= k <= |All(s)|
    ensures All(SendOrSchedule(s, x, delay).value) == All(s)[..k] + [x] + All(s)[k..]
    ensures Horizon(s.fes, s.now + delay) && (s.fes != [] ==> delay > 0.0) ==> k == |All(s)|
  {
    var w := Whats(s.fes);
    if delay == 0.0 {
      k := |s.sent|;
      assert All(s)[..k] == s.sent && All(s)[k..] == w;
      assert s.sent + [x] + w == (s.sent + [x]) + w;
    } else {
      var j := Rank(s.fes, s.now + delay);
      k := |s.sent| + j;
      WhatsInsert(s.fes, j, Event(s.now + delay, x));
      assert All(s)[..k] == s.sent + w[..j] && All(s)[k..] == w[j..];
      assert s.sent + (w[..j] + [x] + w[j..]) == s.sent + w[..j] + [x] + w[j..];
    }
  }

  lemma HorizonKept(s: State, x: Out, delay: real, h: real)
    requires SendOrSchedule(s, x, delay).Some? && Horizon(s.fes, h) && s.now + delay <= h
    ensures Horizon(SendOrSchedule(s, x, delay).value.fes, h)
  {
    if delay > 0.0 {
      var fes' := Schedule(s.fes, s.now + delay, x);
      forall i | 0 <= i < |fes'| ensures fes'[i].time <= h {
        ScheduledAt(s.fes, s.now + delay, x, i);
      }
    }
  }

  /** A reply has a new number, so it is too late for no close. */
  lemma RespondKeeps(delay: real, s: State, n: nat, conn: int, length: nat, msgDelay: real)
    requires Inv(delay, s) && msgDelay <= s.maxMsgDelay && Below(All(s), n) && n < s.msgs
    requires Respond(delay, s, n, conn, length, msgDelay).Some?
    ensures var s' := Respond(delay, s, n, conn, length, msgDelay).value; Inv(delay, s') && s'.msgs == s.msgs
  {
    if length != 0 {
      var x, all := Reply(conn, n), All(s);
      var k := SendOrSchedulePlaces(s, x, delay + msgDelay);
      HorizonKept(s, x, delay + msgDelay, s.now + delay + s.maxMsgDelay);
      InsertSafe(all, k, x);
      InsertBelow(all, k, x, s.msgs);
    }
  }

  /** A close goes after everything there is. */
  lemma CloseKeeps(delay: real, s: State, n: nat, conn: int, doClose: bool)
    requires Inv(delay, s) && n < s.msgs
    requires CloseIf(delay, s, n, conn, doClose).Some?
    ensures Inv(delay, CloseIf(delay, s, n, conn, doClose).value)
  {
    if doClose {
      var x, all := Close(conn, n), All(s);
      var k := SendOrSchedulePlaces(s, x, delay + s.maxMsgDelay);
      HorizonKept(s, x, delay + s.maxMsgDelay, s.now + delay + s.maxMsgDelay);
      InsertSafe(all, k, x);
      InsertBelow(all, k, x, s.msgs);
    }
  }

  lemma CountedKeeps(delay: real, s: State, m: Msg)
    requires Inv(delay, s)
    ensures Inv(delay, Counted(s, m)) && Below(All(Counted(s, m)), s.msgs)
  {
  }

  lemma AnswerKeeps(delay: real, s: State, n: nat, conn: int, length: nat, msgDelay: real, doClose: bool)
    requires Inv(delay, s) && msgDelay <= s.maxMsgDelay && Below(All(s), n) && n < s.msgs
    requires Answer(delay, s, n, conn, length, msgDelay, doClose).Some?
    ensures Inv(delay, Answer(delay, s, n, conn, length, msgDelay, doClose).value)
  {
    RespondKeeps(delay, s, n, conn, length, msgDelay);
    CloseKeeps(delay, Respond(delay, s, n, conn, length, msgDelay).value, n, conn, doClose);
  }

  lemma MessageKeeps(delay: real, s: State, m: Msg)
    requires Inv(delay, s) && HandleMessage(delay, s, m).Some?
    ensures Inv(delay, HandleMessage(delay, s, m).value)
  {
    CountedKeeps(delay, s, m);
    if m.PeerClosed? {
      CloseKeeps(delay, Counted(s, m), s.msgs, m.conn, true);
    } else if m.Data? {
      AnswerKeeps(delay, Counted(s, m), s.msgs, m.conn, m.replyLength, m.replyDelay, m.serverClose);
    }
  }

  /** Sending what is due first leaves the whole order as it was. */
  lemma SendBackKeeps(delay: real, s: State)
    requires Inv(delay, s) && s.fes != [] && s.now <= s.fes[0].time
    ensures All(SendBack(s)) == All(s) && Inv(delay, SendBack(s))
  {
    SendBackOwes(s);
  }

  /** What is an error, and only that: data of another class, and a reply or a close that
      would be due in the past. */
  lemma FailsIff(delay: real, s: State, m: Msg)
    ensures HandleMessage(delay, s, m).None? <==>
              match m
              case Foreign => true
              case Other => false
              case PeerClosed(_) => delay + s.maxMsgDelay < 0.0
              case Data(_, length, msgDelay, doClose) =>
                var longest := if msgDelay > s.maxMsgDelay then msgDelay else s.maxMsgDelay;
                (length > 0 && delay + msgDelay < 0.0) || (doClose && delay + longest < 0.0)
  {
  }

  // ------------------------------------------------------------------ runs

  datatype Input = FromTcp(msg: Msg, t: real) | Timer

  predicate Enabled(s: State, e: Input) {
    match e
    case FromTcp(_, t) => s.now <= t && (s.fes != [] ==> t <= s.fes[0].time)
    case Timer => s.fes != [] && s.now <= s.fes[0].time
  }

  function Step(delay: real, s: State, e: Input): Option<State>
    requires Enabled(s, e)
  {
    match e
    case FromTcp(m, t) => HandleMessage(delay, s.(now := t), m)
    case Timer => Some(SendBack(s))
  }

  /** The state after a run; None if an event could not happen or was an error. */
  function Run(delay: real, es: seq<Input>): Option<State> {
    if es == [] then Some(State(0.0, 0.0, [], [], 0))
    else
      var before := Run(delay, es[..|es| - 1]);
      if before.None? || !Enabled(before.value, es[|es| - 1]) then None
      else Step(delay, before.value, es[|es| - 1])
  }

  lemma {:induction false} RunKeepsInv(delay: real, es: seq<Input>)
    requires Run(delay, es).Some?
    ensures Inv(delay, Run(delay, es).value)
  {
    if es != [] {
      RunKeepsInv(delay, es[..|es| - 1]);
      var s := Run(delay, es[..|es| - 1]).value;
      match es[|es| - 1]
      case FromTcp(m, t) =>
        assert Inv(delay, s.(now := t));
        MessageKeeps(delay, s.(now := t), m);
      case Timer => SendBackKeeps(delay, s);
    }
  }

  /** Main result: whatever the delays, once a close has been sent, no reply to a request
      that came before the close was decided, or with it, is sent or still pending. */
  lemma NoReplyAfterClose(delay: real, es: seq<Input>, i: nat)
    requires Run(delay, es).Some?
    requires var s := Run(delay, es).value; i < |s.sent| && s.sent[i].Close?
    ensures var s := Run(delay, es).value;
            && (forall j :: i < j < |s.sent| && s.sent[j].Reply? ==> s.sent[j].req > s.sent[i].decided)
            && (forall k :: 0 <= k < |s.fes| && s.fes[k].what.Reply? ==> s.fes[k].what.req > s.sent[i].decided)
  {
    RunKeepsInv(delay, es);
    var s := Run(delay, es).value;
    var all := All(s);
    assert all[i] == s.sent[i];
    forall j | i < j < |s.sent| && s.sent[j].Reply? ensures s.sent[j].req > s.sent[i].decided {
      assert all[j] == s.sent[j] && !TooLate(all[i], all[j]);
    }
    forall k | 0 <= k < |s.fes| && s.fes[k].what.Reply? ensures s.fes[k].what.req > s.sent[i].decided {
      WhatsAt(s.fes, k);
      assert all[|s.sent| + k] == s.fes[k].what && !TooLate(all[i], all[|s.sent| + k]);
    }
  }

  lemma {:induction false} WhatsAt(fes: seq<Event<Out>>, k: nat)
    requires k < |fes|
    ensures Whats(fes)[k] == fes[k].what
  {
    if k > 0 { WhatsAt(fes[1..], k - 1); }
  }

  /** Every request that asks for bytes gets one reply, sent or pending. */
  lemma {:induction false} EachRequestOnce(delay: real, es: seq<Input>)
    requires Run(delay, es).Some?
    ensures multiset(All(Run(delay, es).value)) == Owed(delay, es)
  {
    if es != [] {
      EachRequestOnce(delay, es[..|es| - 1]);
      var s := Run(delay, es[..|es| - 1]).value;
      match es[|es| - 1]
      case FromTcp(m, t) => MessageOwes(delay, s.(now := t), m);
      case Timer => SendBackOwes(s);
    }
  }

  function OwedFor(n: nat, m: Msg): multiset<Out> {
    match m
    case PeerClosed(conn) => CloseOwed(n, conn, true)
    case Data(conn, length, _, doClose) =>
      ReplyOwed(n, conn, length) + CloseOwed(n, conn, doClose)
    case Foreign => multiset{}
    case Other => multiset{}
  }

  function ReplyOwed(n: nat, conn: int, length: nat): multiset<Out> {
    if length == 0 then multiset{} else multiset{Reply(conn, n)}
  }

  function CloseOwed(n: nat, conn: int, doClose: bool): multiset<Out> {
    if doClose then multiset{Close(conn, n)} else multiset{}
  }

  function Owed(delay: real, es: seq<Input>): multiset<Out>
    requires Run(delay, es).Some?
  {
    if es == [] then multiset{}
    else
      var e := es[|es| - 1];
      Owed(delay, es[..|es| - 1]) +
      if e.FromTcp? then OwedFor(Run(delay, es[..|es| - 1]).value.msgs, e.msg) else multiset{}
  }

  lemma InsertCount(all: seq<Out>, k: nat, x: Out)
    requires k <= |all|
    ensures multiset(all[..k] + [x] + all[k..]) == multiset(all) + multiset{x}
  {
    assert all == all[..k] + all[k..];
  }

  lemma SendOrScheduleOwes(s: State, x: Out, delay: real)
    requires SendOrSchedule(s, x, delay).Some?
    ensures multiset(All(SendOrSchedule(s, x, delay).value)) == multiset(All(s)) + multiset{x}
  {
    var k := SendOrSchedulePlaces(s, x, delay);
    InsertCount(All(s), k, x);
  }

  lemma RespondOwes(delay: real, s: State, n: nat, conn: int, length: nat, msgDelay: real)
    requires Respond(delay, s, n, conn, length, msgDelay).Some?
    ensures multiset(All(Respond(delay, s, n, conn, length, msgDelay).value))
         == multiset(All(s)) + ReplyOwed(n, conn, length)
  {
    if length != 0 {
      SendOrScheduleOwes(s, Reply(conn, n), delay + msgDelay);
    }
  }

  lemma CloseOwes(delay: real, s: State, n: nat, conn: int, doClose: bool)
    requires CloseIf(delay, s, n, conn, doClose).Some?
    ensures multiset(All(CloseIf(delay, s, n, conn, doClose).value))
         == multiset(All(s)) + CloseOwed(n, conn, doClose)
  {
    if doClose {
      SendOrScheduleOwes(s, Close(conn, n), delay + s.maxMsgDelay);
    }
  }

  lemma Regroup(a: multiset<Out>, b: multiset<Out>, c: multiset<Out>)
    ensures (a + b) + c == a + (b + c)
  {
  }

  lemma AnswerOwes(delay: real, s: State, n: nat, conn: int, length: nat, msgDelay: real, doClose: bool)
    requires Answer(delay, s, n, conn, length, msgDelay, doClose).Some?
    ensures multiset(All(Answer(delay, s, n, conn, length, msgDelay, doClose).value))
         == multiset(All(s)) + (ReplyOwed(n, conn, length) + CloseOwed(n, conn, doClose))
  {
    RespondOwes(delay, s, n, conn, length, msgDelay);
    CloseOwes(delay, Respond(delay, s, n, conn, length, msgDelay).value, n, conn, doClose);
    Regroup(multiset(All(s)), ReplyOwed(n, conn, length), CloseOwed(n, conn, doClose));
  }

  lemma CountedSame(s: State, m: Msg)
    ensures multiset(All(Counted(s, m))) == multiset(All(s))
  {
  }

  lemma DataOwes(delay: real, s: State, m: Msg)
    requires m.Data? && HandleMessage(delay, s, m).Some?
    ensures multiset(All(HandleMessage(delay, s, m).value)) == multiset(All(s)) + OwedFor(s.msgs, m)
  {
    CountedSame(s, m);
    AnswerOwes(delay, Counted(s, m), s.msgs, m.conn, m.replyLength, m.replyDelay, m.serverClose);
  }

  lemma MessageOwes(delay: real, s: State, m: Msg)
    requires HandleMessage(delay, s, m).Some?
    ensures multiset(All(HandleMessage(delay, s, m).value)) == multiset(All(s)) + OwedFor(s.msgs, m)
  {
    if m.Data? {
      DataOwes(delay, s, m);
    } else if m.PeerClosed? {
      CountedSame(s, m);
      CloseOwes(delay, Counted(s, m), s.msgs, m.conn, true);
    }
  }

  lemma SendBackOwes(s: State)
    requires s.fes != []
    ensures All(SendBack(s)) == All(s)
  {
    assert s.sent + ([s.fes[0].what] + Whats(s.fes[1..])) == (s.sent + [s.fes[0].what]) + Whats(s.fes[1..]);
  }

  /** Main result: each reply owed for a request that came no later than the decision to
      close has been sent before that close. */
  lemma RepliesComeFirst(delay: real, es: seq<Input>, i: nat, x: Out)
    requires Run(delay, es).Some? && x.Reply? && x in Owed(delay, es)
    requires var s := Run(delay, es).value; i < |s.sent| && s.sent[i].Close? && x.req <= s.sent[i].decided
    ensures x in Run(delay, es).value.sent[..i]
  {
    EachRequestOnce(delay, es);
    NoReplyAfterClose(delay, es, i);
    var s := Run(delay, es).value;
    var k := IndexOf(All(s), x);
    if k >= |s.sent| {
      WhatsAt(s.fes, k - |s.sent|);
      assert false;
    } else {
      assert s.sent[k] == x;
      assert k != i && k <= i;
      assert s.sent[..i][k] == x;
    }
  }

  lemma {:induction false} IndexOf(all: seq<Out>, x: Out) returns (k: nat)
    requires x in multiset(all)
    ensures k < |all| && all[k] == x
  {
    if all[0] == x {
      k := 0;
    } else {
      assert all == [all[0]] + all[1..];
      k := IndexOf(all[1..], x);
      k := k + 1;
    }
  }

  lemma MessageResult(delay: real, s: State, m: Msg)
    ensures var o := HandleMessage(delay, s, m);
            o.Some? ==> && multiset(All(o.value)) == multiset(All(s)) + OwedFor(s.msgs, m)
                        && (Inv(delay, s) ==> Inv(delay, o.value))
  {
    if HandleMessage(delay, s, m).Some? {
      MessageOwes(delay, s, m);
      if Inv(delay, s) { MessageKeeps(delay, s, m); }
    }
  }

  // ---------------------------------------------------------------- the class

  class TCPGenericSrvApp {
    const delay: real
    var now: real
    var maxMsgDelay: real
    var fes: seq<Event<Out>>
    var sent: seq<Out>
    var numbered: nat

    ghost function View(): State
      reads this
    {
      State(now, maxMsgDelay, fes, sent, numbered)
    }

    constructor (replyDelay: real)
      ensures delay == replyDelay && View() == State(0.0, 0.0, [], [], 0)
    {
      delay := replyDelay;
      now, maxMsgDelay, fes, sent, numbered := 0.0, 0.0, [], [], 0;
    }

    method SendOrScheduleOut(x: Out, d: real) returns (ok: bool)
      modifies this`fes, this`sent
      ensures ok <==> SendOrSchedule(old(View()), x, d).Some?
      ensures ok ==> Some(View()) == SendOrSchedule(old(View()), x, d)
    {
      ok := true;
      if d == 0.0 {
        sent := sent + [x];
      } else if d < 0.0 {
        ok := false;
      } else {
        fes := Schedule(fes, now + d, x);
      }
    }

    /** handleMessage for a self-message: what the event list gives first is sent, which
        leaves the order of everything sent and pending as it was. */
    method SelfMessage()
      requires fes != []
      modifies this
      ensures View() == SendBack(old(View())) && All(View()) == old(All(View()))
      ensures old(Inv(delay, View()) && now <= fes[0].time) ==> Inv(delay, View())
    {
      SendBackOwes(View());
      if Inv(delay, View()) && now <= fes[0].time { SendBackKeeps(delay, View()); }
      now, sent := fes[0].time, sent + [fes[0].what];
      fes := fes[1..];
    }

    method SendReply(n: nat, conn: int, requestedBytes: nat, msgDelay: real) returns (ok: bool)
      modifies this`fes, this`sent
      ensures ok <==> Respond(delay, old(View()), n, conn, requestedBytes, msgDelay).Some?
      ensures ok ==> Some(View()) == Respond(delay, old(View()), n, conn, requestedBytes, msgDelay)
    {
      ok := true;
      if requestedBytes != 0 { ok := SendOrScheduleOut(Reply(conn, n), delay + msgDelay); }
    }

    method SendClose(n: nat, conn: int, doClose: bool) returns (ok: bool)
      modifies this`fes, this`sent
      ensures ok <==> CloseIf(delay, old(View()), n, conn, doClose).Some?
      ensures ok ==> Some(View()) == CloseIf(delay, old(View()), n, conn, doClose)
    {
      ok := true;
      if doClose { ok := SendOrScheduleOut(Close(conn, n), delay + maxMsgDelay); }
    }

    /** handleMessage for a message from TCP: what is owed for it is sent or pending as
        well, and no close is ahead of a reply it must wait for. */
    method TcpMessage(m: Msg) returns (ok: bool)
      modifies this
      ensures ok <==> HandleMessage(delay, old(View()), m).Some?
      ensures ok ==> multiset(All(View())) == multiset(old(All(View()))) + OwedFor(old(numbered), m)
      ensures ok && old(Inv(delay, View())) ==> Inv(delay, View())
    {
      MessageResult(delay, View(), m);
      ok := MessageFromTcp(m);
    }

    /** Its branches. */
    method MessageFromTcp(m: Msg) returns (ok: bool)
      modifies this
      ensures ok <==> HandleMessage(delay, old(View()), m).Some?
      ensures ok ==> Some(View()) == HandleMessage(delay, old(View()), m)
    {
      var n := numbered;
      numbered := numbered + 1;
      match m {
        case PeerClosed(conn) =>
          ok := SendClose(n, conn, true);
        case Data(conn, requestedBytes, msgDelay, doClose) =>
          if msgDelay > maxMsgDelay { maxMsgDelay := msgDelay; }
          ok := SendReply(n, conn, requestedBytes, msgDelay);
          if ok { ok := SendClose(n, conn, doClose); }
        case Foreign =>
          ok := false;
        case Other =>
          ok := true;
      }
    }
  }
}
