/** DHCPServer and DHCPClient as objects, proved against the functions of Dhcp. */
module DhcpModules {
  import opened Options
  import opened Dhcp
  import Sets

  class DHCPServer {
    const c: ServerConfig
    var leased: Table

    constructor (config: ServerConfig)
      ensures c == config && leased == map[]
    {
      c := config;
      leased := map[];
    }

    method GetLeaseByMac(mac: MacAddress) returns (r: Option<Ip>)
      ensures r.Some? ==> r.value in leased && leased[r.value].mac == mac
      ensures r.None? ==> !HasLease(leased, mac)
    {
      var todo: set<Ip> := leased.Keys;
      while todo != {}
        invariant todo <= leased.Keys
        invariant forall ip :: ip in leased && ip !in todo ==> leased[ip].mac != mac
        decreases todo
      {
        var ip := Sets.Pick(todo);
        if leased[ip].mac == mac { return Some(ip); }
        todo := todo - {ip};
      }
      return None;
    }

    /** The first address of the range that is not leased, in range order. */
    method GetAvailableLease() returns (r: Option<Ip>)
      ensures r == Available(c, leased, 0)
    {
      var i := 0;
      while i < c.clients
        invariant 0 <= i <= c.clients && Available(c, leased, 0) == Available(c, leased, i)
      {
        var ip := c.begin + i;
        if ip in leased {
          if !leased[ip].leased { return Some(ip); }
        } else {
          return Some(ip);
        }
        i := i + 1;
      }
      return None;
    }

    /** The offer is for the client that the table records for the address. */
    method SendOffer(ip: Ip) returns (m: Msg)
      requires ip in leased
      ensures m == MakeOffer(c, ip, leased[ip])
      ensures Owns(leased, m.yiaddr, m.chaddr)
    {
      var l := leased[ip];
      m := Offer(l.xid, l.mac, ip, c.ip);
    }

    /** So is the ACK; it has T1 before T2, both within the lease. */
    method SendACK(ip: Ip) returns (m: Msg)
      requires ip in leased
      ensures m == MakeAck(c, ip, leased[ip])
      ensures Owns(leased, m.yiaddr, m.chaddr) && 0 <= m.renewal <= m.rebind <= c.leaseTime
    {
      var l := leased[ip];
      m := Ack(l.xid, l.mac, ip, c.leaseTime / 2, c.leaseTime * 7 / 8);
    }

    /** Keeps the table consistent and takes no address from anyone. */
    method ProcessPacket(m: Msg) returns (out: Option<Msg>)
      requires TableInv(leased)
      modifies this
      ensures Reply(leased, out) == Serve(c, old(leased), m)
      ensures TableInv(leased) && Grows(old(leased), leased)
      ensures out.Some? ==> Answers(c, leased, m, out.value)
    {
      ServeGood(c, leased, m);
      out := None;
      match m {
        case Discover(xid, mac) =>
          var l := GetLeaseByMac(mac);
          if l.None? {
            var free := GetAvailableLease();
            if free.Some? {
              leased := leased[free.value := Lease(mac, xid, true)];
              var offer := SendOffer(free.value);
              out := Some(offer);
            }
          } else {
            leased := leased[l.value := leased[l.value].(xid := xid)];
            var offer := SendOffer(l.value);
            out := Some(offer);
          }
        case Request(xid, mac, serverId) =>
          var l := GetLeaseByMac(mac);
          if l.Some? {
            if serverId == Some(c.ip) {
              leased := leased[l.value := leased[l.value].(xid := xid)];
            } else {
              leased := leased[l.value := leased[l.value].(xid := xid, leased := true)];
            }
            var ack := SendACK(l.value);
            out := Some(ack);
          }
        case _ =>
      }
    }
  }

  class DHCPClient {
    const mac: MacAddress
    var now: int
    var order: nat
    var clientState: State
    var xid: Xid
    var lease: Option<ClientLease>
    var retryCount: int
    var timerT1: Timer
    var timerT2: Timer
    var timerTo: Timer
    var toKind: Kind
    var iface: Option<Ip>

    ghost function View(): Client
      reads this
    {
      Client(now, order, clientState, xid, lease, retryCount, timerT1, timerT2, timerTo, toKind, iface)
    }

    /** ok is false where the source would use a lease that was never set. */
    ghost predicate Did(e: Effect, ok: bool, out: Option<Msg>)
      reads this
    {
      match e
      case Done(c, o) => ok && View() == c && out == o
      case NoLease => !ok
    }

    constructor (address: MacAddress)
      ensures mac == address && View() == NewClient()
    {
      mac := address;
      now, order := 0, 0;
      clientState, xid, lease, retryCount := Idle, 0, None, 0;
      timerT1, timerT2, timerTo, toKind := Off, Off, Off, WaitOffer;
      iface := None;
    }

    method ScheduleTimerTO(kind: Kind)
      modifies this
      ensures View() == ScheduleTo(old(View()), kind)
    {
      timerTo := Due(now + RESPONSE_TIMEOUT, order);
      toKind := kind;
      order := order + 1;
    }

    method ScheduleTimerT1(delay: int)
      modifies this
      ensures View() == old(View()).(t1 := Schedule(old(View()), delay), order := old(order) + 1)
    {
      timerT1 := Due(now + delay, order);
      order := order + 1;
    }

    method ScheduleTimerT2(delay: int)
      modifies this
      ensures View() == old(View()).(t2 := Schedule(old(View()), delay), order := old(order) + 1)
    {
      timerT2 := Due(now + delay, order);
      order := order + 1;
    }

    method SendDhcpRequest(draw: Xid) returns (ok: bool, out: Option<Msg>)
      modifies this
      ensures Did(SendRequest(old(View()), mac, draw), ok, out)
    {
      xid := draw;
      if lease.None? { return false, None; }
      ok := true;
      if clientState == Requesting {
        out := Some(Request(xid, mac, Some(lease.value.server)));
      } else {
        out := Some(Request(xid, mac, None));
      }
    }

    method BecomeBound() returns (ok: bool, out: Option<Msg>)
      modifies this
      ensures Did(Bind(old(View())), ok, out)
    {
      clientState := Bound;
      timerTo := Off;
      if lease.None? { return false, None; }
      ScheduleTimerT1(lease.value.renewal);
      ScheduleTimerT2(lease.value.rebind);
      iface := Some(lease.value.ip);
      return true, None;
    }

    method ChangeFSMState(newState: State, draw: Xid) returns (ok: bool, out: Option<Msg>)
      modifies this
      ensures Did(Change(old(View()), mac, newState, draw), ok, out)
      decreases if newState == Init then 1 else 0
    {
      ok, out := true, None;
      if newState == Bound {
        ok, out := BecomeBound();
        return;
      }
      clientState := newState;
      match newState {
        case Init =>
          timerT1, timerT2, timerTo := Off, Off, Off;
          ok, out := ChangeFSMState(Selecting, draw);
        case Selecting =>
          xid := draw;
          out := Some(Discover(draw, mac));
          ScheduleTimerTO(WaitOffer);
        case Requesting =>
          ok, out := SendDhcpRequest(draw);
          if ok { ScheduleTimerTO(WaitAck); }
        case Renewing =>
          ok, out := SendDhcpRequest(draw);
          if ok { ScheduleTimerTO(WaitAck); }
        case Rebinding =>
          timerT1, timerT2, timerTo := Off, Off, Off;
          ok, out := SendDhcpRequest(draw);
          if ok { ScheduleTimerTO(WaitAck); }
        case _ =>
      }
    }

    method HandleTimer(kind: Kind, draw: Xid) returns (ok: bool, out: Option<Msg>)
      modifies this
      ensures Did(OnTimer(old(View()), mac, kind, draw), ok, out)
    {
      ok, out := true, None;
      match kind {
        case WaitOffer =>
          if retryCount < RETRY_MAX {
            ok, out := ChangeFSMState(Selecting, draw);
            retryCount := retryCount + 1;
          } else {
            retryCount := 0;
            ok, out := ChangeFSMState(Init, draw);
          }
        case WaitAck =>
          retryCount := if retryCount < RETRY_MAX then retryCount + 1 else 0;
          if clientState == Requesting || clientState == Renewing || clientState == Rebinding {
            ok, out := ChangeFSMState(clientState, draw);
          }
        case T1 =>
          ok, out := ChangeFSMState(Renewing, draw);
        case T2 =>
          if clientState == Renewing { ok, out := ChangeFSMState(Rebinding, draw); }
      }
    }

    method HandleDHCPMessage(m: Msg, draw: Xid) returns (ok: bool, out: Option<Msg>)
      modifies this
      ensures Did(OnMessage(old(View()), mac, m, draw), ok, out)
    {
      ok, out := true, None;
      if IsRequest(m) || m.xid != xid { return; }
      match m {
        case Offer(_, _, ip, server) =>
          if clientState == Selecting && ip != UNSPECIFIED {
            lease := Some(ClientLease(ip, server, 0, 0));
            ok, out := ChangeFSMState(Requesting, draw);
          }
        case Ack(_, _, ip, renewal, rebind) =>
          if ip != UNSPECIFIED {
            if lease.None? { return false, None; }
            lease := Some(lease.value.(renewal := renewal, rebind := rebind));
            ok, out := ChangeFSMState(Bound, draw);
          }
        case _ =>
      }
    }

    /** handleMessage for a timer, at its time.  With the lease and the timers in order for
        some table of the server, they stay so, no lease is missing, and whatever is sent
        is a request with the new id. */
    method TimerMessage(kind: Kind, t: int, draw: Xid, ghost table: Table) returns (ok: bool, out: Option<Msg>)
      modifies this
      ensures Did(OnTimer(TakeOff(old(View()), kind, t), mac, kind, draw), ok, out)
      ensures old(LocalInv(table, mac, View()) && Expires(View(), kind, t) && Passes(View(), t)) ==>
                ok && GoodEffect(table, mac, old(View()), Done(View(), out), draw)
    {
      if LocalInv(table, mac, View()) && Expires(View(), kind, t) && Passes(View(), t) {
        ExpireGood(table, mac, View(), kind, t, draw);
      }
      now := t;
      match kind {
        case T1 => timerT1 := Off;
        case T2 => timerT2 := Off;
        case _ => timerTo := Off;
      }
      ok, out := HandleTimer(kind, draw);
    }

    /** handleMessage for a message from the network: the same, if an offer that is taken
        is for an address of this client and an ACK finds a lease. */
    method NetworkMessage(m: Msg, t: int, draw: Xid, ghost table: Table) returns (ok: bool, out: Option<Msg>)
      modifies this
      ensures Did(OnMessage(old(View()).(now := t), mac, m, draw), ok, out)
      ensures old(LocalInv(table, mac, View()) && Passes(View(), t) && Proper(table, mac, View(), m)) ==>
                ok && GoodEffect(table, mac, old(View()), Done(View(), out), draw)
    {
      if LocalInv(table, mac, View()) && Passes(View(), t) && Proper(table, mac, View(), m) {
        MessageGood(table, mac, View(), m, t, draw);
      }
      now := t;
      ok, out := HandleDHCPMessage(m, draw);
    }
  }
}
