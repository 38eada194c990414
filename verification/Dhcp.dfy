/** DHCP client and server as one protocol: any number of clients, one server, and a
    network that may lose, duplicate and reorder what is sent. */
module Dhcp {
  import opened Options

  type Ip = int
  type MacAddress = int
  type Xid = int

  /** The address 0.0.0.0. */
  const UNSPECIFIED: Ip := 0

  const RETRY_MAX: int := 10
  const RESPONSE_TIMEOUT: int := 1

  datatype Msg =
    // BOOTREQUEST
    | Discover(xid: Xid, chaddr: MacAddress)
    | Request(xid: Xid, chaddr: MacAddress, serverId: Option<Ip>)
    // BOOTREPLY
    | Offer(xid: Xid, chaddr: MacAddress, yiaddr: Ip, server: Ip)
    | Ack(xid: Xid, chaddr: MacAddress, yiaddr: Ip, renewal: int, rebind: int)

  predicate IsRequest(m: Msg) {
    m.Discover? || m.Request?
  }

  // ----------------------------------------------------------------- server

  datatype ServerConfig = ServerConfig(ip: Ip, begin: Ip, clients: nat, leaseTime: nat)

  datatype Lease = Lease(mac: MacAddress, xid: Xid, leased: bool)

  type Table = map<Ip, Lease>

  ghost predicate HasLease(t: Table, mac: MacAddress) {
    exists ip :: ip in t && t[ip].mac == mac
  }

  /** Some entry of that MAC: the one, in a table where MACs occur once. */
  ghost function LeaseOf(t: Table, mac: MacAddress): (ip: Ip)
    requires HasLease(t, mac)
    ensures ip in t && t[ip].mac == mac
  {
    var ip :| ip in t && t[ip].mac == mac;
    ip
  }

  /** The first address, from the i-th on, that is not leased. */
  function Available(c: ServerConfig, t: Table, i: nat): (r: Option<Ip>)
    requires i <= c.clients
    ensures r.Some? ==> c.begin + i <= r.value < c.begin + c.clients
    ensures r.Some? ==> (r.value in t ==> !t[r.value].leased)
    ensures forall ip :: c.begin + i <= ip < (if r.Some? then r.value else c.begin + c.clients) ==>
              ip in t && t[ip].leased
    decreases c.clients - i
  {
    if i == c.clients then None
    else if c.begin + i in t && t[c.begin + i].leased then Available(c, t, i + 1)
    else Some(c.begin + i)
  }

  datatype Reply = Reply(table: Table, out: Option<Msg>)

  function MakeOffer(c: ServerConfig, ip: Ip, l: Lease): Msg {
    Offer(l.xid, l.mac, ip, c.ip)
  }

  function MakeAck(c: ServerConfig, ip: Ip, l: Lease): Msg {
    Ack(l.xid, l.mac, ip, c.leaseTime / 2, c.leaseTime * 7 / 8)
  }

  /** processPacket. */
  ghost function Serve(c: ServerConfig, t: Table, m: Msg): Reply {
    match m
    case Discover(xid, mac) =>
      if HasLease(t, mac) then
        var ip := LeaseOf(t, mac);
        var l := t[ip].(xid := xid);
        Reply(t[ip := l], Some(MakeOffer(c, ip, l)))
      else if Available(c, t, 0).Some? then
        var ip := Available(c, t, 0).value;
        var l := Lease(mac, xid, true);
        Reply(t[ip := l], Some(MakeOffer(c, ip, l)))
      else Reply(t, None)
    case Request(xid, mac, serverId) =>
      if HasLease(t, mac) then
        var ip := LeaseOf(t, mac);
        var l := t[ip].(xid := xid, leased := if serverId == Some(c.ip) then t[ip].leased else true);
        Reply(t[ip := l], Some(MakeAck(c, ip, l)))
      else Reply(t, None)
    case _ => Reply(t, None)
  }

  // ----------------------------------------------------------------- client

  datatype State = Idle | Init | Selecting | Requesting | Bound | Renewing | Rebinding

  datatype Kind = WaitOffer | WaitAck | T1 | T2

  /** A scheduled self-message; `order` breaks ties between equal times. */
  datatype Timer = Off | Due(at: int, order: nat)

  datatype ClientLease = ClientLease(ip: Ip, server: Ip, renewal: int, rebind: int)

  datatype Client = Client(
    now: int, order: nat,
    state: State, xid: Xid, lease: Option<ClientLease>, retries: int,
    t1: Timer, t2: Timer, to: Timer, toKind: Kind,
    iface: Option<Ip>)

  /** What a handler does: the new client, and the message it sends if any; or the
      use of a lease that was never set. */
  datatype Effect = Done(client: Client, out: Option<Msg>) | NoLease

  function Schedule(c: Client, delay: int): Timer {
    Due(c.now + delay, c.order)
  }

  function ScheduleTo(c: Client, kind: Kind): Client {
    c.(to := Schedule(c, RESPONSE_TIMEOUT), toKind := kind, order := c.order + 1)
  }

  /** sendRequest, in a state that has a lease to ask for. */
  function SendRequest(c: Client, mac: MacAddress, draw: Xid): Effect {
    if c.lease.None? then NoLease
    else Done(c.(xid := draw),
              Some(Request(draw, mac, if c.state == Requesting then Some(c.lease.value.server) else None)))
  }

  function SendDiscover(c: Client, mac: MacAddress, draw: Xid): Effect {
    Done(c.(xid := draw), Some(Discover(draw, mac)))
  }

  function WithTimeout(e: Effect, kind: Kind): Effect {
    if e.NoLease? then e else Done(ScheduleTo(e.client, kind), e.out)
  }

  /** changeFSMState(BOUND). */
  function Bind(c: Client): Effect {
    if c.lease.None? then NoLease
    else
      var c1 := c.(state := Bound, to := Off);
      var c2 := c1.(t1 := Schedule(c1, c.lease.value.renewal), order := c1.order + 1);
      var c3 := c2.(t2 := Schedule(c2, c.lease.value.rebind), order := c2.order + 1);
      Done(c3.(iface := Some(c.lease.value.ip)), None)
  }

  /** changeFSMState. */
  function Change(c: Client, mac: MacAddress, state: State, draw: Xid): Effect {
    var c1 := c.(state := state);
    match state
    case Idle => Done(c1, None)
    case Init =>
      WithTimeout(SendDiscover(c1.(t1 := Off, t2 := Off, to := Off, state := Selecting), mac, draw), WaitOffer)
    case Selecting => WithTimeout(SendDiscover(c1, mac, draw), WaitOffer)
    case Requesting => WithTimeout(SendRequest(c1, mac, draw), WaitAck)
    case Bound => Bind(c)
    case Renewing => WithTimeout(SendRequest(c1, mac, draw), WaitAck)
    case Rebinding => WithTimeout(SendRequest(c1.(t1 := Off, t2 := Off, to := Off), mac, draw), WaitAck)
  }

  /** handleTimer. */
  function OnTimer(c: Client, mac: MacAddress, kind: Kind, draw: Xid): Effect {
    match kind
    case WaitOffer =>
      if c.retries < RETRY_MAX then
        var e := Change(c, mac, Selecting, draw);
        if e.NoLease? then e else e.(client := e.client.(retries := e.client.retries + 1))
      else Change(c.(retries := 0), mac, Init, draw)
    case WaitAck =>
      var c1 := c.(retries := if c.retries < RETRY_MAX then c.retries + 1 else 0);
      if c1.state in {Requesting, Renewing, Rebinding} then Change(c1, mac, c1.state, draw) else Done(c1, None)
    case T1 => Change(c, mac, Renewing, draw)
    case T2 => if c.state == Renewing then Change(c, mac, Rebinding, draw) else Done(c, None)
  }

  /** handleDHCPMessage. */
  function OnMessage(c: Client, mac: MacAddress, m: Msg, draw: Xid): Effect {
    if IsRequest(m) || m.xid != c.xid then Done(c, None)
    else match m
      case Offer(_, _, ip, server) =>
        if c.state == Selecting && ip != UNSPECIFIED then
          Change(c.(lease := Some(ClientLease(ip, server, 0, 0))), mac, Requesting, draw)
        else Done(c, None)
      case Ack(_, _, ip, renewal, rebind) =>
        if ip == UNSPECIFIED then Done(c, None)
        else if c.lease.None? then NoLease
        else Change(c.(lease := Some(c.lease.value.(renewal := renewal, rebind := rebind))), mac, Bound, draw)
  }

  function NewClient(): Client {
    Client(0, 0, Idle, 0, None, 0, Off, Off, Off, WaitOffer, None)
  }

  // --------------------------------------------------------- client timers

  predicate Before(a: Timer, b: Timer) {
    a.Due? && b.Due? ==> a.at < b.at || (a.at == b.at && a.order < b.order)
  }

  predicate Bounded(t: Timer, c: Client) {
    t.Due? ==> t.at >= c.now && t.order < c.order
  }

  predicate TimersInv(c: Client) {
    && (c.state != Init)
    && (c.state == Idle ==> c.to == Off && c.t1 == Off && c.t2 == Off)
    && (c.state == Selecting ==> c.to.Due? && c.toKind == WaitOffer)
    && (c.state in {Requesting, Renewing, Rebinding} ==> c.to.Due? && c.toKind == WaitAck)
    && (c.state == Bound ==> c.to == Off && c.t1.Due? && c.t2.Due? && Before(c.t1, c.t2))
    && (c.t1.Due? ==> c.state == Bound)
    && (c.t2.Due? ==> c.state == Bound || c.state == Renewing)
    && Bounded(c.t1, c) && Bounded(c.t2, c) && Bounded(c.to, c)
  }

  /** The timer can be the next event, at time t: it is first in time, then in order. */
  predicate Expires(c: Client, kind: Kind, t: int) {
    match kind
    case T1 => c.t1.Due? && c.t1.at == t && Before(c.t1, c.t2) && Before(c.t1, c.to)
    case T2 => c.t2.Due? && c.t2.at == t && Before(c.t2, c.t1) && Before(c.t2, c.to)
    case _ => c.to.Due? && c.toKind == kind && c.to.at == t && Before(c.to, c.t1) && Before(c.to, c.t2)
  }

  function TakeOff(c: Client, kind: Kind, t: int): Client {
    var c1 := c.(now := t);
    match kind
    case T1 => c1.(t1 := Off)
    case T2 => c1.(t2 := Off)
    case _ => c1.(to := Off)
  }

  /** No timer of the client is passed over. */
  predicate Passes(c: Client, t: int) {
    && t >= c.now
    && (c.t1.Due? ==> t <= c.t1.at) && (c.t2.Due? ==> t <= c.t2.at) && (c.to.Due? ==> t <= c.to.at)
  }

  /** T2 can only expire while renewing. */
  lemma T2OnlyWhileRenewing(c: Client, t: int)
    requires TimersInv(c) && Expires(c, T2, t)
    ensures c.state == Renewing
  {
  }

  predicate Sane(l: Option<ClientLease>) {
    l.Some? ==> 0 <= l.value.renewal <= l.value.rebind
  }

  lemma TimerKeepsTimers(c: Client, mac: MacAddress, kind: Kind, t: int, draw: Xid)
    requires TimersInv(c) && Expires(c, kind, t) && Passes(c, t)
    ensures var e := OnTimer(TakeOff(c, kind, t), mac, kind, draw); e.Done? ==> TimersInv(e.client)
  {
  }

  lemma MessageKeepsTimers(c: Client, mac: MacAddress, m: Msg, t: int, draw: Xid)
    requires TimersInv(c) && Passes(c, t) && (m.Ack? ==> 0 <= m.renewal <= m.rebind)
    ensures var e := OnMessage(c.(now := t), mac, m, draw); e.Done? ==> TimersInv(e.client)
  {
  }

  // --------------------------------------------------------------- the world

  /** `drawn` says which client drew a transaction id last. */
  datatype World = World(table: Table, clients: map<MacAddress, Client>, sent: set<Msg>, drawn: map<Xid, MacAddress>)

  datatype Event =
    | Associate(mac: MacAddress, t: int, draw: Xid)
    | Expire(mac: MacAddress, kind: Kind, t: int, draw: Xid)
    | ToClient(mac: MacAddress, msg: Msg, t: int, draw: Xid)
    | ToServer(msg: Msg)

  /** Anything ever sent may be delivered, to anyone, at any time and any number of
      times; or never. */
  predicate Enabled(w: World, e: Event) {
    match e
    case Associate(mac, t, _) => mac in w.clients && Passes(w.clients[mac], t)
    case Expire(mac, kind, t, _) => mac in w.clients && Expires(w.clients[mac], kind, t) && Passes(w.clients[mac], t)
    case ToClient(mac, m, t, _) => mac in w.clients && m in w.sent && Passes(w.clients[mac], t)
    case ToServer(m) => m in w.sent
  }

  /** The transaction id drawn now is not the initial 0, and no other client has drawn it;
      the same client may have. */
  predicate Fresh(w: World, e: Event) {
    !e.ToServer? ==> e.draw != 0 && (e.draw in w.drawn ==> w.drawn[e.draw] == e.mac)
  }

  function React(w: World, e: Event): Effect
    requires Enabled(w, e) && !e.ToServer?
  {
    match e
    case Associate(mac, t, draw) => Change(w.clients[mac].(now := t), mac, Init, draw)
    case Expire(mac, kind, t, draw) => OnTimer(TakeOff(w.clients[mac], kind, t), mac, kind, draw)
    case ToClient(mac, m, t, draw) => OnMessage(w.clients[mac].(now := t), mac, m, draw)
  }

  function Send(sent: set<Msg>, out: Option<Msg>): set<Msg> {
    if out.Some? then sent + {out.value} else sent
  }

  datatype Outcome = Next(world: World) | Crash

  ghost function Step(c: ServerConfig, w: World, e: Event): Outcome
    requires Enabled(w, e)
  {
    if e.ToServer? then
      var r := Serve(c, w.table, e.msg);
      Next(w.(table := r.table, sent := Send(w.sent, r.out)))
    else
      match React(w, e)
      case NoLease => Crash
      case Done(client, out) =>
        Next(w.(clients := w.clients[e.mac := client], sent := Send(w.sent, out), drawn := w.drawn[e.draw := e.mac]))
  }

  function Initial(macs: set<MacAddress>): World {
    World(map[], map mac | mac in macs :: NewClient(), {}, map[])
  }

  // -------------------------------------------------------------- invariant

  predicate Owns(t: Table, ip: Ip, mac: MacAddress) {
    ip in t && t[ip].mac == mac
  }

  ghost predicate TableInv(t: Table) {
    && (forall a, b :: a in t && b in t && t[a].mac == t[b].mac ==> a == b)
    && (forall a :: a in t ==> t[a].leased)
  }

  /** That client has asked for a lease by then. */
  ghost predicate AskedLease(sent: set<Msg>, mac: MacAddress) {
    exists m :: m in sent && m.Request? && m.chaddr == mac
  }

  /** A message in the network is backed by the table and, if an ACK, by a request. */
  ghost predicate Backed(c: ServerConfig, t: Table, sent: set<Msg>, m: Msg) {
    && (m.Offer? ==> Owns(t, m.yiaddr, m.chaddr))
    && (m.Ack? ==> Owns(t, m.yiaddr, m.chaddr) && AskedLease(sent, m.chaddr)
                   && m.renewal == c.leaseTime / 2 && m.rebind == c.leaseTime * 7 / 8)
  }

  ghost predicate SentInv(c: ServerConfig, t: Table, sent: set<Msg>) {
    forall m :: m in sent ==> Backed(c, t, sent, m)
  }

  /** The part of a client's invariant that its own handlers rely on. */
  ghost predicate LocalInv(t: Table, mac: MacAddress, c: Client) {
    && TimersInv(c) && Sane(c.lease)
    && (c.state in {Requesting, Bound, Renewing, Rebinding} ==> c.lease.Some?)
    && (c.lease.Some? ==> Owns(t, c.lease.value.ip, mac) && c.lease.value.ip != UNSPECIFIED)
    && (c.state in {Bound, Renewing, Rebinding} ==> c.iface == Some(c.lease.value.ip))
    && (c.iface.Some? ==> Owns(t, c.iface.value, mac))
  }

  ghost predicate ClientInv(t: Table, sent: set<Msg>, mac: MacAddress, c: Client) {
    LocalInv(t, mac, c) && (AskedLease(sent, mac) ==> c.lease.Some?)
  }

  ghost predicate WorldInv(c: ServerConfig, w: World) {
    && TableInv(w.table) && SentInv(c, w.table, w.sent)
    && (forall mac :: mac in w.clients ==> ClientInv(w.table, w.sent, mac, w.clients[mac]))
  }

  /** The reply passes the client's test, which compares the transaction id only. */
  predicate Accepts(k: Client, m: Msg) {
    !IsRequest(m) && m.xid == k.xid && m.yiaddr != UNSPECIFIED
  }

  /** The client takes an offer made to another, or an ACK to another before it has a lease. */
  predicate Steals(w: World, e: Event) {
    && e.ToClient? && e.mac in w.clients && Accepts(w.clients[e.mac], e.msg) && e.msg.chaddr != e.mac
    && (if e.msg.Offer? then w.clients[e.mac].state == Selecting else w.clients[e.mac].lease.None?)
  }

  // ----------------------------------------------------------- preservation

  /** No address changes hands. */
  ghost predicate Grows(t: Table, t': Table) {
    forall ip :: ip in t ==> ip in t' && t'[ip].mac == t[ip].mac
  }

  /** The server answers the sender, with an address that is the sender's. */
  ghost predicate Answers(c: ServerConfig, t': Table, m: Msg, r: Msg) {
    && r.xid == m.xid && r.chaddr == m.chaddr && !IsRequest(r)
    && (r.Offer? <==> m.Discover?) && (r.Ack? <==> m.Request?) && Owns(t', r.yiaddr, r.chaddr)
    && (r.Ack? ==> r.renewal == c.leaseTime / 2 && r.rebind == c.leaseTime * 7 / 8)
  }

  lemma ServeGood(c: ServerConfig, t: Table, m: Msg)
    requires TableInv(t)
    ensures var r := Serve(c, t, m);
            && TableInv(r.table) && Grows(t, r.table)
            && (r.out.Some? ==> Answers(c, r.table, m, r.out.value))
  {
  }

  lemma BackedStays(c: ServerConfig, t: Table, t': Table, sent: set<Msg>, sent': set<Msg>, m: Msg)
    requires Backed(c, t, sent, m) && Grows(t, t') && sent <= sent'
    ensures Backed(c, t', sent', m)
  {
    if m.Ack? {
      var q :| q in sent && q.Request? && q.chaddr == m.chaddr;
      assert q in sent' && q.Request? && q.chaddr == m.chaddr;
    }
  }

  lemma SentInvStays(c: ServerConfig, t: Table, t': Table, sent: set<Msg>, r: Msg)
    requires SentInv(c, t, sent) && Grows(t, t') && Backed(c, t', sent + {r}, r)
    ensures SentInv(c, t', sent + {r})
  {
    forall m | m in sent + {r} ensures Backed(c, t', sent + {r}, m) {
      if m != r { BackedStays(c, t, t', sent, sent + {r}, m); }
    }
  }

  /** Nobody else's request makes a difference to a client. */
  lemma ClientInvStays(t: Table, t': Table, sent: set<Msg>, sent': set<Msg>, mac: MacAddress, k: Client)
    requires ClientInv(t, sent, mac, k) && Grows(t, t')
    requires forall m :: m in sent' && m.Request? && m.chaddr == mac ==> m in sent
    ensures ClientInv(t', sent', mac, k)
  {
    if AskedLease(sent', mac) {
      var m :| m in sent' && m.Request? && m.chaddr == mac;
      assert m in sent && m.Request? && m.chaddr == mac;
    }
  }

  lemma ServerStepKeeps(c: ServerConfig, w: World, m: Msg)
    requires WorldInv(c, w) && m in w.sent
    ensures WorldInv(c, Step(c, w, ToServer(m)).world)
  {
    ServeGood(c, w.table, m);
    var r := Serve(c, w.table, m);
    var w' := Step(c, w, ToServer(m)).world;
    if r.out.Some? {
      assert r.out.value.Ack? ==> m in w'.sent && m.Request? && m.chaddr == r.out.value.chaddr;
      SentInvStays(c, w.table, r.table, w.sent, r.out.value);
    }
    forall mac | mac in w'.clients ensures ClientInv(w'.table, w'.sent, mac, w'.clients[mac]) {
      ClientInvStays(w.table, w'.table, w.sent, w'.sent, mac, w.clients[mac]);
    }
  }

  /** What a client's handler may do to the client. */
  ghost predicate GoodEffect(t: Table, mac: MacAddress, c: Client, e: Effect, draw: Xid) {
    && e.Done? && LocalInv(t, mac, e.client) && (c.lease.Some? ==> e.client.lease.Some?)
    && (match e.out
        case None => e.client.xid == c.xid
        case Some(r) =>
          IsRequest(r) && r.xid == draw == e.client.xid && r.chaddr == mac && (r.Request? ==> e.client.lease.Some?))
  }

  lemma AssociateGood(t: Table, mac: MacAddress, c: Client, at: int, draw: Xid)
    requires LocalInv(t, mac, c) && Passes(c, at)
    ensures GoodEffect(t, mac, c, Change(c.(now := at), mac, Init, draw), draw)
  {
  }

  lemma ExpireGood(t: Table, mac: MacAddress, c: Client, kind: Kind, at: int, draw: Xid)
    requires LocalInv(t, mac, c) && Expires(c, kind, at) && Passes(c, at)
    ensures GoodEffect(t, mac, c, OnTimer(TakeOff(c, kind, at), mac, kind, draw), draw)
  {
    TimerKeepsTimers(c, mac, kind, at, draw);
  }

  /** What a message must bring for the client to stay in order. */
  predicate Proper(t: Table, mac: MacAddress, k: Client, m: Msg) {
    Accepts(k, m) ==>
      && (m.Offer? && k.state == Selecting ==> Owns(t, m.yiaddr, mac))
      && (m.Ack? ==> k.lease.Some? && 0 <= m.renewal <= m.rebind)
  }

  lemma MessageGood(t: Table, mac: MacAddress, c: Client, m: Msg, at: int, draw: Xid)
    requires LocalInv(t, mac, c) && Passes(c, at) && Proper(t, mac, c, m)
    ensures GoodEffect(t, mac, c, OnMessage(c.(now := at), mac, m, draw), draw)
  {
    if Accepts(c, m) { MessageKeepsTimers(c, mac, m, at, draw); }
  }

  /** A reply that is taken brings what it must, unless it is stolen. */
  lemma ReplyIsProper(c: ServerConfig, w: World, mac: MacAddress, m: Msg, t: int, draw: Xid)
    requires WorldInv(c, w) && mac in w.clients && m in w.sent && !Steals(w, ToClient(mac, m, t, draw))
    ensures Proper(w.table, mac, w.clients[mac], m)
  {
    assert Backed(c, w.table, w.sent, m);
    assert ClientInv(w.table, w.sent, mac, w.clients[mac]);
  }

  lemma ReactGood(c: ServerConfig, w: World, e: Event)
    requires WorldInv(c, w) && Enabled(w, e) && !e.ToServer? && !Steals(w, e)
    ensures GoodEffect(w.table, e.mac, w.clients[e.mac], React(w, e), e.draw)
  {
    var client := w.clients[e.mac];
    assert ClientInv(w.table, w.sent, e.mac, client);
    match e
    case Associate(mac, t, draw) => AssociateGood(w.table, mac, client, t, draw);
    case Expire(mac, kind, t, draw) => ExpireGood(w.table, mac, client, kind, t, draw);
    case ToClient(mac, m, t, draw) =>
      ReplyIsProper(c, w, mac, m, t, draw);
      MessageGood(w.table, mac, client, m, t, draw);
  }

  lemma ClientStepKeeps(c: ServerConfig, w: World, e: Event)
    requires WorldInv(c, w) && Enabled(w, e) && !e.ToServer? && !Steals(w, e)
    ensures Step(c, w, e).Next? && WorldInv(c, Step(c, w, e).world)
  {
    ReactGood(c, w, e);
    var d := React(w, e);
    var w' := Step(c, w, e).world;
    if d.out.Some? {
      SentInvStays(c, w.table, w.table, w.sent, d.out.value);
    }
    assert ClientInv(w.table, w'.sent, e.mac, d.client);
    forall mac | mac in w'.clients ensures ClientInv(w'.table, w'.sent, mac, w'.clients[mac]) {
      if mac != e.mac { ClientInvStays(w.table, w'.table, w.sent, w'.sent, mac, w.clients[mac]); }
    }
  }

  /** From a consistent world, one event leads to a crash or to an inconsistent world
      exactly if it is a theft. */
  lemma BrokenIffStolen(c: ServerConfig, w: World, e: Event)
    requires WorldInv(c, w) && Enabled(w, e)
    ensures Step(c, w, e).Next? && WorldInv(c, Step(c, w, e).world) <==> !Steals(w, e)
  {
    if Steals(w, e) {
      assert Backed(c, w.table, w.sent, e.msg);
      if e.msg.Offer? {
        var w' := Step(c, w, e).world;
        assert !Owns(w'.table, e.msg.yiaddr, e.mac);
        assert w'.clients[e.mac].lease.value.ip == e.msg.yiaddr;
        assert !ClientInv(w'.table, w'.sent, e.mac, w'.clients[e.mac]);
      }
    } else {
      match e
      case ToServer(m) => ServerStepKeeps(c, w, m);
      case _ => ClientStepKeeps(c, w, e);
    }
  }

  // -------------------------------------------------------- transaction ids

  /** Ids belong to the clients that drew them, in messages and at the clients. */
  ghost predicate IdInv(w: World) {
    && (forall m :: m in w.sent ==> m.xid != 0 && m.xid in w.drawn && w.drawn[m.xid] == m.chaddr)
    && (forall mac :: mac in w.clients ==>
          var xid := w.clients[mac].xid; xid == 0 || (xid in w.drawn && w.drawn[xid] == mac))
  }

  lemma FreshNeverSteals(w: World, e: Event)
    requires IdInv(w) && Enabled(w, e)
    ensures !Steals(w, e)
  {
  }

  lemma ServerKeepsIds(c: ServerConfig, w: World, m: Msg)
    requires TableInv(w.table) && IdInv(w) && m in w.sent
    ensures IdInv(Step(c, w, ToServer(m)).world)
  {
    ServeGood(c, w.table, m);
  }

  lemma ClientKeepsIds(c: ServerConfig, w: World, e: Event)
    requires WorldInv(c, w) && IdInv(w) && Enabled(w, e) && !e.ToServer? && Fresh(w, e)
    ensures Step(c, w, e).Next? && IdInv(Step(c, w, e).world)
  {
    FreshNeverSteals(w, e);
    ReactGood(c, w, e);
  }

  // ------------------------------------------------------------ whole runs

  /** The world after a run, if every event could happen; None after a crash. */
  ghost function Run(c: ServerConfig, macs: set<MacAddress>, evs: seq<Event>): Option<World> {
    if evs == [] then Some(Initial(macs))
    else
      var before := Run(c, macs, evs[..|evs| - 1]);
      var e := evs[|evs| - 1];
      if before.None? || !Enabled(before.value, e) then None
      else match Step(c, before.value, e)
        case Crash => None
        case Next(w) => Some(w)
  }

  /** Every event of the run can happen, and none is a theft. */
  ghost predicate HonestRun(c: ServerConfig, macs: set<MacAddress>, evs: seq<Event>) {
    evs == [] ||
    (&& HonestRun(c, macs, evs[..|evs| - 1])
     && var before := Run(c, macs, evs[..|evs| - 1]);
        before.Some? && Enabled(before.value, evs[|evs| - 1]) && !Steals(before.value, evs[|evs| - 1]))
  }

  /** Every event of the run can happen, and no two clients draw the same id. */
  ghost predicate FreshRun(c: ServerConfig, macs: set<MacAddress>, evs: seq<Event>) {
    evs == [] ||
    (&& FreshRun(c, macs, evs[..|evs| - 1])
     && var before := Run(c, macs, evs[..|evs| - 1]);
        before.Some? && Enabled(before.value, evs[|evs| - 1]) && Fresh(before.value, evs[|evs| - 1]))
  }

  lemma {:induction false} RunKeepsInv(c: ServerConfig, macs: set<MacAddress>, evs: seq<Event>)
    requires HonestRun(c, macs, evs)
    ensures Run(c, macs, evs).Some? && WorldInv(c, Run(c, macs, evs).value)
  {
    if evs != [] {
      RunKeepsInv(c, macs, evs[..|evs| - 1]);
      BrokenIffStolen(c, Run(c, macs, evs[..|evs| - 1]).value, evs[|evs| - 1]);
    }
  }

  lemma {:induction false} FreshIsHonest(c: ServerConfig, macs: set<MacAddress>, evs: seq<Event>)
    requires FreshRun(c, macs, evs)
    ensures HonestRun(c, macs, evs) && Run(c, macs, evs).Some? && IdInv(Run(c, macs, evs).value)
  {
    if evs != [] {
      FreshIsHonest(c, macs, evs[..|evs| - 1]);
      RunKeepsInv(c, macs, evs[..|evs| - 1]);
      var w := Run(c, macs, evs[..|evs| - 1]).value;
      var e := evs[|evs| - 1];
      FreshNeverSteals(w, e);
      match e
      case ToServer(m) => ServerKeepsIds(c, w, m);
      case _ => ClientKeepsIds(c, w, e);
    }
  }

  /** No client uses a lease it has not got, every configured address is the one the
      server's table records for that client, and no two clients hold the same address. */
  ghost predicate Safe(w: World) {
    && (forall mac :: mac in w.clients ==>
          var k := w.clients[mac];
          && TimersInv(k) && (forall t :: Expires(k, T2, t) ==> k.state == Renewing)
          && (k.iface.Some? ==> Owns(w.table, k.iface.value, mac))
          && (k.state in {Bound, Renewing, Rebinding} ==> k.lease.Some? && k.iface == Some(k.lease.value.ip)))
    && (forall m, n :: m in w.clients && n in w.clients && m != n && w.clients[m].iface.Some? ==>
          w.clients[m].iface != w.clients[n].iface)
  }

  lemma InvIsSafe(c: ServerConfig, w: World)
    requires WorldInv(c, w)
    ensures Safe(w)
  {
    forall mac | mac in w.clients
      ensures LocalInv(w.table, mac, w.clients[mac])
      ensures forall t :: Expires(w.clients[mac], T2, t) ==> w.clients[mac].state == Renewing
    {
      assert ClientInv(w.table, w.sent, mac, w.clients[mac]);
      forall t | Expires(w.clients[mac], T2, t) ensures w.clients[mac].state == Renewing {
        T2OnlyWhileRenewing(w.clients[mac], t);
      }
    }
  }

  /** Main safety result: every run in which no client takes another's reply is safe. */
  lemma HonestSafety(c: ServerConfig, macs: set<MacAddress>, evs: seq<Event>)
    requires HonestRun(c, macs, evs)
    ensures Run(c, macs, evs).Some? && Safe(Run(c, macs, evs).value)
  {
    RunKeepsInv(c, macs, evs);
    InvIsSafe(c, Run(c, macs, evs).value);
  }

  /** So is every run in which no two clients draw the same id, and none draws 0. */
  lemma Safety(c: ServerConfig, macs: set<MacAddress>, evs: seq<Event>)
    requires FreshRun(c, macs, evs)
    ensures Run(c, macs, evs).Some? && Safe(Run(c, macs, evs).value)
  {
    FreshIsHonest(c, macs, evs);
    HonestSafety(c, macs, evs);
  }

  // ------------------------------------------------- why ids must be fresh

  ghost predicate Reaches(c: ServerConfig, macs: set<MacAddress>, w: World) {
    exists evs :: Run(c, macs, evs) == Some(w)
  }

  lemma ReachHop(c: ServerConfig, macs: set<MacAddress>, w: World, e: Event, w': World)
    requires Reaches(c, macs, w) && Enabled(w, e) && Step(c, w, e) == Next(w')
    ensures Reaches(c, macs, w')
  {
    var evs :| Run(c, macs, evs) == Some(w);
    assert (evs + [e])[..|evs|] == evs;
    assert Run(c, macs, evs + [e]) == Some(w');
  }

  const SERVER: ServerConfig := ServerConfig(99, 10, 2, 100)

  function Two(t: Table, k1: Client, k2: Client, sent: set<Msg>, drawn: map<Xid, MacAddress>): World {
    World(t, map[1 := k1, 2 := k2], sent, drawn)
  }

  function Discovering(): Client {
    NewClient().(state := Selecting, xid := 7, to := Due(1, 0), order := 1)
  }

  function Asking(): Client {
    Discovering().(state := Requesting, xid := 8, lease := Some(ClientLease(10, 99, 0, 0)),
                   to := Due(1, 1), toKind := WaitAck, order := 2)
  }

  function Configured(): Client {
    Asking().(state := Bound, lease := Some(ClientLease(10, 99, 50, 87)), to := Off,
              t1 := Due(50, 2), t2 := Due(87, 3), order := 4, iface := Some(10))
  }

  const OFFER: Msg := Offer(7, 1, 10, 99)
  const ACK: Msg := Ack(8, 1, 10, 50, 87)

  /** w' is the next world, by e. */
  ghost predicate Hop(w: World, e: Event, w': World) {
    Enabled(w, e) && Step(SERVER, w, e) == Next(w')
  }

  lemma HopFirstDiscovers()
    ensures Hop(Two(map[], NewClient(), NewClient(), {}, map[]), Associate(1, 0, 7),
                Two(map[], Discovering(), NewClient(), {Discover(7, 1)}, map[7 := 1]))
  {
    assert {} + {Discover(7, 1)} == {Discover(7, 1)};
    assert map[1 := NewClient(), 2 := NewClient()][1 := Discovering()] == map[1 := Discovering(), 2 := NewClient()];
  }

  lemma HopSecondDiscovers()
    ensures Hop(Two(map[], Discovering(), NewClient(), {Discover(7, 1)}, map[7 := 1]), Associate(2, 0, 7),
                Two(map[], Discovering(), Discovering(), {Discover(7, 1), Discover(7, 2)}, map[7 := 2]))
  {
    assert {Discover(7, 1)} + {Discover(7, 2)} == {Discover(7, 1), Discover(7, 2)};
    assert map[1 := Discovering(), 2 := NewClient()][2 := Discovering()] == map[1 := Discovering(), 2 := Discovering()];
    assert map[7 := 1][7 := 2] == map[7 := 2];
  }

  /** The server leases address 10 to client 1. */
  lemma HopOffered(sent: set<Msg>, drawn: map<Xid, MacAddress>)
    requires Discover(7, 1) in sent
    ensures Hop(Two(map[], Discovering(), Discovering(), sent, drawn), ToServer(Discover(7, 1)),
                Two(map[10 := Lease(1, 7, true)], Discovering(), Discovering(), sent + {OFFER}, drawn))
  {
    assert Available(SERVER, map[], 0) == Some(10);
    assert map[][10 := Lease(1, 7, true)] == map[10 := Lease(1, 7, true)];
  }

  lemma HopFirstAsks(t: Table, sent: set<Msg>, drawn: map<Xid, MacAddress>)
    requires OFFER in sent
    ensures Hop(Two(t, Discovering(), Discovering(), sent, drawn), ToClient(1, OFFER, 0, 8),
                Two(t, Asking(), Discovering(), sent + {Request(8, 1, Some(99))}, drawn[8 := 1]))
  {
    assert map[1 := Discovering(), 2 := Discovering()][1 := Asking()] == map[1 := Asking(), 2 := Discovering()];
  }

  /** The theft: client 2 takes the offer made to client 1. */
  lemma HopSecondAsks(t: Table, sent: set<Msg>, drawn: map<Xid, MacAddress>)
    requires OFFER in sent
    ensures Hop(Two(t, Asking(), Discovering(), sent, drawn), ToClient(2, OFFER, 0, 8),
                Two(t, Asking(), Asking(), sent + {Request(8, 2, Some(99))}, drawn[8 := 2]))
  {
    assert map[1 := Asking(), 2 := Discovering()][2 := Asking()] == map[1 := Asking(), 2 := Asking()];
  }

  lemma HopAcked(sent: set<Msg>, drawn: map<Xid, MacAddress>)
    requires Request(8, 1, Some(99)) in sent
    ensures Hop(Two(map[10 := Lease(1, 7, true)], Asking(), Asking(), sent, drawn), ToServer(Request(8, 1, Some(99))),
                Two(map[10 := Lease(1, 8, true)], Asking(), Asking(), sent + {ACK}, drawn))
  {
    var t: Table := map[10 := Lease(1, 7, true)];
    assert 10 in t && t[10].mac == 1;
    assert LeaseOf(t, 1) == 10;
    assert t[10 := Lease(1, 8, true)] == map[10 := Lease(1, 8, true)];
  }

  lemma HopFirstBinds(t: Table, sent: set<Msg>, drawn: map<Xid, MacAddress>)
    requires ACK in sent
    ensures Hop(Two(t, Asking(), Asking(), sent, drawn), ToClient(1, ACK, 0, 9),
                Two(t, Configured(), Asking(), sent, drawn[9 := 1]))
  {
    assert map[1 := Asking(), 2 := Asking()][1 := Configured()] == map[1 := Configured(), 2 := Asking()];
  }

  lemma HopSecondBinds(t: Table, sent: set<Msg>, drawn: map<Xid, MacAddress>)
    requires ACK in sent
    ensures Hop(Two(t, Configured(), Asking(), sent, drawn), ToClient(2, ACK, 0, 9),
                Two(t, Configured(), Configured(), sent, drawn[9 := 2]))
  {
    assert map[1 := Configured(), 2 := Asking()][2 := Configured()] == map[1 := Configured(), 2 := Configured()];
  }

  lemma ReachNext(w: World, e: Event, w': World)
    requires Reaches(SERVER, {1, 2}, w) && Hop(w, e, w')
    ensures Reaches(SERVER, {1, 2}, w')
  {
    ReachHop(SERVER, {1, 2}, w, e, w');
  }

  lemma BothDiscover() returns (w: World)
    ensures Reaches(SERVER, {1, 2}, w)
    ensures w == Two(map[], Discovering(), Discovering(), {Discover(7, 1), Discover(7, 2)}, map[7 := 2])
  {
    var w0 := Two(map[], NewClient(), NewClient(), {}, map[]);
    assert Run(SERVER, {1, 2}, []) == Some(Initial({1, 2}));
    assert Initial({1, 2}) == w0;
    var w1 := Two(map[], Discovering(), NewClient(), {Discover(7, 1)}, map[7 := 1]);
    HopFirstDiscovers();
    ReachNext(w0, Associate(1, 0, 7), w1);
    w := Two(map[], Discovering(), Discovering(), {Discover(7, 1), Discover(7, 2)}, map[7 := 2]);
    HopSecondDiscovers();
    ReachNext(w1, Associate(2, 0, 7), w);
  }

  lemma BothAsk() returns (sent: set<Msg>, drawn: map<Xid, MacAddress>)
    ensures Request(8, 1, Some(99)) in sent
    ensures Reaches(SERVER, {1, 2}, Two(map[10 := Lease(1, 7, true)], Asking(), Asking(), sent, drawn))
  {
    var w := BothDiscover();
    var t: Table := map[10 := Lease(1, 7, true)];
    sent, drawn := w.sent, w.drawn;
    HopOffered(sent, drawn);
    ReachNext(w, ToServer(Discover(7, 1)), Two(t, Discovering(), Discovering(), sent + {OFFER}, drawn));
    w, sent := Two(t, Discovering(), Discovering(), sent + {OFFER}, drawn), sent + {OFFER};
    HopFirstAsks(t, sent, drawn);
    var w1 := Two(t, Asking(), Discovering(), sent + {Request(8, 1, Some(99))}, drawn[8 := 1]);
    ReachNext(w, ToClient(1, OFFER, 0, 8), w1);
    sent, drawn := w1.sent, w1.drawn;
    HopSecondAsks(t, sent, drawn);
    var w2 := Two(t, Asking(), Asking(), sent + {Request(8, 2, Some(99))}, drawn[8 := 2]);
    ReachNext(w1, ToClient(2, OFFER, 0, 8), w2);
    sent, drawn := w2.sent, w2.drawn;
  }

  lemma BothBind() returns (w: World)
    ensures Reaches(SERVER, {1, 2}, w) && w == Two(w.table, Configured(), Configured(), w.sent, w.drawn)
  {
    var sent, drawn := BothAsk();
    var w0 := Two(map[10 := Lease(1, 7, true)], Asking(), Asking(), sent, drawn);
    var t: Table := map[10 := Lease(1, 8, true)];
    HopAcked(sent, drawn);
    var w1 := Two(t, Asking(), Asking(), sent + {ACK}, drawn);
    ReachNext(w0, ToServer(Request(8, 1, Some(99))), w1);
    HopFirstBinds(t, w1.sent, drawn);
    var w2 := Two(t, Configured(), Asking(), w1.sent, drawn[9 := 1]);
    ReachNext(w1, ToClient(1, ACK, 0, 9), w2);
    HopSecondBinds(t, w1.sent, w2.drawn);
    w := Two(t, Configured(), Configured(), w1.sent, w2.drawn[9 := 2]);
    ReachNext(w2, ToClient(2, ACK, 0, 9), w);
  }

  /** With shared ids the safety result is false: both clients bind address 10. */
  lemma SharedIdsShareAddress()
    ensures exists w :: Reaches(SERVER, {1, 2}, w) && 1 in w.clients && 2 in w.clients
                        && w.clients[1].iface == w.clients[2].iface == Some(10)
  {
    var w := BothBind();
    assert w.clients[1] == Configured() && w.clients[2] == Configured();
  }
}
