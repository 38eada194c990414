/** What the DHCP server and client do on each event, by its effect, and that the exchanges
    they are for succeed. */
module DhcpLaws {
  import opened Options
  import opened Dhcp

  // ----------------------------------------------------------------- server

  /** The address is in the server's range and not leased. */
  predicate IsFree(c: ServerConfig, t: Table, ip: Ip) {
    c.begin <= ip < c.begin + c.clients && !(ip in t && t[ip].leased)
  }

  ghost predicate AnyFree(c: ServerConfig, t: Table) {
    exists ip :: IsFree(c, t, ip)
  }

  /** The server can answer: a known client, or a new one for which there is an address. */
  ghost predicate Answerable(c: ServerConfig, t: Table, m: Msg) {
    || (m.Request? && HasLease(t, m.chaddr))
    || (m.Discover? && (HasLease(t, m.chaddr) || AnyFree(c, t)))
  }

  /** The address for a client: its own, or else the lowest free one. */
  ghost predicate RightAddress(c: ServerConfig, t: Table, mac: MacAddress, ip: Ip) {
    if HasLease(t, mac) then Owns(t, ip, mac)
    else IsFree(c, t, ip) && forall lower :: c.begin <= lower < ip ==> !IsFree(c, t, lower)
  }

  lemma AvailableIsLowest(c: ServerConfig, t: Table)
    ensures Available(c, t, 0).Some? <==> AnyFree(c, t)
    ensures Available(c, t, 0).Some? ==>
              var ip := Available(c, t, 0).value;
              IsFree(c, t, ip) && forall lower :: c.begin <= lower < ip ==> !IsFree(c, t, lower)
  {
    var r := Available(c, t, 0);
    if r.Some? { assert IsFree(c, t, r.value); }
  }

  /** Main result on the server: it answers exactly if it can, a Discover with an offer and a
      Request with an ACK, to the client that asked and under its id, with the right
      address; that address is then leased to the client, and nothing else changes. */
  lemma AnswersIffItCan(c: ServerConfig, t: Table, m: Msg)
    requires TableInv(t)
    ensures var r := Serve(c, t, m);
            && (r.out.Some? <==> Answerable(c, t, m))
            && (r.out.None? ==> r.table == t)
            && (r.out.Some? ==>
                  var a := r.out.value;
                  && Answers(c, r.table, m, a) && (a.Offer? ==> a.server == c.ip)
                  && RightAddress(c, t, m.chaddr, a.yiaddr)
                  && r.table == t[a.yiaddr := Lease(m.chaddr, m.xid, true)])
  {
    ServeGood(c, t, m);
    AvailableIsLowest(c, t);
  }

  // ----------------------------------------------------------------- client

  predicate DueAt(t: Timer, at: int) {
    t.Due? && t.at == at
  }

  /** The request that a client sends in this state. */
  function RequestFor(state: State, l: ClientLease, mac: MacAddress, draw: Xid): Msg {
    Request(draw, mac, if state == Requesting then Some(l.server) else None)
  }

  function Retried(retries: int): int {
    if retries < RETRY_MAX then retries + 1 else 0
  }

  /** A timer of the kind has expired: what was asked for is asked for again, T1 leads to
      renewing and T2 to rebinding; lease and address stay. */
  ghost predicate TimerLaw(k: Client, mac: MacAddress, kind: Kind, t: int, draw: Xid, k': Client, out: Option<Msg>) {
    && k'.lease == k.lease && k'.iface == k.iface && DueAt(k'.to, t + RESPONSE_TIMEOUT)
    && match kind
       case WaitOffer =>
         && k'.state == Selecting && k'.toKind == WaitOffer && out == Some(Discover(draw, mac))
         && k'.retries == Retried(k.retries)
       case WaitAck =>
         && k.lease.Some? && k'.state == k.state && k'.toKind == WaitAck && k'.retries == Retried(k.retries)
         && out == Some(RequestFor(k.state, k.lease.value, mac, draw))
       case T1 =>
         && k'.state == Renewing && k'.toKind == WaitAck && k'.retries == k.retries && k'.t2 == k.t2
         && out == Some(Request(draw, mac, None))
       case T2 =>
         && k'.state == Rebinding && k'.toKind == WaitAck && k'.retries == k.retries
         && out == Some(Request(draw, mac, None))
  }

  lemma TimerLawful(t: Table, k: Client, mac: MacAddress, kind: Kind, at: int, draw: Xid)
    requires LocalInv(t, mac, k) && Expires(k, kind, at) && Passes(k, at)
    ensures var e := OnTimer(TakeOff(k, kind, at), mac, kind, draw);
            e.Done? && TimerLaw(k, mac, kind, at, draw, e.client, e.out)
  {
    if kind == T2 { T2OnlyWhileRenewing(k, at); }
  }

  /** A message: an offer is taken while selecting and asked for, an ACK configures the
      address of the lease and sets T1 and T2; anything else is ignored. */
  predicate MessageLaw(k: Client, mac: MacAddress, m: Msg, t: int, draw: Xid, k': Client, out: Option<Msg>) {
    if Accepts(k, m) && m.Offer? && k.state == Selecting then
      && k'.state == Requesting && k'.lease == Some(ClientLease(m.yiaddr, m.server, 0, 0)) && k'.iface == k.iface
      && DueAt(k'.to, t + RESPONSE_TIMEOUT) && k'.toKind == WaitAck
      && out == Some(Request(draw, mac, Some(m.server)))
    else if Accepts(k, m) && m.Ack? then
      && k.lease.Some? && k'.state == Bound && k'.iface == Some(k.lease.value.ip) && k'.to == Off && out == None
      && k'.lease == Some(k.lease.value.(renewal := m.renewal, rebind := m.rebind))
      && DueAt(k'.t1, t + m.renewal) && DueAt(k'.t2, t + m.rebind)
    else k' == k.(now := t) && out == None
  }

  lemma MessageLawful(t: Table, k: Client, mac: MacAddress, m: Msg, at: int, draw: Xid)
    requires LocalInv(t, mac, k) && Passes(k, at) && Proper(t, mac, k, m)
    ensures var e := OnMessage(k.(now := at), mac, m, draw); e.Done? && MessageLaw(k, mac, m, at, draw, e.client, e.out)
  {
  }

  /** The interface comes up: discover, with no timer left over. */
  lemma AssociateLawful(k: Client, mac: MacAddress, at: int, draw: Xid)
    ensures var e := Change(k.(now := at), mac, Init, draw);
            && e.Done? && e.client.state == Selecting && e.out == Some(Discover(draw, mac))
            && e.client.t1 == Off && e.client.t2 == Off && DueAt(e.client.to, at + RESPONSE_TIMEOUT)
            && e.client.toKind == WaitOffer && e.client.lease == k.lease && e.client.iface == k.iface
            && e.client.xid == draw
  {
  }

  // -------------------------------------------------------------- exchanges

  /** One event of a consistent world that is not a theft. */
  lemma HonestStep(c: ServerConfig, w: World, e: Event) returns (w': World)
    requires WorldInv(c, w) && Enabled(w, e) && !Steals(w, e)
    ensures Step(c, w, e) == Next(w') && WorldInv(c, w')
  {
    BrokenIffStolen(c, w, e);
    w' := Step(c, w, e).world;
  }

  /** The server gets a request it can answer, and the client its answer. */
  lemma Answered(c: ServerConfig, w: World, m: Msg) returns (w': World, a: Msg)
    requires WorldInv(c, w) && m in w.sent && Answerable(c, w.table, m)
    ensures Step(c, w, ToServer(m)) == Next(w') && WorldInv(c, w') && w'.clients == w.clients
    ensures a in w'.sent && Answers(c, w'.table, m, a) && RightAddress(c, w.table, m.chaddr, a.yiaddr)
  {
    w' := HonestStep(c, w, ToServer(m));
    AnswersIffItCan(c, w.table, m);
    a := Serve(c, w.table, m).out.value;
  }

  /** Main result on renewal: when T1 expires at a bound client, its request, once it gets to
      the server, leaves an ACK with its id, and that, once it gets to the client, leaves it
      bound to the same address with T1 and T2 set anew. */
  lemma RenewalSucceeds(c: ServerConfig, w: World, mac: MacAddress, t: int, x: Xid, t': int, x': Xid)
    returns (w1: World, w2: World, a: Msg, w3: World)
    requires WorldInv(c, w) && mac in w.clients && Expires(w.clients[mac], T1, t) && Passes(w.clients[mac], t)
    requires t <= t' <= t + RESPONSE_TIMEOUT && (w.clients[mac].t2.Due? ==> t' <= w.clients[mac].t2.at)
    ensures Step(c, w, Expire(mac, T1, t, x)) == Next(w1) && Request(x, mac, None) in w1.sent
    ensures Enabled(w1, ToServer(Request(x, mac, None))) && Step(c, w1, ToServer(Request(x, mac, None))) == Next(w2)
    ensures a.Ack? && a.xid == x && a in w2.sent && mac in w2.clients
    ensures Enabled(w2, ToClient(mac, a, t', x')) && Step(c, w2, ToClient(mac, a, t', x')) == Next(w3)
    ensures var k, k' := w.clients[mac], w3.clients[mac];
            && k'.state == Bound && k'.iface == k.iface && k.iface.Some?
            && DueAt(k'.t1, t' + c.leaseTime / 2) && DueAt(k'.t2, t' + c.leaseTime * 7 / 8)
  {
    var k := w.clients[mac];
    assert ClientInv(w.table, w.sent, mac, k);
    assert k.state == Bound;
    TimerLawful(w.table, k, mac, T1, t, x);
    w1 := HonestStep(c, w, Expire(mac, T1, t, x));
    var m := Request(x, mac, None);
    var k1 := w1.clients[mac];
    assert k1 == OnTimer(TakeOff(k, T1, t), mac, T1, x).client;
    assert k1.lease.Some? && Owns(w1.table, k1.lease.value.ip, mac) && HasLease(w1.table, mac);
    w2, a := Answered(c, w1, m);
    assert ClientInv(w2.table, w2.sent, mac, k1);
    AckBinds(c, w2, mac, a, t', x');
    w3 := HonestStep(c, w2, ToClient(mac, a, t', x'));
  }

  lemma AckBinds(c: ServerConfig, w: World, mac: MacAddress, a: Msg, t: int, x: Xid)
    requires WorldInv(c, w) && mac in w.clients && a in w.sent && a.Ack? && a.chaddr == mac
    requires a.xid == w.clients[mac].xid
    requires Owns(w.table, a.yiaddr, mac) && w.clients[mac].lease.Some? && Passes(w.clients[mac], t)
    ensures Enabled(w, ToClient(mac, a, t, x)) && !Steals(w, ToClient(mac, a, t, x))
    ensures var e := OnMessage(w.clients[mac].(now := t), mac, a, x);
            && e.Done? && e.client.state == Bound && e.client.iface == Some(w.clients[mac].lease.value.ip)
            && DueAt(e.client.t1, t + c.leaseTime / 2) && DueAt(e.client.t2, t + c.leaseTime * 7 / 8)
  {
    var k := w.clients[mac];
    assert ClientInv(w.table, w.sent, mac, k);
    assert Backed(c, w.table, w.sent, a);
    assert a.yiaddr == k.lease.value.ip;
    MessageLawful(w.table, k, mac, a, t, x);
  }

  /** No address of the server is 0.0.0.0. */
  ghost predicate Specified(c: ServerConfig, t: Table) {
    c.begin > UNSPECIFIED && forall ip :: ip in t ==> ip != UNSPECIFIED
  }

  /** Discover and offer: the client asks for the address that is right for it. */
  lemma OfferTaken(c: ServerConfig, w: World, mac: MacAddress, o: Msg, t: int, x: Xid) returns (w': World)
    requires WorldInv(c, w) && mac in w.clients && o in w.sent && o.Offer? && o.chaddr == mac
    requires o.xid == w.clients[mac].xid && w.clients[mac].state == Selecting && Passes(w.clients[mac], t)
    requires o.yiaddr != UNSPECIFIED
    ensures Enabled(w, ToClient(mac, o, t, x)) && Step(c, w, ToClient(mac, o, t, x)) == Next(w') && WorldInv(c, w')
    ensures mac in w'.clients && w'.table == w.table && Request(x, mac, Some(o.server)) in w'.sent
    ensures var k' := w'.clients[mac];
            && k'.state == Requesting && k'.xid == x && k'.lease == Some(ClientLease(o.yiaddr, o.server, 0, 0))
            && Passes(k', t)
  {
    var k := w.clients[mac];
    assert ClientInv(w.table, w.sent, mac, k);
    assert Backed(c, w.table, w.sent, o);
    MessageLawful(w.table, k, mac, o, t, x);
    w' := HonestStep(c, w, ToClient(mac, o, t, x));
    assert ClientInv(w'.table, w'.sent, mac, w'.clients[mac]);
  }

  lemma DiscoverSent(c: ServerConfig, w: World, mac: MacAddress, t: int, x: Xid) returns (w': World)
    requires WorldInv(c, w) && mac in w.clients && Passes(w.clients[mac], t)
    ensures Step(c, w, Associate(mac, t, x)) == Next(w') && WorldInv(c, w')
    ensures mac in w'.clients && w'.table == w.table && Discover(x, mac) in w'.sent
    ensures var k' := w'.clients[mac]; k'.state == Selecting && k'.xid == x && Passes(k', t)
  {
    AssociateLawful(w.clients[mac], mac, t, x);
    w' := HonestStep(c, w, Associate(mac, t, x));
    assert ClientInv(w'.table, w'.sent, mac, w'.clients[mac]);
  }

  /** Main result on acquisition: an interface that comes up at a client, known to the server
      or new while there is a free address, is configured by four messages, none of them
      lost, with the client's own address or the lowest free one. */
  lemma AcquisitionSucceeds(c: ServerConfig, w: World, mac: MacAddress, t: int, x1: Xid, x2: Xid, x3: Xid)
    returns (w1: World, w2: World, o: Msg, w3: World, w4: World, a: Msg, w5: World)
    requires WorldInv(c, w) && mac in w.clients && Passes(w.clients[mac], t) && Specified(c, w.table)
    requires HasLease(w.table, mac) || AnyFree(c, w.table)
    ensures Step(c, w, Associate(mac, t, x1)) == Next(w1) && Discover(x1, mac) in w1.sent
    ensures Step(c, w1, ToServer(Discover(x1, mac))) == Next(w2) && o.Offer? && o in w2.sent && mac in w2.clients
    ensures Enabled(w2, ToClient(mac, o, t, x2)) && Step(c, w2, ToClient(mac, o, t, x2)) == Next(w3)
    ensures Request(x2, mac, Some(o.server)) in w3.sent
    ensures Step(c, w3, ToServer(Request(x2, mac, Some(o.server)))) == Next(w4)
    ensures a.Ack? && a in w4.sent && mac in w4.clients
    ensures Enabled(w4, ToClient(mac, a, t, x3)) && Step(c, w4, ToClient(mac, a, t, x3)) == Next(w5)
    ensures RightAddress(c, w.table, mac, o.yiaddr) && mac in w5.clients
    ensures w5.clients[mac].state == Bound && w5.clients[mac].iface == Some(o.yiaddr)
  {
    w1 := DiscoverSent(c, w, mac, t, x1);
    w2, o := Answered(c, w1, Discover(x1, mac));
    w3 := OfferTaken(c, w2, mac, o, t, x2);
    var k := w3.clients[mac];
    assert ClientInv(w3.table, w3.sent, mac, k);
    assert Owns(w3.table, k.lease.value.ip, mac) && HasLease(w3.table, mac);
    w4, a := Answered(c, w3, Request(x2, mac, Some(o.server)));
    AckBinds(c, w4, mac, a, t, x3);
    w5 := HonestStep(c, w4, ToClient(mac, a, t, x3));
  }
}
