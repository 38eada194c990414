/** ChannelControl's caches: who is in range of whom, kept up to date host by host, and
    the transmissions on the air, purged from time to time. */
module ChannelControl {
  import opened Options
  import opened Coords
  import opened Sets

  function SqrDist(a: Coord, b: Coord): real {
    (a.x - b.x) * (a.x - b.x) + (a.y - b.y) * (a.y - b.y)
  }

  predicate InRange(range: real, a: Coord, b: Coord) {
    SqrDist(a, b) < range * range
  }

  /** In range is closer than the range. */
  lemma InRangeIsCloser(range: real, a: Coord, b: Coord, distance: real)
    requires range >= 0.0 && distance >= 0.0 && distance * distance == SqrDist(a, b)
    ensures InRange(range, a, b) <==> distance < range
  {
    if distance < range {
      SquareLess(distance, range);
    } else if range < distance {
      SquareLess(range, distance);
    }
  }

  lemma SquareLess(x: real, y: real)
    requires 0.0 <= x < y
    ensures x * x < y * y
  {
    PositiveProduct(y - x, y + x);
    assert y * y - x * x == (y - x) * (y + x);
  }

  lemma PositiveProduct(x: real, y: real)
    requires x > 0.0 && y > 0.0
    ensures x * y > 0.0
  {
  }

  /** Handle of a registered host. */
  type HostRef = int
  type Module = int

  datatype HostEntry = HostEntry(
    host: Module, pos: Coord, neighbors: set<HostRef>, isModuleListValid: bool, neighborModules: seq<Module>)

  type Hosts = map<HostRef, HostEntry>

  predicate Link(t: Hosts, a: HostRef, b: HostRef) {
    a in t && b in t && b in t[a].neighbors
  }

  /** Neighbour sets mention registered hosts only, never oneself, and are symmetric. */
  ghost predicate Symmetric(t: Hosts) {
    && (forall a, b :: a in t && b in t[a].neighbors ==> b in t && b != a)
    && (forall a, b :: Link(t, a, b) ==> Link(t, b, a))
  }

  // -------------------------------------------------------- one pair at a time

  function Connect(t: Hosts, h: HostRef, hi: HostRef): Hosts
    requires h in t && hi in t
  {
    if hi in t[h].neighbors then t
    else
      t[h := t[h].(neighbors := t[h].neighbors + {hi}, isModuleListValid := false)]
       [hi := t[hi].(neighbors := t[hi].neighbors + {h}, isModuleListValid := false)]
  }

  function Disconnect(t: Hosts, h: HostRef, hi: HostRef): Hosts
    requires h in t && hi in t
  {
    if hi !in t[h].neighbors then t
    else
      t[h := t[h].(neighbors := t[h].neighbors - {hi}, isModuleListValid := false)]
       [hi := t[hi].(neighbors := t[hi].neighbors - {h}, isModuleListValid := false)]
  }

  /** The body of the loop of updateConnections. */
  function UpdatePair(range: real, t: Hosts, h: HostRef, hi: HostRef): Hosts
    requires h in t && hi in t
  {
    if InRange(range, t[h].pos, t[hi].pos) then Connect(t, h, hi) else Disconnect(t, h, hi)
  }

  /** Same hosts in the same places; what changed of a cached list is marked invalid. */
  ghost predicate SameHosts(t: Hosts, t': Hosts) {
    && t'.Keys == t.Keys
    && (forall a :: a in t ==>
          && t'[a].host == t[a].host && t'[a].pos == t[a].pos
          && (t'[a].isModuleListValid ==> t'[a] == t[a]))
  }

  /** The mirror side is touched only on change, which is enough because the sets were
      symmetric. */
  lemma UpdatePairGood(range: real, t: Hosts, h: HostRef, hi: HostRef)
    requires Symmetric(t) && h in t && hi in t && h != hi
    ensures var t' := UpdatePair(range, t, h, hi);
            && SameHosts(t, t') && Symmetric(t')
            && (Link(t', h, hi) <==> InRange(range, t[h].pos, t[hi].pos))
            && ((Link(t, h, hi) <==> InRange(range, t[h].pos, t[hi].pos)) ==> t' == t)
            && (forall a, b :: !(a == h && b == hi) && !(a == hi && b == h) ==> (Link(t', a, b) <==> Link(t, a, b)))
  {
    var t' := UpdatePair(range, t, h, hi);
    assert Link(t, h, hi) <==> Link(t, hi, h);
    assert t'.Keys == t.Keys;
    assert forall a :: a in t && a != h && a != hi ==> t'[a] == t[a];
    forall a, b | !(a == h && b == hi) && !(a == hi && b == h) ensures Link(t', a, b) <==> Link(t, a, b) {
    }
    forall a, b | Link(t', a, b) ensures Link(t', b, a) {
      if (a == h && b == hi) || (a == hi && b == h) {
      } else {
        assert Link(t, a, b);
        assert Link(t, b, a);
      }
    }
  }

  // ---------------------------------------------------------------- operations

  function NewEntry(host: Module, pos: Coord): HostEntry {
    HostEntry(host, pos, {}, false, [])
  }

  predicate Registered(t: Hosts, host: Module) {
    exists a :: a in t && t[a].host == host
  }

  /** unregisterHost, once the host is found. */
  function Erased(t: Hosts, h: HostRef): Hosts {
    map a | a in t && a != h :: t[a].(neighbors := t[a].neighbors - {h}, isModuleListValid := false)
  }

  function Placed(t: Hosts, h: HostRef, pos: Coord): Hosts
    requires h in t
  {
    t[h := t[h].(pos := pos)]
  }

  predicate NoDuplicates<T(==)>(s: seq<T>) {
    forall i, j :: 0 <= i < j < |s| ==> s[i] != s[j]
  }

  /** An order in which an iterator visits a set. */
  ghost predicate Enumerates(order: seq<HostRef>, s: set<HostRef>) {
    NoDuplicates(order) && forall b :: b in order <==> b in s
  }

  lemma Visited(order: seq<HostRef>, s: set<HostRef>, i: nat)
    requires Enumerates(order, s) && i < |order|
    ensures order[i] in s
  {
    var b := order[i];
    assert b in order;
  }

  predicate AllIn(order: seq<HostRef>, t: Hosts) {
    forall i :: 0 <= i < |order| ==> order[i] in t
  }

  /** The loop of updateConnections over the other hosts in some order. */
  function UpdateAll(range: real, t: Hosts, h: HostRef, order: seq<HostRef>): (t': Hosts)
    requires h in t && AllIn(order, t)
    ensures t'.Keys == t.Keys
  {
    if order == [] then t
    else
      var n := |order| - 1;
      UpdatePair(range, UpdateAll(range, t, h, order[..n]), h, order[n])
  }

  /** The loop of getNeighbors. */
  function ModulesOf(t: Hosts, order: seq<HostRef>): (modules: seq<Module>)
    requires AllIn(order, t)
    ensures |modules| == |order| && forall i :: 0 <= i < |order| ==> modules[i] == t[order[i]].host
  {
    if order == [] then [] else ModulesOf(t, order[..|order| - 1]) + [t[order[|order| - 1]].host]
  }

  /** What updateHostPosition promises: h is linked to exactly the hosts in range of its
      new position, and other pairs are as before. */
  ghost predicate Moved(range: real, t: Hosts, h: HostRef, pos: Coord, t': Hosts)
    requires h in t
  {
    && SameHosts(Placed(t, h, pos), t')
    && (forall b :: b in t && b != h ==>
          (Link(t', h, b) <==> InRange(range, pos, t[b].pos)) && (Link(t', b, h) <==> InRange(range, pos, t[b].pos)))
    && (forall a, b :: a != h && b != h ==> (Link(t', a, b) <==> Link(t, a, b)))
    && Symmetric(t')
  }

  /** The loop sets the links to the hosts visited, and no others. */
  lemma {:induction false} UpdateAllGood(range: real, t: Hosts, h: HostRef, order: seq<HostRef>)
    requires Symmetric(t) && h in t && AllIn(order, t) && h !in order
    ensures var t' := UpdateAll(range, t, h, order);
            && SameHosts(t, t') && Symmetric(t')
            && (forall b :: b in order ==> (Link(t', h, b) <==> InRange(range, t[h].pos, t[b].pos)))
            && (forall a, b :: a != h && b != h ==> (Link(t', a, b) <==> Link(t, a, b)))
  {
    if order != [] {
      var n := |order| - 1;
      UpdateAllGood(range, t, h, order[..n]);
      UpdatePairGood(range, UpdateAll(range, t, h, order[..n]), h, order[n]);
      assert forall b :: b in order <==> b in order[..n] || b == order[n];
    }
  }

  /** From symmetric sets, the loop does what updateHostPosition promises, in any order. */
  lemma UpdateMoves(range: real, t: Hosts, h: HostRef, pos: Coord, order: seq<HostRef>)
    requires Symmetric(t) && h in t && Enumerates(order, t.Keys - {h})
    ensures AllIn(order, t) && Moved(range, t, h, pos, UpdateAll(range, Placed(t, h, pos), h, order))
  {
    var p := Placed(t, h, pos);
    assert AllIn(order, t) by {
      forall i | 0 <= i < |order| ensures order[i] in t { Visited(order, t.Keys - {h}, i); }
    }
    assert forall a, b :: Link(p, a, b) <==> Link(t, a, b);
    UpdateAllGood(range, p, h, order);
    var t' := UpdateAll(range, p, h, order);
    forall b | b in t && b != h ensures Link(t', h, b) <==> InRange(range, pos, t[b].pos) {
      assert b in order;
    }
  }

  /** No two hosts are the same module. */
  ghost predicate DistinctModules(t: Hosts) {
    forall a, b :: a in t && b in t && t[a].host == t[b].host ==> a == b
  }

  /** The list has each neighbour's module, once. */
  ghost predicate Lists(t: Hosts, neighbors: set<HostRef>, modules: seq<Module>) {
    && NoDuplicates(modules)
    && (forall b :: b in neighbors ==> b in t && t[b].host in modules)
    && (forall m :: m in modules ==> exists b :: b in neighbors && b in t && t[b].host == m)
  }

  /** getNeighbors, visiting the neighbours in this order: the list is rebuilt only if it
      is not valid. */
  ghost predicate Listed(t: Hosts, h: HostRef, order: seq<HostRef>, t': Hosts)
    requires h in t
  {
    if t[h].isModuleListValid then t' == t
    else
      && Enumerates(order, t[h].neighbors) && AllIn(order, t)
      && t' == t[h := t[h].(isModuleListValid := true, neighborModules := ModulesOf(t, order))]
  }

  lemma ModulesListed(t: Hosts, neighbors: set<HostRef>, order: seq<HostRef>)
    requires DistinctModules(t) && Enumerates(order, neighbors) && AllIn(order, t)
    ensures Lists(t, neighbors, ModulesOf(t, order))
  {
    var modules := ModulesOf(t, order);
    forall i, j | 0 <= i < j < |modules| ensures modules[i] != modules[j] {
      assert order[i] != order[j];
    }
    forall b | b in neighbors ensures b in t && t[b].host in modules {
      assert b in order;
      var i :| 0 <= i < |order| && order[i] == b;
      assert modules[i] == t[b].host;
    }
    forall m | m in modules ensures exists b :: b in neighbors && b in t && t[b].host == m {
      var i :| 0 <= i < |modules| && modules[i] == m;
      Visited(order, neighbors, i);
      var b := order[i];
      assert b in neighbors && b in t && t[b].host == m;
    }
  }

  // --------------------------------------------------------------- whole runs

  /** The hosts, and the pairs of which one has moved since both were registered. */
  datatype World = World(t: Hosts, met: set<(HostRef, HostRef)>)

  datatype Event =
    | Register(h: HostRef, host: Module, pos: Coord)
    | Unregister(h: HostRef)
    | Move(h: HostRef, pos: Coord, order: seq<HostRef>)
    | Query(h: HostRef, order: seq<HostRef>)

  function MetByMoving(t: Hosts, h: HostRef): set<(HostRef, HostRef)> {
    (set b | b in t && b != h :: (h, b)) + (set b | b in t && b != h :: (b, h))
  }

  ghost predicate Step(range: real, w: World, e: Event, w': World) {
    match e
    case Register(h, host, pos) =>
      h !in w.t && !Registered(w.t, host) && w' == w.(t := w.t[h := NewEntry(host, pos)])
    case Unregister(h) =>
      h in w.t && w' == World(Erased(w.t, h), set p | p in w.met && p.0 != h && p.1 != h)
    case Move(h, pos, order) =>
      && h in w.t && Enumerates(order, w.t.Keys - {h}) && AllIn(order, w.t)
      && w' == World(UpdateAll(range, Placed(w.t, h, pos), h, order), w.met + MetByMoving(w.t, h))
    case Query(h, order) =>
      h in w.t && Listed(w.t, h, order, w'.t) && w'.met == w.met
  }

  /** A pair is linked exactly if it is in range and one of it moved since both came. */
  ghost predicate Tracks(range: real, t: Hosts, met: set<(HostRef, HostRef)>) {
    && (forall a, b :: (a, b) in met ==> a in t && b in t && a != b && (b, a) in met)
    && (forall a, b :: a in t && b in t && a != b ==>
          (Link(t, a, b) <==> (a, b) in met && InRange(range, t[a].pos, t[b].pos)))
  }

  ghost predicate ValidLists(t: Hosts) {
    forall a :: a in t && t[a].isModuleListValid ==> Lists(t, t[a].neighbors, t[a].neighborModules)
  }

  ghost predicate Inv(range: real, w: World) {
    Symmetric(w.t) && DistinctModules(w.t) && Tracks(range, w.t, w.met) && ValidLists(w.t)
  }

  lemma InRangeSymmetric(range: real, a: Coord, b: Coord)
    ensures InRange(range, a, b) <==> InRange(range, b, a)
  {
    assert (a.x - b.x) * (a.x - b.x) == (b.x - a.x) * (b.x - a.x);
    assert (a.y - b.y) * (a.y - b.y) == (b.y - a.y) * (b.y - a.y);
  }

  /** A list stays right as long as the hosts on it keep their modules. */
  lemma ListsStay(t: Hosts, t': Hosts, neighbors: set<HostRef>, modules: seq<Module>)
    requires Lists(t, neighbors, modules)
    requires forall b :: b in neighbors ==> b in t' && t'[b].host == t[b].host
    ensures Lists(t', neighbors, modules)
  {
    forall m | m in modules ensures exists b :: b in neighbors && b in t' && t'[b].host == m {
      var b :| b in neighbors && b in t && t[b].host == m;
      assert b in neighbors && b in t' && t'[b].host == m;
    }
  }

  lemma IsRegistered(t: Hosts, a: HostRef)
    requires a in t
    ensures Registered(t, t[a].host)
  {
  }

  lemma RegisterKeeps(range: real, w: World, h: HostRef, host: Module, pos: Coord)
    requires Inv(range, w) && h !in w.t && !Registered(w.t, host)
    ensures Inv(range, w.(t := w.t[h := NewEntry(host, pos)]))
  {
    var t' := w.t[h := NewEntry(host, pos)];
    assert forall a, b :: Link(t', a, b) <==> Link(w.t, a, b);
    forall a | a in t' && t'[a].isModuleListValid ensures Lists(t', t'[a].neighbors, t'[a].neighborModules) {
      ListsStay(w.t, t', t'[a].neighbors, t'[a].neighborModules);
    }
  }

  lemma UnregisterKeeps(range: real, w: World, h: HostRef)
    requires Inv(range, w) && h in w.t
    ensures Inv(range, World(Erased(w.t, h), set p | p in w.met && p.0 != h && p.1 != h))
  {
    var t' := Erased(w.t, h);
    assert forall a, b :: Link(t', a, b) <==> Link(w.t, a, b) && a != h && b != h;
  }

  lemma MoveKeepsTracks(range: real, w: World, h: HostRef, pos: Coord, t': Hosts)
    requires Inv(range, w) && h in w.t && Moved(range, w.t, h, pos, t')
    ensures Tracks(range, t', w.met + MetByMoving(w.t, h))
  {
    var met' := w.met + MetByMoving(w.t, h);
    forall a, b | a in t' && b in t' && a != b
      ensures Link(t', a, b) <==> (a, b) in met' && InRange(range, t'[a].pos, t'[b].pos)
    {
      InRangeSymmetric(range, t'[a].pos, t'[b].pos);
      if a == h || b == h {
        assert (a, b) in MetByMoving(w.t, h);
      } else {
        assert (a, b) in met' <==> (a, b) in w.met;
      }
    }
  }

  lemma MoveKeepsLists(range: real, w: World, h: HostRef, pos: Coord, t': Hosts)
    requires Inv(range, w) && h in w.t && Moved(range, w.t, h, pos, t')
    ensures ValidLists(t')
  {
    forall a | a in t' && t'[a].isModuleListValid ensures Lists(t', t'[a].neighbors, t'[a].neighborModules) {
      var p := Placed(w.t, h, pos);
      assert t'[a] == p[a];
      ListsStay(w.t, t', t'[a].neighbors, t'[a].neighborModules);
    }
  }

  /** Only cached lists differ. */
  ghost predicate SameNeighbors(t: Hosts, t': Hosts) {
    t'.Keys == t.Keys && forall a :: a in t ==>
      t'[a].host == t[a].host && t'[a].pos == t[a].pos && t'[a].neighbors == t[a].neighbors
  }

  lemma SameNeighborsKeeps(range: real, t: Hosts, t': Hosts, met: set<(HostRef, HostRef)>)
    requires Symmetric(t) && Tracks(range, t, met) && SameNeighbors(t, t')
    ensures Symmetric(t') && Tracks(range, t', met)
  {
    assert forall a, b :: Link(t', a, b) <==> Link(t, a, b);
  }

  lemma RelistKeeps(range: real, w: World, h: HostRef, modules: seq<Module>)
    requires Inv(range, w) && h in w.t && Lists(w.t, w.t[h].neighbors, modules)
    ensures Inv(range, w.(t := w.t[h := w.t[h].(isModuleListValid := true, neighborModules := modules)]))
  {
    var t' := w.t[h := w.t[h].(isModuleListValid := true, neighborModules := modules)];
    SameNeighborsKeeps(range, w.t, t', w.met);
    forall a | a in t' && t'[a].isModuleListValid ensures Lists(t', t'[a].neighbors, t'[a].neighborModules) {
      ListsStay(w.t, t', t'[a].neighbors, t'[a].neighborModules);
    }
  }

  lemma QueryKeeps(range: real, w: World, h: HostRef, order: seq<HostRef>, t': Hosts)
    requires Inv(range, w) && h in w.t && Listed(w.t, h, order, t')
    ensures Inv(range, w.(t := t'))
  {
    if !w.t[h].isModuleListValid {
      ModulesListed(w.t, w.t[h].neighbors, order);
      RelistKeeps(range, w, h, ModulesOf(w.t, order));
    }
  }

  /** A move, carried out pair by pair in any order, keeps the invariant. */
  lemma MoveKeepsInv(range: real, w: World, h: HostRef, pos: Coord, order: seq<HostRef>)
    requires Inv(range, w) && h in w.t && Enumerates(order, w.t.Keys - {h}) && AllIn(order, w.t)
    ensures Inv(range, World(UpdateAll(range, Placed(w.t, h, pos), h, order), w.met + MetByMoving(w.t, h)))
  {
    var t' := UpdateAll(range, Placed(w.t, h, pos), h, order);
    UpdateMoves(range, w.t, h, pos, order);
    MoveKeepsTracks(range, w, h, pos, t');
    MoveKeepsLists(range, w, h, pos, t');
  }

  lemma StepKeepsInv(range: real, w: World, e: Event, w': World)
    requires Inv(range, w) && Step(range, w, e, w')
    ensures Inv(range, w')
  {
    match e
    case Register(h, host, pos) => RegisterKeeps(range, w, h, host, pos);
    case Unregister(h) => UnregisterKeeps(range, w, h);
    case Move(h, pos, order) => MoveKeepsInv(range, w, h, pos, order);
    case Query(h, order) => QueryKeeps(range, w, h, order, w'.t);
  }

  /** ws[i] is the world before event i; at first there are no hosts. */
  ghost predicate Run(range: real, ws: seq<World>, es: seq<Event>) {
    && |ws| == |es| + 1 && ws[0] == World(map[], {})
    && forall i :: 0 <= i < |es| ==> Step(range, ws[i], es[i], ws[i + 1])
  }

  lemma {:induction false} RunKeepsInv(range: real, ws: seq<World>, es: seq<Event>)
    requires Run(range, ws, es)
    ensures Inv(range, ws[|es|])
    decreases |es|
  {
    if es != [] {
      var n := |es| - 1;
      RunKeepsInv(range, ws[..n + 1], es[..n]);
      StepKeepsInv(range, ws[n], es[n], ws[n + 1]);
    }
  }

  /** Main result: in every state of every run neighbour sets are symmetric, irreflexive
      and mention registered hosts only; two hosts are neighbours exactly if they are
      in range and one of them has moved since both were registered; and a list handed
      out has exactly the neighbours' modules. */
  lemma CacheAgreesWithRange(range: real, ws: seq<World>, es: seq<Event>, a: HostRef, b: HostRef)
    requires Run(range, ws, es) && a in ws[|es|].t && b in ws[|es|].t && a != b
    ensures var w := ws[|es|];
            && (b in w.t[a].neighbors <==> a in w.t[b].neighbors) && a !in w.t[a].neighbors
            && w.t[a].neighbors <= w.t.Keys
            && (b in w.t[a].neighbors <==> (a, b) in w.met && InRange(range, w.t[a].pos, w.t[b].pos))
            && (w.t[a].isModuleListValid ==> Lists(w.t, w.t[a].neighbors, w.t[a].neighborModules))
  {
    RunKeepsInv(range, ws, es);
    var w := ws[|es|];
    assert Link(w.t, a, b) <==> Link(w.t, b, a);
    assert forall x :: x in w.t[a].neighbors ==> x in w.t && x != a;
  }

  // ------------------------------------------------------- ongoing transmissions

  datatype AirFrame = AirFrame(id: int, channel: nat, start: real, duration: real)

  const TRANSMISSION_PURGE_INTERVAL: real := 1.0

  predicate Expired(f: AirFrame, now: real) {
    f.start + f.duration + TRANSMISSION_PURGE_INTERVAL < now
  }

  function Keep(fs: seq<AirFrame>, now: real): (r: seq<AirFrame>) {
    if fs == [] then [] else (if Expired(fs[0], now) then [] else [fs[0]]) + Keep(fs[1..], now)
  }

  lemma {:induction false} KeepAppend(a: seq<AirFrame>, b: seq<AirFrame>, now: real)
    ensures Keep(a + b, now) == Keep(a, now) + Keep(b, now)
  {
    if a == [] {
      assert a + b == b;
    } else {
      assert (a + b)[1..] == a[1..] + b;
      KeepAppend(a[1..], b, now);
    }
  }

  /** Purging early loses nothing that a later purge would keep. */
  lemma {:induction false} KeepKeeps(fs: seq<AirFrame>, now: real, later: real)
    requires now <= later
    ensures Keep(Keep(fs, now), later) == Keep(fs, later)
  {
    if fs != [] {
      KeepKeeps(fs[1..], now, later);
      KeepAppend(if Expired(fs[0], now) then [] else [fs[0]], Keep(fs[1..], now), later);
      assert [fs[0]][1..] == [];
    }
  }

  /** A purge keeps a transmission exactly until one second after its end. */
  lemma {:induction false} KeptIff(fs: seq<AirFrame>, now: real, f: AirFrame)
    ensures f in Keep(fs, now) <==> f in fs && now <= f.start + f.duration + 1.0
  {
    if fs != [] {
      KeptIff(fs[1..], now, f);
      assert f in fs <==> f == fs[0] || f in fs[1..];
    }
  }

  class Channels {
    const numChannels: nat
    var now: real
    var transmissions: seq<seq<AirFrame>>
    var lastOngoingTransmissionsUpdate: real
    ghost var added: seq<seq<AirFrame>>   // every frame ever added, by channel

    /** Nothing is missing that has not expired. */
    ghost predicate Valid()
      reads this
    {
      && |transmissions| == |added| == numChannels
      && forall i :: 0 <= i < numChannels ==> Keep(transmissions[i], now) == Keep(added[i], now)
    }

    constructor (n: nat)
      ensures Valid() && numChannels == n && now == 0.0 && added == seq(n, _ => [])
    {
      numChannels := n;
      now, lastOngoingTransmissionsUpdate := 0.0, 0.0;
      transmissions := seq(n, _ => []);
      added := seq(n, _ => []);
    }

    method PurgeOngoingTransmissions()
      requires Valid()
      modifies this`transmissions
      ensures Valid() && forall i :: 0 <= i < numChannels ==> transmissions[i] == Keep(added[i], now)
    {
      var i := 0;
      while i < numChannels
        invariant 0 <= i <= numChannels && |transmissions| == numChannels
        invariant forall j :: 0 <= j < i ==> transmissions[j] == Keep(added[j], now)
        invariant forall j :: i <= j < numChannels ==> transmissions[j] == old(transmissions[j])
      {
        var kept := PurgeList(transmissions[i]);
        transmissions := transmissions[i := kept];
        i := i + 1;
      }
      forall j | 0 <= j < numChannels ensures Keep(transmissions[j], now) == Keep(added[j], now) {
        KeepKeeps(added[j], now, now);
      }
    }

    /** The inner loop, which erases while it walks the list. */
    method PurgeList(fs: seq<AirFrame>) returns (r: seq<AirFrame>)
      ensures r == Keep(fs, now)
    {
      r := fs;
      var i := 0;
      assert r[..0] == [] && r[0..] == r;
      while i < |r|
        invariant 0 <= i <= |r| && Keep(fs, now) == r[..i] + Keep(r[i..], now)
        decreases |r| - i
      {
        assert r[i..][1..] == r[i + 1..];
        if r[i].start + r[i].duration + TRANSMISSION_PURGE_INTERVAL < now {
          ghost var was := r;
          r := r[..i] + r[i + 1..];
          assert r[..i] == was[..i] && r[i..] == was[i + 1..];
        } else {
          assert r[..i + 1] == r[..i] + [r[i]];
          i := i + 1;
        }
      }
    }

    /** With one channel there is nothing to keep track of. */
    method AddOngoingTransmission(frame: AirFrame, t: real)
      requires Valid() && t >= now && frame.channel < numChannels && frame.duration >= 0.0
      modifies this
      ensures Valid() && now == t
      ensures added == if numChannels == 1 then old(added)
                       else old(added)[frame.channel := old(added[frame.channel]) + [frame.(start := t)]]
    {
      Advance(t);
      if numChannels == 1 { return; }
      if now - lastOngoingTransmissionsUpdate > TRANSMISSION_PURGE_INTERVAL {
        PurgeOngoingTransmissions();
        lastOngoingTransmissionsUpdate := now;
      }
      var c, f := frame.channel, frame.(start := now);
      KeepAppend(transmissions[c], [f], now);
      KeepAppend(added[c], [f], now);
      transmissions := transmissions[c := transmissions[c] + [f]];
      added := added[c := added[c] + [f]];
    }

    method Advance(t: real)
      requires Valid() && t >= now
      modifies this`now
      ensures Valid() && now == t
    {
      forall i | 0 <= i < numChannels ensures Keep(transmissions[i], t) == Keep(added[i], t) {
        KeepKeeps(transmissions[i], now, t);
        KeepKeeps(added[i], now, t);
      }
      now := t;
    }

    /** Exactly the frames added on the channel that have not expired, in order. */
    method GetOngoingTransmissions(channel: int, t: real) returns (r: Option<seq<AirFrame>>)
      requires Valid() && t >= now
      modifies this
      ensures Valid() && now == t && added == old(added)
      ensures if 0 <= channel < numChannels then r == Some(Keep(added[channel], t)) else r.None?
    {
      Advance(t);
      if channel >= numChannels || channel < 0 { return None; }
      PurgeOngoingTransmissions();
      return Some(transmissions[channel]);
    }
  }

  // ---------------------------------------------------------------- the class

  class ChannelControlModule {
    const maxInterferenceDistance: real
    var hosts: Hosts
    ghost var met: set<(HostRef, HostRef)>

    /** The caches agree with the range relation, as in every state of a run. */
    ghost predicate Valid()
      reads this
    {
      Inv(maxInterferenceDistance, View())
    }

    ghost function View(): World
      reads this
    {
      World(hosts, met)
    }

    constructor (distance: real)
      ensures Valid() && View() == World(map[], {}) && maxInterferenceDistance == distance
    {
      maxInterferenceDistance := distance;
      hosts, met := map[], {};
    }

    method LookupHost(host: Module) returns (r: Option<HostRef>)
      ensures r.Some? ==> r.value in hosts && hosts[r.value].host == host
      ensures r.None? ==> !Registered(hosts, host)
    {
      var todo: set<HostRef> := hosts.Keys;
      while todo != {}
        invariant todo <= hosts.Keys
        invariant forall a :: a in hosts && a !in todo ==> hosts[a].host != host
        decreases todo
      {
        var a := Pick(todo);
        if hosts[a].host == host { return Some(a); }
        todo := todo - {a};
      }
      return None;
    }

    /** False if the host is registered already; h is the address of the new entry. */
    method RegisterHost(h: HostRef, host: Module, pos: Coord) returns (ok: bool)
      requires Valid() && h !in hosts
      modifies this
      ensures Valid() && (ok <==> !Registered(old(hosts), host))
      ensures if ok then Step(maxInterferenceDistance, old(View()), Register(h, host, pos), View())
              else View() == old(View())
    {
      var known := LookupHost(host);
      if known.Some? {
        IsRegistered(hosts, known.value);
        return false;
      }
      RegisterKeeps(maxInterferenceDistance, View(), h, host, pos);
      hosts := hosts[h := NewEntry(host, pos)];
      return true;
    }

    /** False if there is no such host. */
    method UnregisterHost(host: Module) returns (ok: bool, ghost h: HostRef)
      requires Valid()
      modifies this
      ensures Valid() && (ok <==> Registered(old(hosts), host))
      ensures if ok then h in old(hosts) && old(hosts)[h].host == host
                         && Step(maxInterferenceDistance, old(View()), Unregister(h), View())
              else View() == old(View())
    {
      h := 0;
      var found := LookupHost(host);
      if found.None? { return false, h; }
      h := found.value;
      IsRegistered(hosts, h);
      UnregisterKeeps(maxInterferenceDistance, View(), h);
      EraseHost(found.value);
      met := set p | p in met && p.0 != h && p.1 != h;
      ok := true;
    }

    method EraseHost(h: HostRef)
      requires h in hosts
      modifies this`hosts
      ensures hosts == Erased(old(hosts), h)
    {
      var todo: set<HostRef> := hosts.Keys;
      while todo != {}
        invariant todo <= hosts.Keys == old(hosts).Keys
        invariant forall a :: a in hosts ==>
                    var e := old(hosts)[a];
                    hosts[a] == if a in todo then e else e.(neighbors := e.neighbors - {h}, isModuleListValid := false)
        decreases todo
      {
        var a := Pick(todo);
        hosts := hosts[a := hosts[a].(neighbors := hosts[a].neighbors - {h}, isModuleListValid := false)];
        todo := todo - {a};
      }
      assert todo == {};
      hosts := hosts - {h};
      ghost var erased := Erased(old(hosts), h);
      assert forall a :: a in hosts <==> a in erased;
      assert forall a :: a in hosts ==> hosts[a] == erased[a];
      assert hosts == erased;
    }

    /** Exactly the modules of the neighbours, each once. */
    method GetNeighbors(h: HostRef) returns (r: seq<Module>, ghost order: seq<HostRef>)
      requires Valid() && h in hosts
      modifies this
      ensures Valid() && Step(maxInterferenceDistance, old(View()), Query(h, order), View())
      ensures h in hosts && Lists(hosts, hosts[h].neighbors, r)
    {
      order := [];
      if !hosts[h].isModuleListValid {
        assert forall b :: b in hosts[h].neighbors ==> b in hosts;
        var modules;
        modules, order := CollectModules(hosts[h].neighbors);
        hosts := hosts[h := hosts[h].(isModuleListValid := true, neighborModules := modules)];
      }
      QueryKeeps(maxInterferenceDistance, old(View()), h, order, hosts);
      r := hosts[h].neighborModules;
    }

    method CollectModules(neighbors: set<HostRef>) returns (modules: seq<Module>, ghost order: seq<HostRef>)
      requires neighbors <= hosts.Keys
      ensures Enumerates(order, neighbors) && AllIn(order, hosts) && modules == ModulesOf(hosts, order)
      ensures DistinctModules(hosts) ==> Lists(hosts, neighbors, modules)
    {
      modules, order := [], [];
      var todo := neighbors;
      while todo != {}
        invariant todo <= neighbors && Enumerates(order, neighbors - todo)
        invariant AllIn(order, hosts) && modules == ModulesOf(hosts, order)
        decreases todo
      {
        var b := Pick(todo);
        modules := modules + [hosts[b].host];
        assert (order + [b])[..|order|] == order;
        assert neighbors - (todo - {b}) == (neighbors - todo) + {b};
        EnumerateMore(order, neighbors - todo, b);
        order := order + [b];
        todo := todo - {b};
      }
      assert neighbors - todo == neighbors;
      if DistinctModules(hosts) { ModulesListed(hosts, neighbors, order); }
    }

    /** The caches follow the host. */
    method UpdateHostPosition(h: HostRef, pos: Coord) returns (ghost order: seq<HostRef>)
      requires Valid() && h in hosts
      modifies this
      ensures Valid() && Step(maxInterferenceDistance, old(View()), Move(h, pos, order), View())
      ensures Moved(maxInterferenceDistance, old(hosts), h, pos, hosts)
    {
      hosts := hosts[h := hosts[h].(pos := pos)];
      order := UpdateConnections(h);
      assert AllIn(order, old(hosts));
      UpdateMoves(maxInterferenceDistance, old(hosts), h, pos, order);
      MoveKeepsInv(maxInterferenceDistance, old(View()), h, pos, order);
      met := met + MetByMoving(old(hosts), h);
    }

    /** The loop, pair by pair, in the order in which the iterator visits the hosts. */
    method UpdateConnections(h: HostRef) returns (ghost order: seq<HostRef>)
      requires h in hosts
      modifies this`hosts
      ensures Enumerates(order, old(hosts).Keys - {h}) && AllIn(order, old(hosts))
      ensures hosts == UpdateAll(maxInterferenceDistance, old(hosts), h, order)
    {
      order := [];
      var todo: set<HostRef> := hosts.Keys - {h};
      ghost var others := todo;
      while todo != {}
        invariant todo <= others && Enumerates(order, others - todo) && AllIn(order, old(hosts))
        invariant hosts == UpdateAll(maxInterferenceDistance, old(hosts), h, order)
        decreases todo
      {
        var hi := Pick(todo);
        UpdateLink(h, hi);
        assert (order + [hi])[..|order|] == order;
        assert others - (todo - {hi}) == (others - todo) + {hi};
        EnumerateMore(order, others - todo, hi);
        order := order + [hi];
        todo := todo - {hi};
      }
      assert others - todo == others;
    }

    /** The body of that loop: the mirror side is touched only on change. */
    method UpdateLink(h: HostRef, hi: HostRef)
      requires h in hosts && hi in hosts && h != hi
      modifies this`hosts
      ensures hosts == UpdatePair(maxInterferenceDistance, old(hosts), h, hi)
    {
      if InRange(maxInterferenceDistance, hosts[h].pos, hosts[hi].pos) {
        if hi !in hosts[h].neighbors {
          hosts := hosts[h := hosts[h].(neighbors := hosts[h].neighbors + {hi}, isModuleListValid := false)]
                        [hi := hosts[hi].(neighbors := hosts[hi].neighbors + {h}, isModuleListValid := false)];
        }
      } else if hi in hosts[h].neighbors {
        hosts := hosts[h := hosts[h].(neighbors := hosts[h].neighbors - {hi}, isModuleListValid := false)]
                      [hi := hosts[hi].(neighbors := hosts[hi].neighbors - {h}, isModuleListValid := false)];
      }
    }
  }

  lemma EnumerateMore(order: seq<HostRef>, s: set<HostRef>, b: HostRef)
    requires Enumerates(order, s) && b !in s
    ensures Enumerates(order + [b], s + {b})
  {
    var more := order + [b];
    forall i, j | 0 <= i < j < |more| ensures more[i] != more[j] {
      if j == |order| { assert order[i] in order; }
    }
    assert forall x :: x in more <==> x in order || x == b;
  }
}
