/** The learning table of the Ethernet switch: aging, and eviction of the oldest
    entry when the table is full, against the history of the frames seen. */
module SwitchTable {
  import opened Options
  import opened Sets

  type Addr = int

  datatype Entry = Entry(port: int, time: int)

  type Table = map<Addr, Entry>

  /** A limit of 0 means no limit. */
  datatype Config = Config(ports: nat, limit: nat, aging: int)

  predicate Aged(c: Config, e: Entry, now: int) {
    e.time + c.aging <= now
  }

  // ------------------------------------------------------------- operations

  function Young(c: Config, t: Table, now: int): Table {
    map a | a in t && !Aged(c, t[a], now) :: t[a]
  }

  predicate IsOldest(t: Table, a: Addr) {
    a in t && forall b :: b in t ==> t[a].time <= t[b].time
  }

  /** The entry to evict: the oldest, and the first of equally old ones. */
  predicate IsVictim(t: Table, v: Addr) {
    IsOldest(t, v) && forall b :: b in t && t[b].time == t[v].time ==> v <= b
  }

  /** u is t with room for one more entry: aged entries go, then the oldest. */
  ghost predicate MakesRoom(c: Config, t: Table, now: int, u: Table) {
    if c.limit == 0 || |t| != c.limit then u == t
    else
      var y := Young(c, t, now);
      if |y| != c.limit then u == y
      else exists v :: IsVictim(y, v) && u == y - {v}
  }

  /** updateTableWithAddress. */
  ghost predicate Learns(c: Config, t: Table, now: int, a: Addr, port: int, t': Table) {
    if a in t then t' == t[a := Entry(port, now)]
    else exists u :: MakesRoom(c, t, now, u) && t' == u[a := Entry(port, now)]
  }

  datatype Found = Found(table: Table, port: Option<int>)

  /** getPortForAddress: an aged entry is thrown out, not used. */
  function Lookup(c: Config, t: Table, now: int, a: Addr): Found {
    if a !in t then Found(t, None)
    else if Aged(c, t[a], now) then Found(t - {a}, None)
    else Found(t, Some(t[a].port))
  }

  /** All ports from i on except the input port. */
  function Others(c: Config, input: int, i: nat): seq<int>
    requires i <= c.ports
    decreases c.ports - i
  {
    if i == c.ports then []
    else (if i != input then [i] else []) + Others(c, input, i + 1)
  }

  // ---------------------------------------------------------------- history

  /** A frame handled: its source, destination (None: broadcast), input port and time. */
  datatype Seen = Seen(src: Addr, dest: Option<Addr>, port: int, time: int)

  /** What was last seen of each address, preloaded entries included. */
  function Latest(preload: Table, seen: seq<Seen>): Table {
    if seen == [] then preload
    else
      var f := seen[|seen| - 1];
      Latest(preload, seen[..|seen| - 1])[f.src := Entry(f.port, f.time)]
  }

  /** Other addresses seen no earlier than a. */
  function SeenSince(last: Table, a: Addr): set<Addr>
    requires a in last
  {
    set b | b in last && b != a && last[b].time >= last[a].time
  }

  predicate Crowded(c: Config, last: Table, a: Addr)
    requires a in last
  {
    c.limit != 0 && |SeenSince(last, a)| >= c.limit
  }

  /** The table is what was last seen, but for addresses that are aged or crowded out. */
  ghost predicate Consistent(c: Config, t: Table, last: Table, now: int) {
    && (forall a :: a in t ==> a in last && t[a] == last[a])
    && (forall a :: a in last ==> last[a].time <= now)
    && (forall a :: a in last && a !in t ==> Aged(c, last[a], now) || Crowded(c, last, a))
    && (c.limit != 0 ==> |t| <= c.limit)
  }

  /** Seeing any address crowds no other address less. */
  lemma StaysCrowded(c: Config, last: Table, a: Addr, b: Addr, e: Entry)
    requires a in last && Crowded(c, last, a) && b != a
    requires forall x :: x in last ==> last[x].time <= e.time
    ensures Crowded(c, last[b := e], a)
  {
    SubsetSize(SeenSince(last, a), SeenSince(last[b := e], a));
  }

  /** The entry evicted from a full table is crowded out by the rest and the newcomer. */
  lemma EvictedIsCrowded(c: Config, y: Table, last: Table, v: Addr, a: Addr, e: Entry)
    requires c.limit != 0 && |y| == c.limit && IsOldest(y, v) && a !in y
    requires forall x :: x in y ==> x in last && y[x] == last[x]
    requires forall x :: x in last ==> last[x].time <= e.time
    ensures Crowded(c, last[a := e], v)
  {
    var last' := last[a := e];
    var s := (y.Keys - {v}) + {a};
    forall x | x in s ensures x in SeenSince(last', v) {
      assert x != v && x in last' && last'[x].time >= last'[v].time;
    }
    assert y.Keys == (y.Keys - {v}) + {v};
    assert |s| == |y.Keys - {v}| + 1 == |y.Keys|;
    SubsetSize(s, SeenSince(last', v));
  }

  lemma ConsistentLater(c: Config, t: Table, last: Table, now: int, now': int)
    requires Consistent(c, t, last, now) && now <= now'
    ensures Consistent(c, t, last, now')
  {
  }

  lemma InsertSize(u: Table, a: Addr, e: Entry)
    ensures |u[a := e]| <= |u| + 1 && (a in u ==> |u[a := e]| == |u|)
  {
    assert u[a := e].Keys == u.Keys + {a};
    if a in u { assert u.Keys + {a} == u.Keys; }
  }

  lemma YoungSize(c: Config, t: Table, now: int)
    ensures Young(c, t, now).Keys <= t.Keys && |Young(c, t, now)| <= |t|
  {
    SubsetSize(Young(c, t, now).Keys, t.Keys);
  }

  /** Making room leaves less than the limit, and drops only what is aged now or will
      be crowded out by the newcomer. */
  lemma RoomIsFair(c: Config, t: Table, last: Table, now: int, u: Table, a: Addr, e: Entry)
    requires Consistent(c, t, last, now) && a !in t && e.time == now && MakesRoom(c, t, now, u)
    ensures c.limit != 0 ==> |u| < c.limit
    ensures forall b :: b in u ==> b in t && u[b] == t[b]
    ensures forall b :: b in t && b !in u ==> Aged(c, last[b], now) || Crowded(c, last[a := e], b)
  {
    if c.limit != 0 && |t| == c.limit {
      var y := Young(c, t, now);
      YoungSize(c, t, now);
      if |y| == c.limit {
        var v :| IsOldest(y, v) && u == y - {v};
        assert u.Keys == y.Keys - {v};
        EvictedIsCrowded(c, y, last, v, a, e);
      }
    }
  }

  /** An address that is missing after learning another one. */
  lemma MissingAfterLearning(c: Config, t: Table, last: Table, now: int, a: Addr, e: Entry, u: Table, b: Addr)
    requires Consistent(c, t, last, now) && e.time == now && b != a && b in last && b !in u
    requires a in t ==> u == t
    requires a !in t ==> MakesRoom(c, t, now, u)
    ensures Aged(c, last[b], now) || Crowded(c, last[a := e], b)
  {
    if b in t {
      RoomIsFair(c, t, last, now, u, a, e);
    } else if !Aged(c, last[b], now) {
      StaysCrowded(c, last, b, a, e);
    }
  }

  lemma InsertKeeps(c: Config, u: Table, last: Table, now: int, a: Addr, e: Entry)
    requires e.time == now && (c.limit != 0 ==> |u[a := e]| <= c.limit)
    requires forall x :: x in u ==> x in last && u[x] == last[x]
    requires forall x :: x in last ==> last[x].time <= now
    requires forall b :: b in last && b != a && b !in u ==> Aged(c, last[b], now) || Crowded(c, last[a := e], b)
    ensures Consistent(c, u[a := e], last[a := e], now)
  {
  }

  /** Learning keeps the table consistent with the history. */
  lemma LearnKeeps(c: Config, t: Table, last: Table, now: int, a: Addr, port: int, t': Table)
    requires Consistent(c, t, last, now) && Learns(c, t, now, a, port, t')
    ensures Consistent(c, t', last[a := Entry(port, now)], now)
  {
    var e := Entry(port, now);
    var u := t;
    if a !in t {
      u :| MakesRoom(c, t, now, u) && t' == u[a := e];
      RoomIsFair(c, t, last, now, u, a, e);
    }
    InsertSize(u, a, e);
    forall b | b in last && b != a && b !in u ensures Aged(c, last[b], now) || Crowded(c, last[a := e], b) {
      MissingAfterLearning(c, t, last, now, a, e, u, b);
    }
    InsertKeeps(c, u, last, now, a, e);
  }

  lemma LookupKeeps(c: Config, t: Table, last: Table, now: int, a: Addr)
    requires Consistent(c, t, last, now)
    ensures Consistent(c, Lookup(c, t, now, a).table, last, now)
  {
    SubsetSize((t - {a}).Keys, t.Keys);
  }

  /** What a lookup tells about the history, and what a miss means. */
  lemma LookupMeans(c: Config, t: Table, last: Table, now: int, a: Addr)
    requires Consistent(c, t, last, now)
    ensures match Lookup(c, t, now, a).port
            case Some(p) => a in last && last[a].port == p && !Aged(c, last[a], now)
            case None => a !in last || Aged(c, last[a], now) || Crowded(c, last, a)
    ensures c.limit == 0 ==>
              (Lookup(c, t, now, a).port.Some? <==> a in last && !Aged(c, last[a], now))
  {
  }

  /** A lookup forgets the entry it looks up exactly if that is aged, and no other. */
  lemma LookupForgets(c: Config, t: Table, now: int, a: Addr)
    ensures var u := Lookup(c, t, now, a).table;
            && (forall b :: b in u <==> b in t && !(b == a && t[b].time + c.aging <= now))
            && (forall b :: b in u ==> u[b] == t[b])
  {
  }

  /** A full table into which a new address is learned keeps no aged entry. */
  lemma LearnPurges(c: Config, t: Table, now: int, a: Addr, port: int, t': Table, b: Addr)
    requires Learns(c, t, now, a, port, t') && a !in t && c.limit != 0 && |t| == c.limit && b in t' && b != a
    ensures b in t && t'[b] == t[b] && now < t[b].time + c.aging
  {
  }

  /** A table with more entries than the limit, as a preload may be, loses none. */
  lemma LearnOverfull(c: Config, t: Table, now: int, a: Addr, port: int, t': Table)
    requires Learns(c, t, now, a, port, t') && c.limit != 0 && |t| > c.limit
    ensures t' == t[a := Entry(port, now)]
  {
  }

  /** What is learned is determined, ties between equally old entries included. */
  lemma LearnsUnique(c: Config, t: Table, now: int, a: Addr, port: int, t1: Table, t2: Table)
    requires Learns(c, t, now, a, port, t1) && Learns(c, t, now, a, port, t2)
    ensures t1 == t2
  {
    if a !in t {
      var u1 :| MakesRoom(c, t, now, u1) && t1 == u1[a := Entry(port, now)];
      var u2 :| MakesRoom(c, t, now, u2) && t2 == u2[a := Entry(port, now)];
      var y := Young(c, t, now);
      if c.limit != 0 && |t| == c.limit && |y| == c.limit {
        var v1 :| IsVictim(y, v1) && u1 == y - {v1};
        var v2 :| IsVictim(y, v2) && u2 == y - {v2};
        assert y[v1].time == y[v2].time && v1 == v2;
      }
    }
  }

  // ------------------------------------------------------------------ runs

  /** handleAndDispatchFrame: learn the source, then send to the destination's port, to
      all other ports, or nowhere. */
  ghost predicate Handles(c: Config, t: Table, f: Seen, t': Table, sent: seq<int>) {
    exists u :: Learns(c, t, f.time, f.src, f.port, u) &&
      if f.dest.None? then t' == u && sent == Others(c, f.port, 0)
      else
        var r := Lookup(c, u, f.time, f.dest.value);
        t' == r.table && sent == Forward(c, f.port, r.port)
  }

  function Forward(c: Config, input: int, found: Option<int>): seq<int> {
    if found == Some(input) then []
    else if found.Some? && found.value >= 0 then [found.value]
    else Others(c, input, 0)
  }

  /** tables[i] is the table before frame i. */
  ghost predicate Run(c: Config, tables: seq<Table>, seen: seq<Seen>, sent: seq<seq<int>>) {
    && |tables| == |seen| + 1 && |sent| == |seen|
    && (forall i :: 0 <= i < |seen| ==> Handles(c, tables[i], seen[i], tables[i + 1], sent[i]))
    && (forall i, j :: 0 <= i < j < |seen| ==> seen[i].time <= seen[j].time)
    && (forall i :: 0 <= i < |seen| ==> seen[i].time >= 0)
  }

  predicate Preloaded(c: Config, t: Table) {
    (forall a :: a in t ==> t[a].time == 0) && (c.limit != 0 ==> |t| <= c.limit)
  }

  function Now(seen: seq<Seen>): int {
    if seen == [] then 0 else seen[|seen| - 1].time
  }

  lemma HandleKeeps(c: Config, t: Table, last: Table, f: Seen, t': Table, sent: seq<int>)
    requires Consistent(c, t, last, f.time) && Handles(c, t, f, t', sent)
    ensures Consistent(c, t', last[f.src := Entry(f.port, f.time)], f.time)
  {
    var u :| Learns(c, t, f.time, f.src, f.port, u) &&
      if f.dest.None? then t' == u && sent == Others(c, f.port, 0)
      else
        var r := Lookup(c, u, f.time, f.dest.value);
        t' == r.table && sent == Forward(c, f.port, r.port);
    LearnKeeps(c, t, last, f.time, f.src, f.port, u);
    if f.dest.Some? { LookupKeeps(c, u, last[f.src := Entry(f.port, f.time)], f.time, f.dest.value); }
  }

  /** Main result: after every run the table agrees with the history. */
  lemma {:induction false} RunKeepsConsistent(c: Config, tables: seq<Table>, seen: seq<Seen>, sent: seq<seq<int>>)
    requires Run(c, tables, seen, sent) && Preloaded(c, tables[0])
    ensures Consistent(c, tables[|seen|], Latest(tables[0], seen), Now(seen))
    decreases |seen|
  {
    if seen != [] {
      var n := |seen| - 1;
      RunKeepsConsistent(c, tables[..n + 1], seen[..n], sent[..n]);
      var last := Latest(tables[0], seen[..n]);
      ConsistentLater(c, tables[n], last, Now(seen[..n]), seen[n].time);
      HandleKeeps(c, tables[n], last, seen[n], tables[n + 1], sent[n]);
    }
  }

  /** Spelled out: in a run, a port found for an address at a later time is the port of
      the last frame from it, seen less than the aging time ago; without a limit every
      such address is found; with limit N the table holds at most N entries and a
      missing address is unseen, aged, or has had N others seen no earlier. */
  lemma TableAgreesWithHistory(c: Config, tables: seq<Table>, seen: seq<Seen>, sent: seq<seq<int>>, a: Addr, now: int)
    requires Run(c, tables, seen, sent) && Preloaded(c, tables[0]) && now >= Now(seen)
    ensures var last := Latest(tables[0], seen);
            match Lookup(c, tables[|seen|], now, a).port
            case Some(p) => a in last && last[a].port == p && now < last[a].time + c.aging
            case None => a !in last || now >= last[a].time + c.aging || Crowded(c, last, a)
    ensures c.limit == 0 ==>
              var last := Latest(tables[0], seen);
              (Lookup(c, tables[|seen|], now, a).port.Some? <==> a in last && now < last[a].time + c.aging)
    ensures c.limit != 0 ==> |tables[|seen|]| <= c.limit
  {
    RunKeepsConsistent(c, tables, seen, sent);
    var last := Latest(tables[0], seen);
    ConsistentLater(c, tables[|seen|], last, Now(seen), now);
    LookupMeans(c, tables[|seen|], last, now, a);
  }

  // -------------------------------------------------------------- flooding

  /** Every other port exactly once, in order, and never the input port. */
  lemma {:induction false} OthersOnce(c: Config, input: int, i: nat)
    requires i <= c.ports
    ensures forall p :: p in Others(c, input, i) <==> i <= p < c.ports && p != input
    ensures forall j, k :: 0 <= j < k < |Others(c, input, i)| ==> Others(c, input, i)[j] < Others(c, input, i)[k]
    decreases c.ports - i
  {
    if i < c.ports {
      OthersOnce(c, input, i + 1);
      var rest := Others(c, input, i + 1);
      assert forall k :: 0 <= k < |rest| ==> rest[k] in rest;
    }
  }

  /** No frame ever goes back where it came from. */
  lemma NeverSentBack(c: Config, t: Table, f: Seen, t': Table, sent: seq<int>)
    requires Handles(c, t, f, t', sent)
    ensures f.port !in sent
  {
    OthersOnce(c, f.port, 0);
  }

  // ------------------------------------------------------------- forwarding

  /** Once to every port but the input. */
  ghost predicate Floods(c: Config, input: int, sent: seq<int>) {
    && (forall p :: p in sent <==> 0 <= p < c.ports && p != input)
    && (forall i, j :: 0 <= i < j < |sent| ==> sent[i] < sent[j])
  }

  /** To the port alone, or nowhere if that is the input; a port that is none floods. */
  ghost predicate SendsTo(c: Config, input: int, port: int, sent: seq<int>) {
    if port == input then sent == [] else if port >= 0 then sent == [port] else Floods(c, input, sent)
  }

  /** What the history says about a frame, itself included: a broadcast, and a frame to an
      address not seen within the aging time, is flooded; any other goes to the port where
      its destination was seen last, unless a limited table was too crowded to know. */
  ghost predicate Forwarded(c: Config, last: Table, f: Seen, sent: seq<int>) {
    if f.dest.None? then Floods(c, f.port, sent)
    else
      var a := f.dest.value;
      if a !in last || Aged(c, last[a], f.time) then Floods(c, f.port, sent)
      else
        || SendsTo(c, f.port, last[a].port, sent)
        || (c.limit != 0 && Crowded(c, last, a) && Floods(c, f.port, sent))
  }

  lemma OthersFlood(c: Config, input: int)
    ensures Floods(c, input, Others(c, input, 0))
  {
    OthersOnce(c, input, 0);
  }

  lemma HandledRight(c: Config, t: Table, last: Table, f: Seen, t': Table, sent: seq<int>)
    requires Consistent(c, t, last, f.time) && Handles(c, t, f, t', sent)
    ensures Forwarded(c, last[f.src := Entry(f.port, f.time)], f, sent)
  {
    var u :| Learns(c, t, f.time, f.src, f.port, u) &&
      if f.dest.None? then t' == u && sent == Others(c, f.port, 0)
      else
        var r := Lookup(c, u, f.time, f.dest.value);
        t' == r.table && sent == Forward(c, f.port, r.port);
    LearnKeeps(c, t, last, f.time, f.src, f.port, u);
    OthersFlood(c, f.port);
    if f.dest.Some? { LookupMeans(c, u, last[f.src := Entry(f.port, f.time)], f.time, f.dest.value); }
  }

  /** Main result on forwarding: every frame of every run goes where the history says. */
  lemma RunForwards(c: Config, tables: seq<Table>, seen: seq<Seen>, sent: seq<seq<int>>, i: nat)
    requires Run(c, tables, seen, sent) && Preloaded(c, tables[0]) && i < |seen|
    ensures Forwarded(c, Latest(tables[0], seen[..i + 1]), seen[i], sent[i])
  {
    RunKeepsConsistent(c, tables[..i + 1], seen[..i], sent[..i]);
    var last := Latest(tables[0], seen[..i]);
    ConsistentLater(c, tables[i], last, Now(seen[..i]), seen[i].time);
    HandledRight(c, tables[i], last, seen[i], tables[i + 1], sent[i]);
    assert seen[..i + 1][..i] == seen[..i];
  }

  // ---------------------------------------------------------------- the class

  class MACRelayUnitBase {
    const c: Config
    var now: int
    var addresstable: Table
    ghost var last: Table   // what was last seen of each address

    /** The table agrees with the history. */
    ghost predicate Valid()
      reads this
    {
      Consistent(c, addresstable, last, now)
    }

    constructor (config: Config, preload: Table)
      ensures c == config && addresstable == preload && last == preload && now == 0
      ensures Preloaded(config, preload) ==> Valid()
    {
      c := config;
      addresstable, last := preload, preload;
      now := 0;
    }

    method Advance(t: int)
      requires Valid() && t >= now
      modifies this`now
      ensures Valid() && now == t
    {
      ConsistentLater(c, addresstable, last, now, t);
      now := t;
    }

    method RemoveAgedEntriesFromTable()
      modifies this`addresstable
      ensures addresstable == Young(c, old(addresstable), now)
    {
      var todo: set<Addr> := addresstable.Keys;
      while todo != {}
        invariant forall a :: a in addresstable <==>
                    a in old(addresstable) && (a in todo || !Aged(c, old(addresstable)[a], now))
        invariant forall a :: a in addresstable ==> addresstable[a] == old(addresstable)[a]
        invariant todo <= old(addresstable).Keys
        decreases todo
      {
        var cur := Pick(todo);
        todo := todo - {cur};
        if addresstable[cur].time + c.aging <= now {
          addresstable := addresstable - {cur};
        }
      }
      assert todo == {};
      ghost var young := Young(c, old(addresstable), now);
      assert forall a :: a in addresstable <==> a in young;
      assert forall a :: a in addresstable ==> addresstable[a] == young[a];
      assert addresstable == young;
    }

    /** The source starts from now + 1, later than any entry. */
    method RemoveOldestTableEntry()
      requires forall a :: a in addresstable ==> addresstable[a].time <= now
      modifies this`addresstable
      ensures if old(addresstable) == map[] then addresstable == map[]
              else exists v :: IsVictim(old(addresstable), v) && addresstable == old(addresstable) - {v}
    {
      var oldest: Option<Addr> := None;
      var oldestInsertTime := now + 1;
      var todo: set<Addr> := addresstable.Keys;
      while todo != {}
        invariant todo <= addresstable.Keys && addresstable == old(addresstable)
        invariant forall a :: a in addresstable && a !in todo ==>
                    oldest.Some? && oldestInsertTime <= addresstable[a].time
        invariant oldest.None? ==> oldestInsertTime == now + 1
        invariant oldest.Some? ==> oldest.value in addresstable && oldest.value !in todo
        invariant oldest.Some? ==> addresstable[oldest.value].time == oldestInsertTime
        invariant forall a, b :: a in addresstable && a !in todo && b in todo ==> a < b
        invariant forall a :: a in addresstable && a !in todo && addresstable[a].time == oldestInsertTime ==>
                    oldest.value <= a
        decreases todo
      {
        var a := PickLeast(todo);
        todo := todo - {a};
        if addresstable[a].time < oldestInsertTime {
          oldest := Some(a);
          oldestInsertTime := addresstable[a].time;
        }
      }
      if oldest.None? {
        assert todo == {};
        assert forall a :: a !in addresstable;
      } else {
        assert todo == {};
        assert IsVictim(old(addresstable), oldest.value);
        addresstable := addresstable - {oldest.value};
      }
    }

    /** The table follows the history: this address was seen on this port, now. */
    method UpdateTableWithAddress(address: Addr, portno: int)
      requires Valid()
      modifies this`addresstable, this`last
      ensures Valid() && last == old(last)[address := Entry(portno, now)]
      ensures Learns(c, old(addresstable), now, address, portno, addresstable)
    {
      ghost var was := addresstable;
      if address !in addresstable {
        ghost var t := addresstable;
        if c.limit != 0 && |addresstable| == c.limit {
          RemoveAgedEntriesFromTable();
          if |addresstable| == c.limit {
            RemoveOldestTableEntry();
          }
        }
        assert MakesRoom(c, t, now, addresstable);
        addresstable := addresstable[address := Entry(portno, now)];
      } else {
        addresstable := addresstable[address := Entry(portno, now)];
      }
      LearnKeeps(c, was, last, now, address, portno, addresstable);
      last := last[address := Entry(portno, now)];
    }

    /** A hit is the port on which the address was seen last, less than the aging time ago;
        a miss means that it was not, or that too many others were seen since. */
    method GetPortForAddress(address: Addr) returns (port: Option<int>)
      requires Valid()
      modifies this`addresstable
      ensures Valid() && Found(addresstable, port) == Lookup(c, old(addresstable), now, address)
      ensures port.Some? ==> address in last && last[address].port == port.value && !Aged(c, last[address], now)
      ensures port.None? ==> address !in last || Aged(c, last[address], now) || Crowded(c, last, address)
    {
      LookupKeeps(c, addresstable, last, now, address);
      LookupMeans(c, addresstable, last, now, address);
      if address !in addresstable { return None; }
      if addresstable[address].time + c.aging <= now {
        addresstable := addresstable - {address};
        return None;
      }
      return Some(addresstable[address].port);
    }

    method BroadcastFrame(input: int) returns (sent: seq<int>)
      ensures sent == Others(c, input, 0)
    {
      sent := [];
      var i := 0;
      while i < c.ports
        invariant 0 <= i <= c.ports && sent + Others(c, input, i) == Others(c, input, 0)
      {
        if i != input { sent := sent + [i]; }
        i := i + 1;
      }
    }

    method HandleAndDispatchFrame(src: Addr, dest: Option<Addr>, input: int) returns (sent: seq<int>)
      requires Valid()
      modifies this`addresstable, this`last
      ensures Valid() && last == old(last)[src := Entry(input, now)]
      ensures Handles(c, old(addresstable), Seen(src, dest, input, now), addresstable, sent)
      ensures input !in sent && Forwarded(c, last, Seen(src, dest, input, now), sent)
    {
      ghost var was := last;
      UpdateTableWithAddress(src, input);
      ghost var u := addresstable;
      if dest.None? {
        sent := BroadcastFrame(input);
      } else {
        var output := GetPortForAddress(dest.value);
        if output == Some(input) {
          sent := [];
        } else if output.Some? && output.value >= 0 {
          sent := [output.value];
        } else {
          sent := BroadcastFrame(input);
        }
      }
      assert Learns(c, old(addresstable), now, src, input, u);
      NeverSentBack(c, old(addresstable), Seen(src, dest, input, now), addresstable, sent);
      HandledRight(c, old(addresstable), was, Seen(src, dest, input, now), addresstable, sent);
    }
  }
}
