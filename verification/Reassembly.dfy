/** The reassembly buffer for fragmented datagrams: one main range, extended as
    fragments arrive, and a list of fragments that do not connect to it yet. */
module Reassembly {

  /** Offsets beg up to, not including, end. */
  datatype Region = Region(beg: nat, end: nat, islast: bool)

  datatype Buffer = Buffer(main: Region, frags: seq<Region>)

  const EMPTY: Buffer := Buffer(Region(0, 0, false), [])

  // ---------------------------------------------------------------- merging

  /** A stored fragment that the main range can take in, or has already. */
  predicate Absorbs(main: Region, f: Region) {
    main.end == f.beg || main.beg == f.end || (main.beg <= f.beg && main.end >= f.end)
  }

  function Absorb(main: Region, f: Region): (r: Region)
  {
    if main.end == f.beg then main.(end := f.end, islast := main.islast || f.islast)
    else if main.beg == f.end then main.(beg := f.beg)
    else main
  }

  /** One pass over the list. */
  function Pass(main: Region, frags: seq<Region>): (b: Buffer)
    ensures |b.frags| <= |frags|
    decreases |frags|
  {
    if frags == [] then Buffer(main, [])
    else if Absorbs(main, frags[0]) then Pass(Absorb(main, frags[0]), frags[1..])
    else
      var b := Pass(main, frags[1..]);
      Buffer(b.main, [frags[0]] + b.frags)
  }

  /** Passes until nothing is taken in. */
  function MergeAll(main: Region, frags: seq<Region>): (b: Buffer)
    decreases |frags|
  {
    var b := Pass(main, frags);
    if |b.frags| == |frags| then b else MergeAll(b.main, b.frags)
  }

  function Add(b: Buffer, f: Region): (b': Buffer) {
    if b.main.end == f.beg then
      MergeAll(b.main.(end := f.end, islast := b.main.islast || f.islast), b.frags)
    else if b.main.beg == f.end then
      MergeAll(b.main.(beg := f.beg), b.frags)
    else if b.main.end < f.beg || b.main.beg > f.end then
      b.(frags := b.frags + [f])
    else b
  }

  predicate Complete(b: Buffer) {
    b.main.beg == 0 && b.main.islast
  }

  // --------------------------------------------- against the plain set of offsets

  predicate Covers(r: Region, x: nat) {
    r.beg <= x < r.end
  }

  function Offsets(r: Region): set<nat> {
    set x: nat | x < r.end && Covers(r, x)
  }

  function AllOffsets(frags: seq<Region>): set<nat> {
    if frags == [] then {} else Offsets(frags[0]) + AllOffsets(frags[1..])
  }

  function Held(b: Buffer): set<nat> {
    Offsets(b.main) + AllOffsets(b.frags)
  }

  predicate Ordered(r: Region) {
    r.beg <= r.end
  }

  predicate AllOrdered(frags: seq<Region>) {
    forall i :: 0 <= i < |frags| ==> Ordered(frags[i])
  }

  predicate WellFormed(b: Buffer) {
    Ordered(b.main) && AllOrdered(b.frags)
  }

  lemma AbsorbKeepsOffsets(main: Region, f: Region)
    requires Ordered(main) && Ordered(f) && Absorbs(main, f)
    ensures Ordered(Absorb(main, f)) && Offsets(Absorb(main, f)) == Offsets(main) + Offsets(f)
  {
  }

  /** Merging neither invents nor loses an offset. */
  lemma {:induction false} PassKeepsOffsets(main: Region, frags: seq<Region>)
    requires Ordered(main) && AllOrdered(frags)
    ensures WellFormed(Pass(main, frags)) && Held(Pass(main, frags)) == Held(Buffer(main, frags))
    ensures main.beg == 0 ==> Pass(main, frags).main.beg == 0
    decreases |frags|
  {
    if frags != [] {
      if Absorbs(main, frags[0]) {
        AbsorbKeepsOffsets(main, frags[0]);
        PassKeepsOffsets(Absorb(main, frags[0]), frags[1..]);
      } else {
        PassKeepsOffsets(main, frags[1..]);
        var b := Pass(main, frags[1..]);
        assert ([frags[0]] + b.frags)[1..] == b.frags;
      }
    }
  }

  lemma {:induction false} MergeKeepsOffsets(main: Region, frags: seq<Region>)
    requires Ordered(main) && AllOrdered(frags)
    ensures WellFormed(MergeAll(main, frags)) && Held(MergeAll(main, frags)) == Held(Buffer(main, frags))
    ensures main.beg == 0 ==> MergeAll(main, frags).main.beg == 0
    decreases |frags|
  {
    PassKeepsOffsets(main, frags);
    var b := Pass(main, frags);
    if |b.frags| < |frags| { MergeKeepsOffsets(b.main, b.frags); }
  }

  lemma {:induction false} AllOffsetsAppend(frags: seq<Region>, f: Region)
    ensures AllOffsets(frags + [f]) == AllOffsets(frags) + Offsets(f)
  {
    if frags == [] {
      assert frags + [f] == [f];
      assert [f][1..] == [];
    } else {
      assert (frags + [f])[1..] == frags[1..] + [f];
      AllOffsetsAppend(frags[1..], f);
    }
  }

  /** The fragment sticks out of a main range that it overlaps or meets inside: the
      case the code takes for a duplicate although it is not. */
  predicate PartlyOverlaps(main: Region, f: Region) {
    && main.end != f.beg && main.beg != f.end && !(main.end < f.beg || main.beg > f.end)
    && !(main.beg <= f.beg && f.end <= main.end) && f.beg < f.end
  }

  /** What is held grows by exactly the new fragment, unless the fragment partly overlaps
      the main range; then it is dropped. */
  lemma AddHolds(b: Buffer, f: Region)
    requires WellFormed(b) && Ordered(f)
    ensures WellFormed(Add(b, f)) && (b.main.beg == 0 ==> Add(b, f).main.beg == 0)
    ensures if PartlyOverlaps(b.main, f) then Add(b, f) == b else Held(Add(b, f)) == Held(b) + Offsets(f)
  {
    if b.main.end == f.beg {
      AbsorbKeepsOffsets(b.main, f);
      MergeKeepsOffsets(b.main.(end := f.end, islast := b.main.islast || f.islast), b.frags);
    } else if b.main.beg == f.end {
      AbsorbKeepsOffsets(b.main, f);
      MergeKeepsOffsets(b.main.(beg := f.beg), b.frags);
    } else if b.main.end < f.beg || b.main.beg > f.end {
      AllOffsetsAppend(b.frags, f);
    }
  }

  lemma {:induction false} PassSettles(main: Region, frags: seq<Region>)
    requires |Pass(main, frags).frags| == |frags|
    ensures Settled(Buffer(main, frags))
    decreases |frags|
  {
    if frags != [] {
      PassSettles(main, frags[1..]);
      assert forall i :: 0 < i < |frags| ==> frags[i] == frags[1..][i - 1];
    }
  }

  /** No fragment on the list connects to the main range. */
  predicate Settled(b: Buffer) {
    forall i :: 0 <= i < |b.frags| ==> !Absorbs(b.main, b.frags[i])
  }

  /** Merging goes on until no fragment on the list connects to the main range any more. */
  lemma {:induction false} MergeSettles(main: Region, frags: seq<Region>)
    ensures Settled(MergeAll(main, frags))
    decreases |frags|
  {
    var b := Pass(main, frags);
    if |b.frags| == |frags| {
      PassSettles(main, frags);
      PassKeepsAll(main, frags);
    } else {
      MergeSettles(b.main, b.frags);
    }
  }

  /** So does adding a fragment that connects to it, at either end. */
  lemma AddSettles(b: Buffer, f: Region)
    requires f.beg == b.main.end || f.end == b.main.beg
    ensures Settled(Add(b, f))
  {
    MergeSettles(Absorb(b.main, f), b.frags);
  }

  /** The buffer after a sequence of arrivals. */
  function After(arrivals: seq<Region>): (b: Buffer) {
    if arrivals == [] then EMPTY
    else Add(After(arrivals[..|arrivals| - 1]), arrivals[|arrivals| - 1])
  }

  function Received(arrivals: seq<Region>): set<nat> {
    if arrivals == [] then {}
    else Received(arrivals[..|arrivals| - 1]) + Offsets(arrivals[|arrivals| - 1])
  }

  /** For any fragments, overlapping or not: nothing is in the main range that was not
      received, and the main range begins at 0. */
  lemma {:induction false} MainWasReceived(arrivals: seq<Region>)
    requires AllOrdered(arrivals)
    ensures WellFormed(After(arrivals)) && Held(After(arrivals)) <= Received(arrivals)
    ensures After(arrivals).main.beg == 0 && Offsets(After(arrivals).main) <= Received(arrivals)
  {
    if arrivals != [] {
      var n := |arrivals| - 1;
      MainWasReceived(arrivals[..n]);
      AddHolds(After(arrivals[..n]), arrivals[n]);
    }
  }

  // ------------------------------------------------- partitioned datagrams

  /** Cut points of a datagram: it is cut into |cuts| - 1 non-empty fragments. */
  predicate Cuts(cuts: seq<nat>) {
    |cuts| >= 2 && cuts[0] == 0 && forall i, j :: 0 <= i < j < |cuts| ==> cuts[i] < cuts[j]
  }

  function Count(cuts: seq<nat>): nat
    requires Cuts(cuts)
  {
    |cuts| - 1
  }

  function Piece(cuts: seq<nat>, i: nat): Region
    requires Cuts(cuts) && i < Count(cuts)
  {
    Region(cuts[i], cuts[i + 1], i + 1 == Count(cuts))
  }

  /** The first m pieces as one range. */
  function Prefix(cuts: seq<nat>, m: nat): Region
    requires Cuts(cuts) && m <= Count(cuts)
  {
    Region(0, cuts[m], m == Count(cuts))
  }

  predicate Indices(cuts: seq<nat>, idx: seq<nat>)
    requires Cuts(cuts)
  {
    forall k :: 0 <= k < |idx| ==> idx[k] < Count(cuts)
  }

  function Pieces(cuts: seq<nat>, idx: seq<nat>): (s: seq<Region>)
    requires Cuts(cuts) && Indices(cuts, idx)
    ensures |s| == |idx|
  {
    if idx == [] then [] else [Piece(cuts, idx[0])] + Pieces(cuts, idx[1..])
  }

  /** Taking in a piece: the next one extends the range, an earlier one is a duplicate,
      a later one is left alone. */
  lemma PieceAbsorbed(cuts: seq<nat>, m: nat, i: nat)
    requires Cuts(cuts) && m <= Count(cuts) && i < Count(cuts)
    ensures Absorbs(Prefix(cuts, m), Piece(cuts, i)) <==> i <= m
    ensures i < m ==> Absorb(Prefix(cuts, m), Piece(cuts, i)) == Prefix(cuts, m)
    ensures i == m ==> Absorb(Prefix(cuts, m), Piece(cuts, i)) == Prefix(cuts, m + 1)
  {
    assert cuts[0] < cuts[i + 1];
  }

  /** The same on piece numbers: the first m pieces, and the ones waiting. */
  datatype Numbered = Numbered(m: nat, waiting: seq<nat>)

  function NumberPass(m: nat, idx: seq<nat>): (r: Numbered)
    ensures r.m >= m && |r.waiting| <= |idx|
    ensures |r.waiting| == |idx| ==> r == Numbered(m, idx) && forall i :: i in idx ==> i > m
    ensures forall i :: i in r.waiting ==> i in idx
    ensures forall i :: i in idx && i >= r.m ==> i in r.waiting
    ensures forall i :: m <= i < r.m ==> i in idx
    decreases |idx|
  {
    assert forall i :: i in idx <==> idx != [] && (i == idx[0] || i in idx[1..]);
    if idx == [] then Numbered(m, [])
    else if idx[0] < m then NumberPass(m, idx[1..])
    else if idx[0] == m then NumberPass(m + 1, idx[1..])
    else
      var r := NumberPass(m, idx[1..]);
      Numbered(r.m, [idx[0]] + r.waiting)
  }

  function NumberMerge(m: nat, idx: seq<nat>): (r: Numbered)
    ensures r.m >= m
    ensures forall i :: i in r.waiting ==> i in idx && i > r.m
    ensures forall i :: i in idx && i >= r.m ==> i in r.waiting
    ensures forall i :: m <= i < r.m ==> i in idx
    decreases |idx|
  {
    var r := NumberPass(m, idx);
    if |r.waiting| == |idx| then r else NumberMerge(r.m, r.waiting)
  }

  predicate Bounded(cuts: seq<nat>, r: Numbered)
    requires Cuts(cuts)
  {
    r.m <= Count(cuts) && Indices(cuts, r.waiting)
  }

  function Denote(cuts: seq<nat>, r: Numbered): Buffer
    requires Cuts(cuts) && Bounded(cuts, r)
  {
    Buffer(Prefix(cuts, r.m), Pieces(cuts, r.waiting))
  }

  lemma {:induction false} PassOnPieces(cuts: seq<nat>, m: nat, idx: seq<nat>)
    requires Cuts(cuts) && m <= Count(cuts) && Indices(cuts, idx)
    ensures Bounded(cuts, NumberPass(m, idx))
    ensures Pass(Prefix(cuts, m), Pieces(cuts, idx)) == Denote(cuts, NumberPass(m, idx))
    decreases |idx|
  {
    if idx != [] {
      var i, rest := idx[0], idx[1..];
      PieceAbsorbed(cuts, m, i);
      assert Pieces(cuts, idx)[1..] == Pieces(cuts, rest);
      if i < m {
        PassOnPieces(cuts, m, rest);
      } else if i == m {
        PassOnPieces(cuts, m + 1, rest);
      } else {
        PassOnPieces(cuts, m, rest);
        var w := NumberPass(m, rest).waiting;
        assert ([i] + w)[1..] == w;
      }
    }
  }

  lemma {:induction false} MergeOnPieces(cuts: seq<nat>, m: nat, idx: seq<nat>)
    requires Cuts(cuts) && m <= Count(cuts) && Indices(cuts, idx)
    ensures Bounded(cuts, NumberMerge(m, idx))
    ensures MergeAll(Prefix(cuts, m), Pieces(cuts, idx)) == Denote(cuts, NumberMerge(m, idx))
    decreases |idx|
  {
    PassOnPieces(cuts, m, idx);
    var r := NumberPass(m, idx);
    if |r.waiting| < |idx| { MergeOnPieces(cuts, r.m, r.waiting); }
  }

  /** Exactly the pieces below m, and those waiting above it, have arrived. */
  ghost predicate Accounts(r: Numbered, arrived: set<nat>) {
    && (forall i :: 0 <= i < r.m ==> i in arrived) && r.m !in arrived
    && (forall i :: i in r.waiting <==> i in arrived && i > r.m)
  }

  function NumberAdd(r: Numbered, i: nat): Numbered {
    if i == r.m then NumberMerge(r.m + 1, r.waiting)
    else if i > r.m then r.(waiting := r.waiting + [i])
    else r
  }

  lemma {:induction false} PiecesAppend(cuts: seq<nat>, idx: seq<nat>, i: nat)
    requires Cuts(cuts) && Indices(cuts, idx) && i < Count(cuts)
    ensures Indices(cuts, idx + [i]) && Pieces(cuts, idx + [i]) == Pieces(cuts, idx) + [Piece(cuts, i)]
  {
    if idx == [] {
      assert idx + [i] == [i];
      assert [i][1..] == [];
    } else {
      assert (idx + [i])[1..] == idx[1..] + [i];
      PiecesAppend(cuts, idx[1..], i);
    }
  }

  lemma AddOnPieces(cuts: seq<nat>, r: Numbered, i: nat)
    requires Cuts(cuts) && Bounded(cuts, r) && i < Count(cuts)
    ensures Bounded(cuts, NumberAdd(r, i))
    ensures Add(Denote(cuts, r), Piece(cuts, i)) == Denote(cuts, NumberAdd(r, i))
  {
    assert cuts[0] < cuts[i + 1];
    if i == r.m {
      MergeOnPieces(cuts, r.m + 1, r.waiting);
    } else if i > r.m {
      PiecesAppend(cuts, r.waiting, i);
    } else {
      assert cuts[i] < cuts[r.m] && cuts[i + 1] <= cuts[r.m];
    }
  }

  lemma NumberAddAccounts(r: Numbered, i: nat, arrived: set<nat>)
    requires Accounts(r, arrived)
    ensures Accounts(NumberAdd(r, i), arrived + {i})
  {
    if i > r.m {
      assert forall j :: j in r.waiting + [i] <==> j in r.waiting || j == i;
    }
  }

  function ToSet(idx: seq<nat>): set<nat> {
    set i | i in idx
  }

  lemma {:induction false} ArrivalsAccounted(cuts: seq<nat>, idx: seq<nat>) returns (r: Numbered)
    requires Cuts(cuts) && Indices(cuts, idx)
    ensures Bounded(cuts, r) && After(Pieces(cuts, idx)) == Denote(cuts, r) && Accounts(r, ToSet(idx))
    decreases |idx|
  {
    if idx == [] {
      r := Numbered(0, []);
    } else {
      var n := |idx| - 1;
      var r0 := ArrivalsAccounted(cuts, idx[..n]);
      var i := idx[n];
      assert idx == idx[..n] + [i];
      PiecesAppend(cuts, idx[..n], i);
      var all := Pieces(cuts, idx);
      assert all[..n] == Pieces(cuts, idx[..n]) && all[n] == Piece(cuts, i);
      AddOnPieces(cuts, r0, i);
      NumberAddAccounts(r0, i, ToSet(idx[..n]));
      assert ToSet(idx) == ToSet(idx[..n]) + {i};
      r := NumberAdd(r0, i);
    }
  }

  /** Main result: however the pieces of a datagram arrive, in any order and any number
      of times, reassembly is complete exactly when all of them have arrived, and the
      total length is then the datagram's. */
  lemma CompleteIffAllArrived(cuts: seq<nat>, idx: seq<nat>)
    requires Cuts(cuts) && Indices(cuts, idx)
    ensures Complete(After(Pieces(cuts, idx))) <==> forall i :: 0 <= i < Count(cuts) ==> i in idx
    ensures Complete(After(Pieces(cuts, idx))) ==> After(Pieces(cuts, idx)).main.end == cuts[|cuts| - 1]
  {
    var r := ArrivalsAccounted(cuts, idx);
    if r.m < Count(cuts) { assert r.m !in ToSet(idx); }
    forall i | 0 <= i < r.m ensures i in idx { assert i in ToSet(idx); }
  }

  // ------------------------------------------------ overlapping fragments

  predicate AllNonEmpty(fs: seq<Region>) {
    forall i :: 0 <= i < |fs| ==> fs[i].beg < fs[i].end
  }

  /** Fragments that begin at the same offset are copies of each other. */
  predicate BeginsDistinct(fs: seq<Region>) {
    forall i, j :: 0 <= i < |fs| && 0 <= j < |fs| && fs[i].beg == fs[j].beg ==> fs[i] == fs[j]
  }

  /** The index of a fragment that begins at x, or the number of fragments. */
  function Find(fs: seq<Region>, x: nat): (i: nat)
    ensures i <= |fs|
    ensures i < |fs| ==> fs[i].beg == x
    ensures i == |fs| ==> forall j :: 0 <= j < |fs| ==> fs[j].beg != x
  {
    if fs == [] || fs[0].beg == x then 0 else 1 + Find(fs[1..], x)
  }

  /** The largest end. */
  function Reach(fs: seq<Region>): (n: nat)
    ensures forall i :: 0 <= i < |fs| ==> fs[i].end <= n
  {
    if fs == [] then 0
    else
      var n := Reach(fs[1..]);
      if n < fs[0].end then fs[0].end else n
  }

  /** A range taken on as far as it goes, each time by the fragment that begins at its end. */
  function Chain(fs: seq<Region>, r: Region): (r': Region)
    requires AllNonEmpty(fs)
    decreases Reach(fs) - r.end
  {
    var i := Find(fs, r.end);
    if i == |fs| then r else Chain(fs, Joined(r, fs[i]))
  }

  function Joined(r: Region, f: Region): Region {
    Region(r.beg, f.end, r.islast || f.islast)
  }

  /** The main range is a stage of the chain, and a fragment not yet passed is listed. */
  ghost predicate OnChain(all: seq<Region>, b: Buffer)
    requires AllNonEmpty(all)
  {
    b.main.beg == 0 && Chain(all, b.main) == Chain(all, EMPTY.main) && Among(b.frags, all)
  }

  ghost predicate Among(fs: seq<Region>, all: seq<Region>) {
    forall k :: 0 <= k < |fs| ==> fs[k] in all
  }

  /** A fragment has been passed by the main range, or is on the list. */
  ghost predicate Placed(b: Buffer, f: Region) {
    f.beg < b.main.end || f in b.frags
  }

  /** The fragment that begins at the end of the range is the next one of the chain. */
  lemma ChainTakes(all: seq<Region>, r: Region, f: Region)
    requires AllNonEmpty(all) && BeginsDistinct(all) && f in all && f.beg == r.end
    ensures Chain(all, r) == Chain(all, Joined(r, f))
  {
    var i := Find(all, r.end);
    var j :| 0 <= j < |all| && all[j] == f;
    assert all[i] == all[j];
  }

  lemma AbsorbOnChain(all: seq<Region>, main: Region, f: Region)
    requires AllNonEmpty(all) && BeginsDistinct(all) && f in all && main.beg == 0 && Absorbs(main, f)
    ensures Absorb(main, f).beg == 0 && Chain(all, Absorb(main, f)) == Chain(all, main)
    ensures main.end <= Absorb(main, f).end && f.beg < Absorb(main, f).end
  {
    assert f.beg < f.end by {
      var j :| 0 <= j < |all| && all[j] == f;
    }
    if main.end == f.beg { ChainTakes(all, main, f); }
  }

  lemma {:induction false} PassOnChain(all: seq<Region>, main: Region, frags: seq<Region>)
    requires AllNonEmpty(all) && BeginsDistinct(all) && OnChain(all, Buffer(main, frags))
    ensures OnChain(all, Pass(main, frags)) && main.end <= Pass(main, frags).main.end
    ensures forall f :: f in frags ==> Placed(Pass(main, frags), f)
    ensures |Pass(main, frags).frags| == |frags| ==> Pass(main, frags).main == main && Idle(main, frags)
    decreases |frags|
  {
    if frags != [] {
      var f, rest := frags[0], frags[1..];
      assert forall g :: g in frags <==> g == f || g in rest;
      if Absorbs(main, f) {
        AbsorbOnChain(all, main, f);
        PassOnChain(all, Absorb(main, f), rest);
      } else {
        PassOnChain(all, main, rest);
        var b := Pass(main, rest);
        assert forall g :: g in [f] + b.frags <==> g == f || g in b.frags;
      }
    }
  }

  /** No listed fragment begins at the end of the main range. */
  predicate Idle(main: Region, frags: seq<Region>) {
    forall k :: 0 <= k < |frags| ==> frags[k].beg != main.end
  }

  lemma {:induction false} MergeOnChain(all: seq<Region>, main: Region, frags: seq<Region>)
    requires AllNonEmpty(all) && BeginsDistinct(all) && OnChain(all, Buffer(main, frags))
    ensures var b := MergeAll(main, frags); OnChain(all, b) && main.end <= b.main.end && Idle(b.main, b.frags)
    ensures forall f :: f in frags ==> Placed(MergeAll(main, frags), f)
    decreases |frags|
  {
    PassOnChain(all, main, frags);
    var b := Pass(main, frags);
    if |b.frags| < |frags| {
      MergeOnChain(all, b.main, b.frags);
    } else {
      PassKeepsAll(main, frags);
    }
  }

  lemma {:induction false} PassKeepsAll(main: Region, frags: seq<Region>)
    requires |Pass(main, frags).frags| == |frags|
    ensures Pass(main, frags) == Buffer(main, frags)
    decreases |frags|
  {
    if frags != [] { PassKeepsAll(main, frags[1..]); }
  }

  lemma AddOnChain(all: seq<Region>, b: Buffer, f: Region)
    requires AllNonEmpty(all) && BeginsDistinct(all) && OnChain(all, b) && Idle(b.main, b.frags) && f in all
    ensures var b' := Add(b, f); OnChain(all, b') && Idle(b'.main, b'.frags) && Placed(b', f)
    ensures forall g :: Placed(b, g) ==> Placed(Add(b, f), g)
  {
    assert f.beg < f.end by {
      var j :| 0 <= j < |all| && all[j] == f;
    }
    if b.main.end == f.beg {
      ChainTakes(all, b.main, f);
      MergeOnChain(all, Joined(b.main, f), b.frags);
    } else if b.main.end < f.beg {
      var more := b.frags + [f];
      assert forall g :: g in more <==> g in b.frags || g == f;
    }
  }

  lemma {:induction false} AfterOnChain(all: seq<Region>, n: nat)
    requires AllNonEmpty(all) && BeginsDistinct(all) && n <= |all|
    ensures var b := After(all[..n]); OnChain(all, b) && Idle(b.main, b.frags)
    ensures forall i :: 0 <= i < n ==> Placed(After(all[..n]), all[i])
  {
    if n > 0 {
      AfterOnChain(all, n - 1);
      assert all[..n][..n - 1] == all[..n - 1];
      AddOnChain(all, After(all[..n - 1]), all[n - 1]);
    }
  }

  /** Main result for fragments that may overlap: in whatever order they arrive, the main
      range is the chain from 0 of fragments that each begin where the one before ends,
      and reassembly is complete exactly if a last fragment is on that chain. */
  lemma MainIsChain(arrivals: seq<Region>)
    requires AllNonEmpty(arrivals) && BeginsDistinct(arrivals)
    ensures After(arrivals).main == Chain(arrivals, EMPTY.main)
    ensures Complete(After(arrivals)) <==> Chain(arrivals, EMPTY.main).islast
  {
    var n := |arrivals|;
    assert arrivals[..n] == arrivals;
    AfterOnChain(arrivals, n);
    var b := After(arrivals);
    var i := Find(arrivals, b.main.end);
    assert i == n || Placed(b, arrivals[i]);
  }

  /** Hence the order does not matter. */
  lemma OrderIsIrrelevant(fs: seq<Region>, gs: seq<Region>)
    requires AllNonEmpty(fs) && BeginsDistinct(fs)
    requires forall f :: f in fs <==> f in gs
    ensures Complete(After(fs)) <==> Complete(After(gs))
    ensures After(fs).main == After(gs).main
  {
    assert AllNonEmpty(gs) by {
      forall i | 0 <= i < |gs| ensures gs[i].beg < gs[i].end { assert gs[i] in fs; }
    }
    assert BeginsDistinct(gs) by {
      forall i, j | 0 <= i < |gs| && 0 <= j < |gs| && gs[i].beg == gs[j].beg ensures gs[i] == gs[j] {
        assert gs[i] in fs && gs[j] in fs;
      }
    }
    MainIsChain(fs);
    MainIsChain(gs);
    SameChain(fs, gs, EMPTY.main);
  }

  lemma {:induction false} SameChain(fs: seq<Region>, gs: seq<Region>, r: Region)
    requires AllNonEmpty(fs) && BeginsDistinct(fs) && AllNonEmpty(gs) && BeginsDistinct(gs)
    requires forall f :: f in fs <==> f in gs
    ensures Chain(fs, r) == Chain(gs, r)
    decreases Reach(fs) - r.end
  {
    var i := Find(fs, r.end);
    if i < |fs| {
      assert fs[i] in gs;
      ChainTakes(gs, r, fs[i]);
      SameChain(fs, gs, Joined(r, fs[i]));
    } else {
      forall j | 0 <= j < |gs| ensures gs[j].beg != r.end { assert gs[j] in fs; }
    }
  }

  // ------------------------------------------------------- any fragments at all

  /** Received fragments, each beginning where the one before ends, the first at 0. */
  predicate IsPath(path: seq<Region>, fs: seq<Region>) {
    && (forall i :: 0 <= i < |path| ==> path[i] in fs)
    && (path != [] ==> path[0].beg == 0)
    && (forall i :: 0 <= i < |path| - 1 ==> path[i].end == path[i + 1].beg)
  }

  predicate EndsAt(path: seq<Region>, end: nat) {
    if path == [] then end == 0 else path[|path| - 1].end == end
  }

  /** A path leads to the end of the range; if that has its last fragment, one leads to a last one. */
  ghost predicate HasPath(fs: seq<Region>, r: Region) {
    && r.beg == 0
    && (exists path :: IsPath(path, fs) && EndsAt(path, r.end))
    && (r.islast ==> LastReached(fs))
  }

  ghost predicate LastReached(fs: seq<Region>) {
    exists path: seq<Region> :: IsPath(path, fs) && path != [] && path[|path| - 1].islast
  }

  lemma PathGrows(fs: seq<Region>, r: Region, f: Region)
    requires HasPath(fs, r) && f in fs && f.beg == r.end
    ensures HasPath(fs, Joined(r, f))
  {
    var path :| IsPath(path, fs) && EndsAt(path, r.end);
    var longer := path + [f];
    assert IsPath(longer, fs) && EndsAt(longer, f.end);
    if f.islast { assert longer[|longer| - 1].islast; }
  }

  lemma {:induction false} PassHasPath(fs: seq<Region>, main: Region, frags: seq<Region>)
    requires AllNonEmpty(fs) && HasPath(fs, main) && Among(frags, fs)
    ensures HasPath(fs, Pass(main, frags).main) && Among(Pass(main, frags).frags, fs)
    decreases |frags|
  {
    if frags != [] {
      var f, rest := frags[0], frags[1..];
      assert f in fs;
      if Absorbs(main, f) {
        assert f.beg < f.end by {
          var j :| 0 <= j < |fs| && fs[j] == f;
        }
        if main.end == f.beg { PathGrows(fs, main, f); }
        PassHasPath(fs, Absorb(main, f), rest);
      } else {
        PassHasPath(fs, main, rest);
      }
    }
  }

  lemma {:induction false} MergeHasPath(fs: seq<Region>, main: Region, frags: seq<Region>)
    requires AllNonEmpty(fs) && HasPath(fs, main) && Among(frags, fs)
    ensures HasPath(fs, MergeAll(main, frags).main) && Among(MergeAll(main, frags).frags, fs)
    decreases |frags|
  {
    PassHasPath(fs, main, frags);
    var b := Pass(main, frags);
    if |b.frags| < |frags| { MergeHasPath(fs, b.main, b.frags); }
  }

  lemma AddHasPath(fs: seq<Region>, b: Buffer, f: Region)
    requires AllNonEmpty(fs) && HasPath(fs, b.main) && Among(b.frags, fs) && f in fs
    ensures HasPath(fs, Add(b, f).main) && Among(Add(b, f).frags, fs)
  {
    assert f.beg < f.end by {
      var j :| 0 <= j < |fs| && fs[j] == f;
    }
    if b.main.end == f.beg {
      PathGrows(fs, b.main, f);
      MergeHasPath(fs, Joined(b.main, f), b.frags);
    }
  }

  lemma {:induction false} AfterHasPath(fs: seq<Region>, n: nat)
    requires AllNonEmpty(fs) && n <= |fs|
    ensures HasPath(fs, After(fs[..n]).main) && Among(After(fs[..n]).frags, fs)
  {
    if n == 0 {
      assert IsPath([], fs) && EndsAt([], 0);
    } else {
      AfterHasPath(fs, n - 1);
      assert fs[..n][..n - 1] == fs[..n - 1];
      AddHasPath(fs, After(fs[..n - 1]), fs[n - 1]);
    }
  }

  /** For any non-empty fragments whatever: if reassembly is complete, received fragments,
      each beginning where the one before ends, lead from 0 to a last one. */
  lemma CompleteHasPath(arrivals: seq<Region>)
    requires AllNonEmpty(arrivals) && Complete(After(arrivals))
    ensures LastReached(arrivals)
  {
    assert arrivals[..|arrivals|] == arrivals;
    AfterHasPath(arrivals, |arrivals|);
  }

  /** The converse fails where different fragments begin at one offset: then it depends on
      which comes first. */
  lemma OrderMatters()
    ensures var f, g := Region(0, 5, false), Region(0, 10, true); Complete(After([g, f])) && !Complete(After([f, g]))
  {
    var f, g := Region(0, 5, false), Region(0, 10, true);
    assert [f, g][..1] == [f] && [g, f][..1] == [g] && [f][..0] == [] && [g][..0] == [];
    assert After([f]) == Buffer(f, []) && After([g]) == Buffer(g, []);
  }

  /** So a datagram can be lost although every offset has come: one fragment sticks out of
      the chain that the others make. */
  lemma OverlapIsLost()
    ensures var fs := [Region(0, 10, false), Region(5, 15, true)];
            Received(fs) == Offsets(Region(0, 15, true)) && !Complete(After(fs))
  {
    var f, g := Region(0, 10, false), Region(5, 15, true);
    var fs := [f, g];
    assert fs[..1] == [f] && [f][..0] == [];
    assert Received([f]) == Offsets(f);
    MainIsChain(fs);
    assert Chain(fs, EMPTY.main) == Chain(fs, f);
  }

  /** Or be complete although fragments overlap: the chain goes past the overlapping one. */
  lemma OverlapIsPassed()
    ensures var fs := [Region(0, 10, false), Region(3, 7, false), Region(10, 15, true)]; Complete(After(fs))
  {
    var f, g, h := Region(0, 10, false), Region(3, 7, false), Region(10, 15, true);
    var fs := [f, g, h];
    MainIsChain(fs);
    assert Find(fs, 10) == 2;
    assert Chain(fs, EMPTY.main) == Chain(fs, f) == Chain(fs, Joined(f, h));
    assert Find(fs, 15) == 3;
  }

  // ---------------------------------------------------------------- the class

  class ReassemblyBuffer {
    var main: Region
    var fragments: seq<Region>

    ghost function Contents(): Buffer
      reads this
    {
      Buffer(main, fragments)
    }

    constructor ()
      ensures Contents() == EMPTY
    {
      main := Region(0, 0, false);
      fragments := [];
    }

    method AddFragment(beg: nat, end: nat, islast: bool) returns (complete: bool)
      modifies this
      ensures Contents() == Add(old(Contents()), Region(beg, end, islast))
      ensures complete <==> Complete(Contents())
    {
      Merge(beg, end, islast);
      return main.beg == 0 && main.islast;
    }

    method Merge(beg: nat, end: nat, islast: bool)
      modifies this
      ensures Contents() == Add(old(Contents()), Region(beg, end, islast))
    {
      if main.end == beg {
        main := main.(end := end);
        if islast { main := main.(islast := true); }
        MergeFragments();
      } else if main.beg == end {
        main := main.(beg := beg);
        MergeFragments();
      } else if main.end < beg || main.beg > end {
        fragments := fragments + [Region(beg, end, islast)];
      }
    }

    method MergeFragments()
      modifies this
      ensures Contents() == MergeAll(old(main), old(fragments))
    {
      var oncemore := true;
      while oncemore
        invariant MergeAll(old(main), old(fragments)) == if oncemore then MergeAll(main, fragments) else Contents()
        decreases |fragments|, oncemore
      {
        oncemore := OnePass();
      }
    }

    /** The inner loop: deletes from the list while walking it. */
    method OnePass() returns (oncemore: bool)
      modifies this
      ensures Contents() == Pass(old(main), old(fragments))
      ensures oncemore <==> |fragments| != old(|fragments|)
      ensures |fragments| <= old(|fragments|)
    {
      oncemore := false;
      var i := 0;
      assert fragments[0..] == fragments;
      while i < |fragments|
        invariant 0 <= i <= |fragments| <= old(|fragments|)
        invariant oncemore <==> |fragments| != old(|fragments|)
        invariant var b := Pass(main, fragments[i..]);
                  Pass(old(main), old(fragments)) == Buffer(b.main, fragments[..i] + b.frags)
        decreases |fragments| - i
      {
        var frag := fragments[i];
        var deleteit := false;
        if main.end == frag.beg {
          main := main.(end := frag.end);
          if frag.islast { main := main.(islast := true); }
          deleteit := true;
        } else if main.beg == frag.end {
          main := main.(beg := frag.beg);
          deleteit := true;
        } else if main.beg <= frag.beg && main.end >= frag.end {
          deleteit := true;
        }
        assert fragments[i..][1..] == fragments[i + 1..];
        if deleteit {
          ghost var was := fragments;
          fragments := fragments[..i] + fragments[i + 1..];
          assert fragments[i..] == was[i + 1..] && fragments[..i] == was[..i];
          oncemore := true;
        } else {
          i := i + 1;
          assert fragments[..i] == fragments[..i - 1] + [frag];
        }
      }
    }
  }
}
