/** TraCI wire format: TraCIBuffer, commands and messages, and the launch daemon that
    reads them. */
module TraCI {
  import opened Options

  type byte = x: int | 0 <= x < 256

  // --------------------------------------------------------------- integers

  function Pow256(n: nat): (p: nat)
    ensures p > 0
  {
    if n == 0 then 1 else 256 * Pow256(n - 1)
  }

  /** The last n base-256 digits, the most significant first. */
  function Digits(n: nat, v: nat): (r: seq<byte>)
    ensures |r| == n
  {
    if n == 0 then [] else Digits(n - 1, v / 256) + [v % 256]
  }

  function Value(ds: seq<byte>): (v: nat)
    ensures v < Pow256(|ds|)
  {
    if ds == [] then 0 else Value(ds[..|ds| - 1]) * 256 + ds[|ds| - 1]
  }

  lemma {:induction false} ValueOfDigits(n: nat, v: nat)
    requires v < Pow256(n)
    ensures Value(Digits(n, v)) == v
  {
    if n > 0 {
      ValueOfDigits(n - 1, v / 256);
      var r := Digits(n, v);
      assert r[..n - 1] == Digits(n - 1, v / 256);
    }
  }

  function Reversed(s: seq<byte>): (r: seq<byte>)
    ensures |r| == |s| && forall i :: 0 <= i < |s| ==> r[i] == s[|s| - 1 - i]
  {
    if s == [] then [] else Reversed(s[1..]) + [s[0]]
  }

  lemma ReversedTwice(s: seq<byte>)
    ensures Reversed(Reversed(s)) == s
  {
  }

  /** The memory of an object in the order in which it is sent. */
  function Wire(bigEndian: bool, p: seq<byte>): (r: seq<byte>)
    ensures |r| == |p|
  {
    if bigEndian then p else Reversed(p)
  }

  /** The memory of an unsigned integer of n bytes on a host of either endianness. */
  function Memory(bigEndian: bool, n: nat, u: nat): (p: seq<byte>)
    ensures |p| == n
  {
    if bigEndian then Digits(n, u) else Reversed(Digits(n, u))
  }

  /** The integer an object's memory stands for. */
  function Meaning(bigEndian: bool, p: seq<byte>): nat {
    Value(if bigEndian then p else Reversed(p))
  }

  /** The wire format does not depend on the host. */
  lemma WireIsDigits(bigEndian: bool, n: nat, u: nat)
    ensures Wire(bigEndian, Memory(bigEndian, n, u)) == Digits(n, u)
  {
    ReversedTwice(Digits(n, u));
  }

  // ------------------------------------------------------------------ items

  const M32 := 0x1_0000_0000

  /** A value of one of the types written: an integer of `size` bytes, or a string. */
  datatype Item = Num(size: nat, signed: bool, v: int) | Text(s: seq<byte>)

  datatype Kind = NumKind(size: nat, signed: bool) | TextKind

  function KindOf(x: Item): Kind {
    match x
    case Num(n, signed, _) => NumKind(n, signed)
    case Text(_) => TextKind
  }

  /** An integer that its type can hold, a string whose length a uint32_t can hold. */
  predicate Fits(x: Item) {
    match x
    case Num(n, signed, v) => if signed then 0 <= 2 * v + Pow256(n) < 2 * Pow256(n) else 0 <= v < Pow256(n)
    case Text(s) => |s| < M32
  }

  /** Two's complement. */
  function Raw(n: nat, v: int): nat {
    v % Pow256(n)
  }

  function Unraw(n: nat, signed: bool, u: nat): int {
    if signed && 2 * u >= Pow256(n) then u - Pow256(n) else u
  }

  lemma UnrawRaw(n: nat, signed: bool, v: int)
    requires Fits(Num(n, signed, v))
    ensures Raw(n, v) < Pow256(n) && Unraw(n, signed, Raw(n, v)) == v
  {
    if v < 0 { NegativeMod(v, Pow256(n)); } else { SmallMod(v, Pow256(n)); }
  }

  lemma SmallMod(v: int, p: int)
    requires 0 <= v < p
    ensures v % p == v
  {
  }

  lemma NegativeMod(v: int, p: int)
    requires -p <= v < 0
    ensures v % p == v + p
  {
    var k := v / p;
    assert v == p * k + v % p;
    if k <= -2 { Product(p, -2 - k); } else if k >= 0 { Product(p, k); }
  }

  lemma Product(p: int, k: int)
    requires p >= 0 && k >= 0
    ensures p * k >= 0 && p * (-2 - k) <= -2 * p
  {
  }

  function U32(v: nat): (r: seq<byte>)
    ensures |r| == 4
  {
    Digits(4, v % M32)
  }

  /** write: what is appended to the buffer. */
  function Encode(x: Item): seq<byte> {
    match x
    case Num(n, _, v) => Digits(n, Raw(n, v))
    case Text(s) => U32(|s|) + s[..|s| % M32]
  }

  datatype Parsed<+T> = Parsed(value: T, rest: seq<byte>)

  /** read: None where it would read past the end. */
  function Decode(k: Kind, b: seq<byte>): Option<Parsed<Item>> {
    match k
    case NumKind(n, signed) =>
      if |b| < n then None else Some(Parsed(Num(n, signed, Unraw(n, signed, Value(b[..n]))), b[n..]))
    case TextKind =>
      if |b| < 4 || |b| - 4 < Value(b[..4]) then None
      else var n := Value(b[..4]); Some(Parsed(Text(b[4..4 + n]), b[4 + n..]))
  }

  lemma U32Value(v: nat)
    ensures Value(U32(v)) == v % M32
  {
    Pow4();
    ValueOfDigits(4, v % M32);
  }

  lemma Pow4()
    ensures Pow256(4) == M32
  {
    assert Pow256(3) == 256 * Pow256(2) && Pow256(2) == 256 * Pow256(1) && Pow256(1) == 256 * Pow256(0);
  }

  lemma NumRoundTrip(n: nat, signed: bool, v: int, rest: seq<byte>)
    requires Fits(Num(n, signed, v))
    ensures Decode(NumKind(n, signed), Encode(Num(n, signed, v)) + rest) == Some(Parsed(Num(n, signed, v), rest))
  {
    var b := Digits(n, Raw(n, v)) + rest;
    UnrawRaw(n, signed, v);
    ValueOfDigits(n, Raw(n, v));
    assert b[..n] == Digits(n, Raw(n, v)) && b[n..] == rest;
  }

  /** A string comes back cut to its length modulo 2^32. */
  lemma TextRoundTrip(s: seq<byte>, rest: seq<byte>)
    ensures Decode(TextKind, Encode(Text(s)) + rest) == Some(Parsed(Text(s[..|s| % M32]), rest))
  {
    var n := |s| % M32;
    var b := Encode(Text(s)) + rest;
    assert b[..4] == U32(|s|);
    U32Value(|s|);
    assert b[4..4 + n] == s[..n] && b[4 + n..] == rest;
  }

  function EncodeAll(xs: seq<Item>): seq<byte> {
    if xs == [] then [] else Encode(xs[0]) + EncodeAll(xs[1..])
  }

  function KindsOf(xs: seq<Item>): seq<Kind> {
    if xs == [] then [] else [KindOf(xs[0])] + KindsOf(xs[1..])
  }

  function DecodeAll(ks: seq<Kind>, b: seq<byte>): Option<Parsed<seq<Item>>> {
    if ks == [] then Some(Parsed([], b))
    else
      var x := Decode(ks[0], b);
      if x.None? then None
      else
        var xs := DecodeAll(ks[1..], x.value.rest);
        if xs.None? then None else Some(Parsed([x.value.value] + xs.value.value, xs.value.rest))
  }

  predicate AllFit(xs: seq<Item>) {
    forall i :: 0 <= i < |xs| ==> Fits(xs[i])
  }

  lemma ItemRoundTrip(x: Item, rest: seq<byte>)
    requires Fits(x)
    ensures Decode(KindOf(x), Encode(x) + rest) == Some(Parsed(x, rest))
  {
    match x
    case Num(n, signed, v) => NumRoundTrip(n, signed, v, rest);
    case Text(s) => TextRoundTrip(s, rest);
      assert s[..|s|] == s;
  }

  lemma Joined(a: seq<byte>, b: seq<byte>, c: seq<byte>)
    ensures a + b + c == a + (b + c)
  {
  }

  lemma DecodeFirst(k: Kind, ks: seq<Kind>, b: seq<byte>, x: Item, b1: seq<byte>)
    requires Decode(k, b) == Some(Parsed(x, b1))
    ensures DecodeAll([k] + ks, b).None? <==> DecodeAll(ks, b1).None?
    ensures DecodeAll(ks, b1).Some? ==>
              var xs := DecodeAll(ks, b1).value; DecodeAll([k] + ks, b) == Some(Parsed([x] + xs.value, xs.rest))
  {
    assert ([k] + ks)[1..] == ks;
  }

  lemma EncodeFirst(xs: seq<Item>, rest: seq<byte>)
    requires xs != []
    ensures EncodeAll(xs) + rest == Encode(xs[0]) + (EncodeAll(xs[1..]) + rest)
  {
    Joined(Encode(xs[0]), EncodeAll(xs[1..]), rest);
  }

  /** Main result: whatever list of values is written reads back, and ends at eof. */
  lemma {:induction false} RoundTrip(xs: seq<Item>, rest: seq<byte>)
    requires AllFit(xs)
    ensures DecodeAll(KindsOf(xs), EncodeAll(xs) + rest) == Some(Parsed(xs, rest))
  {
    if xs == [] {
      assert EncodeAll(xs) + rest == rest;
    } else {
      var more := EncodeAll(xs[1..]) + rest;
      EncodeFirst(xs, rest);
      ItemRoundTrip(xs[0], more);
      RoundTrip(xs[1..], rest);
      DecodeFirst(KindOf(xs[0]), KindsOf(xs[1..]), Encode(xs[0]) + more, xs[0], more);
      assert [xs[0]] + xs[1..] == xs;
    }
  }

  lemma ItemTruncated(x: Item, m: nat)
    requires Fits(x) && m < |Encode(x)|
    ensures Decode(KindOf(x), Encode(x)[..m]).None?
  {
    if x.Text? && m >= 4 {
      U32Value(|x.s|);
      assert Encode(x)[..m][..4] == U32(|x.s|);
    }
  }

  lemma TakeBeyond(a: seq<byte>, b: seq<byte>, m: nat)
    requires |a| <= m <= |a| + |b|
    ensures (a + b)[..m] == a + b[..m - |a|]
  {
  }

  /** And no byte can be missing: every shorter buffer is read past its end. */
  lemma {:induction false} TruncatedFails(xs: seq<Item>, m: nat)
    requires AllFit(xs) && m < |EncodeAll(xs)|
    ensures DecodeAll(KindsOf(xs), EncodeAll(xs)[..m]).None?
  {
    var e, b := Encode(xs[0]), EncodeAll(xs)[..m];
    if m < |e| {
      assert b == e[..m];
      ItemTruncated(xs[0], m);
    } else {
      var b1 := EncodeAll(xs[1..])[..m - |e|];
      TakeBeyond(e, EncodeAll(xs[1..]), m);
      ItemRoundTrip(xs[0], b1);
      TruncatedFails(xs[1..], m - |e|);
      DecodeFirst(KindOf(xs[0]), KindsOf(xs[1..]), b, xs[0], b1);
    }
  }

  // -------------------------------------------------- commands and messages

  /** makeTraCICommand: one length byte, or a zero and four. */
  function Command(id: byte, body: seq<byte>): seq<byte> {
    if 1 + 1 + |body| > 0xFF then [0] + U32(1 + 4 + 1 + |body|) + [id] + body
    else [1 + 1 + |body|, id] + body
  }

  /** A command announces its own length, in one byte exactly if one can hold it, and is
      followed by its id and its parameters. */
  lemma CommandHeader(id: byte, body: seq<byte>)
    ensures var cmd := Command(id, body);
            if 2 + |body| <= 0xFF then |cmd| == 2 + |body| && cmd[0] == |cmd| && cmd[1] == id && cmd[2..] == body
            else
              && |cmd| == 6 + |body| && cmd[0] == 0 && Value(cmd[1..5]) == |cmd| % M32
              && cmd[5] == id && cmd[6..] == body
  {
    var cmd := Command(id, body);
    if 2 + |body| > 0xFF {
      U32Value(6 + |body|);
      assert cmd[1..5] == U32(6 + |body|) && cmd[6..] == body;
    } else {
      assert cmd[2..] == body;
    }
  }

  /** sendTraCIMessage. */
  function Message(buf: seq<byte>): seq<byte> {
    U32(4 + |buf|) + buf
  }

  /** receiveTraCIMessage: None where bytes are missing.  Lengths are uint32_t. */
  function Receive(stream: seq<byte>): Option<Parsed<seq<byte>>> {
    if |stream| < 4 then None
    else
      var n := (Value(stream[..4]) - 4) % M32;
      if |stream| - 4 < n then None else Some(Parsed(stream[4..4 + n], stream[4 + n..]))
  }

  lemma Wrap(n: nat)
    ensures ((4 + n) % M32 - 4) % M32 == n % M32
  {
  }

  /** A message is received as it was sent exactly if its length fits in 32 bits. */
  lemma MessageRoundTrip(buf: seq<byte>, later: seq<byte>)
    ensures Receive(Message(buf) + later) == Some(Parsed(buf, later)) <==> |buf| < M32
  {
    var stream := Message(buf) + later;
    assert stream[..4] == U32(4 + |buf|);
    U32Value(4 + |buf|);
    Wrap(|buf|);
    var n := |buf| % M32;
    if |buf| < M32 {
      assert stream[4..4 + n] == buf && stream[4 + n..] == later;
    } else if Receive(stream).Some? {
      assert |Receive(stream).value.value| == n;
    }
  }

  // ------------------------------------------------------- the launch daemon

  const CMD_FILE_SEND: byte := 0x75

  function Ascii(s: string): (r: seq<byte>)
    ensures |r| == |s|
  {
    if s == [] then [] else [s[0] as int % 256] + Ascii(s[1..])
  }

  /** The file name that both sides have agreed on. */
  const LAUNCH_FILE := Ascii("sumo-launchd.launch.xml")

  /** A signed integer in network order, from however many pieces it comes in. */
  function TakeInt(stream: seq<byte>): Option<Parsed<int>> {
    if |stream| < 4 then None else Some(Parsed(Unraw(4, true, Value(stream[..4])), stream[4..]))
  }

  function TakeByte(stream: seq<byte>): Option<Parsed<byte>> {
    if stream == [] then None else Some(Parsed(stream[0], stream[1..]))
  }

  /** How many bytes recv(n) gives if the network has `got` for it: at least one, if there are any. */
  function Clip(got: nat, n: nat, available: nat): (r: nat)
    ensures r <= n && r <= available
  {
    var most := if n < available then n else available;
    if got > most then most else if got == 0 && most > 0 then 1 else got
  }

  /** Stalled: recv gives nothing for ever; Crashed: struct or socket raises an exception. */
  datatype Outcome = Launch(data: seq<byte>) | WrongCommand | WrongName | Stalled | Crashed

  /** The command's length as the daemon computes it: what follows the length field. */
  function CommandLength(stream: seq<byte>): Option<Parsed<int>> {
    if stream == [] then None
    else if stream[0] != 0 then Some(Parsed(stream[0] - 1, stream[1..]))
    else
      var x := TakeInt(stream[1..]);
      if x.None? then None else Some(Parsed(x.value.value - 5, x.value.rest))
  }

  /** From the file name on.  The name and the contents are each read by a single recv. */
  function ReadFile(name: seq<byte>, stream: seq<byte>, nameGot: nat, dataGot: nat): Parsed<Outcome> {
    var len := TakeInt(stream);
    if len.None? then Parsed(Stalled, [])
    else if len.value.value < 0 then Parsed(Crashed, len.value.rest)
    else
      var s := len.value.rest;
      var n := Clip(nameGot, len.value.value, |s|);
      if s[..n] != name then Parsed(WrongName, s[n..]) else ReadContents(s[n..], dataGot)
  }

  function ReadContents(stream: seq<byte>, dataGot: nat): Parsed<Outcome> {
    var len := TakeInt(stream);
    if len.None? then Parsed(Stalled, [])
    else if len.value.value < 0 then Parsed(Crashed, len.value.rest)
    else
      var s := len.value.rest;
      var n := Clip(dataGot, len.value.value, |s|);
      Parsed(Launch(s[..n]), s[n..])
  }

  /** A 32-bit length in network order is negative exactly if its first bit is set. */
  lemma NegativeIff(s: seq<byte>)
    requires |s| >= 4
    ensures TakeInt(s).Some? && (TakeInt(s).value.value < 0 <==> s[0] >= 0x80)
  {
    Pow4();
    var b := s[..4];
    assert b[..3][..2][..1][..0] == [];
    assert Value(b) == Value(b[..3]) * 256 + b[3] && Value(b[..3]) == Value(b[..3][..2]) * 256 + b[2];
    assert Value(b[..3][..2]) == Value(b[..3][..2][..1]) * 256 + b[1] && Value(b[..3][..2][..1]) == b[0];
  }

  /** How reading fails: it stalls where fewer bytes come than a length has, and crashes on a
      negative length; the name is wrong if what one recv gives is another. */
  lemma ContentsFail(stream: seq<byte>, dataGot: nat)
    ensures var o := ReadContents(stream, dataGot).value;
            && (o.Stalled? <==> |stream| < 4) && (o.Crashed? <==> |stream| >= 4 && stream[0] >= 0x80)
            && (o.Stalled? || o.Crashed? || o.Launch?)
  {
    if |stream| >= 4 { NegativeIff(stream); }
  }

  lemma FileFails(name: seq<byte>, stream: seq<byte>, nameGot: nat, dataGot: nat)
    ensures var o := ReadFile(name, stream, nameGot, dataGot).value;
            && (|stream| < 4 ==> o.Stalled?) && (|stream| >= 4 && stream[0] >= 0x80 ==> o.Crashed?)
            && (|stream| >= 4 && stream[0] < 0x80 ==>
                  var n := Clip(nameGot, Value(stream[..4]), |stream| - 4);
                  (o.WrongName? <==> stream[4..4 + n] != name))
  {
    if |stream| >= 4 {
      NegativeIff(stream);
      if stream[0] < 0x80 {
        var n := Clip(nameGot, Value(stream[..4]), |stream| - 4);
        assert stream[4..][..n] == stream[4..4 + n];
        ContentsFail(stream[4..][n..], dataGot);
      }
    }
  }

  lemma CommandFails(name: seq<byte>, stream: seq<byte>, nameGot: nat, dataGot: nat)
    ensures var o := ReadCommand(name, stream, nameGot, dataGot).value;
            && (stream == [] ==> o.Crashed?) && (o.WrongCommand? <==> stream != [] && stream[0] != CMD_FILE_SEND)
  {
    if stream != [] { FileFails(name, stream[1..], nameGot, dataGot); }
  }

  function ReadCommand(name: seq<byte>, stream: seq<byte>, nameGot: nat, dataGot: nat): Parsed<Outcome> {
    var id := TakeByte(stream);
    if id.None? then Parsed(Crashed, [])
    else if id.value.value != CMD_FILE_SEND then Parsed(WrongCommand, id.value.rest)
    else ReadFile(name, id.value.rest, nameGot, dataGot)
  }

  /** read_launch_config, expecting a file of this name: the outcome, and what is left on the connection. */
  function ReadLaunch(name: seq<byte>, stream: seq<byte>, nameGot: nat, dataGot: nat): Parsed<Outcome> {
    var msgLen := TakeInt(stream);
    if msgLen.None? then Parsed(Stalled, [])
    else if msgLen.value.rest == [] then Parsed(Crashed, [])
    else
      var cmdLen := CommandLength(msgLen.value.rest);
      if cmdLen.None? then Parsed(Stalled, []) else ReadCommand(name, cmdLen.value.rest, nameGot, dataGot)
  }

  /** Before the command: it stalls within a length, and crashes without the length byte. */
  lemma HeadFails(name: seq<byte>, stream: seq<byte>, nameGot: nat, dataGot: nat)
    ensures var o := ReadLaunch(name, stream, nameGot, dataGot).value;
            && (|stream| < 4 ==> o.Stalled?) && (|stream| == 4 ==> o.Crashed?)
            && (4 < |stream| < 9 && stream[4] == 0 ==> o.Stalled?)
            && (|stream| == 5 && stream[4] != 0 ==> o.Crashed?)
  {
  }

  /** A recv gives nothing only if nothing is asked for or there is nothing. */
  lemma RecvGives(got: nat, n: nat, available: nat)
    ensures Clip(got, n, available) == 0 <==> n == 0 || available == 0
    ensures got > 0 && got <= n && got <= available ==> Clip(got, n, available) == got
  {
  }

  lemma TakeU32(v: nat, rest: seq<byte>)
    ensures TakeInt(U32(v) + rest) == Some(Parsed(if v % M32 < M32 / 2 then v % M32 else v % M32 - M32, rest))
  {
    U32Value(v);
    Pow4();
    assert (U32(v) + rest)[..4] == U32(v) && (U32(v) + rest)[4..] == rest;
  }

  lemma ExtendedLength(n: nat, rest: seq<byte>)
    ensures var r := CommandLength([0] + (U32(6 + n) + rest));
            r.Some? && r.value.rest == rest && (r.value.value == 1 + n <==> n + 6 < M32 / 2)
  {
    assert ([0] + (U32(6 + n) + rest))[1..] == U32(6 + n) + rest;
    TakeU32(6 + n, rest);
  }

  /** In either encoding the daemon finds the number of bytes that follow, as long as a
      signed integer can say it, and the command where it begins. */
  lemma CommandLengthFound(id: byte, body: seq<byte>, later: seq<byte>)
    ensures var r := CommandLength(Command(id, body) + later);
            && r.Some? && r.value.rest == [id] + (body + later)
            && (r.value.value == 1 + |body| <==> |body| + 6 < M32 / 2)
  {
    var n, rest := |body|, [id] + (body + later);
    if 2 + n > 0xFF {
      ExtendedLength(n, rest);
      Regrouped([0], U32(6 + n), [id], body, later);
    } else {
      assert Command(id, body) + later == [2 + n] + rest;
      assert ([2 + n] + rest)[1..] == rest;
    }
  }

  lemma Regrouped(a: seq<byte>, b: seq<byte>, c: seq<byte>, d: seq<byte>, e: seq<byte>)
    ensures a + b + c + d + e == a + (b + (c + (d + e)))
  {
  }

  lemma ContentsFound(content: seq<byte>, later: seq<byte>, dataGot: nat)
    ensures var r := ReadContents(Encode(Text(content)) + later, dataGot);
            (r == Parsed(Launch(content), later))
              <==> (|content| < M32 / 2 && Clip(dataGot, |content|, |content| + |later|) == |content|)
  {
    var n := |content| % M32;
    var s := content[..n] + later;
    assert Encode(Text(content)) + later == U32(|content|) + s;
    TakeU32(|content|, s);
    if |content| < M32 / 2 && Clip(dataGot, |content|, |s|) == |content| {
      assert s[..n] == content && s[n..] == later;
    }
  }

  lemma NameFound(name: seq<byte>, rest: seq<byte>, nameGot: nat, dataGot: nat)
    requires |name| < M32 / 2
    ensures var r := ReadFile(name, Encode(Text(name)) + rest, nameGot, dataGot);
            if Clip(nameGot, |name|, |name| + |rest|) == |name| then r == ReadContents(rest, dataGot)
            else r.value == WrongName
  {
    var s := name + rest;
    assert name[..|name| % M32] == name;
    assert Encode(Text(name)) + rest == U32(|name|) + s;
    TakeU32(|name|, s);
    var n := Clip(nameGot, |name|, |s|);
    if n == |name| {
      assert s[..n] == name && s[n..] == rest;
    } else {
      assert |s[..n]| < |name|;
    }
  }

  /** At that place the stream has the command's id, the name, and the data, and then the rest. */
  predicate LaunchAt(stream: seq<byte>, head: nat, name: seq<byte>, data: seq<byte>, rest: seq<byte>) {
    var n, d := |name|, |data|;
    && |stream| >= head + 9 + n + d
    && stream[head] == CMD_FILE_SEND && stream[head + 5..head + 5 + n] == name
    && stream[head + 9 + n..head + 9 + n + d] == data && stream[head + 9 + n + d..] == rest
  }

  /** What the daemon takes for a launch file is one: after the lengths come the command's id,
      the name it expects and the data it returns. */
  lemma LaunchIsGenuine(name: seq<byte>, stream: seq<byte>, nameGot: nat, dataGot: nat, r: Parsed<Outcome>)
    returns (head: nat)
    requires r == ReadLaunch(name, stream, nameGot, dataGot) && r.value.Launch?
    ensures (head == 5 || head == 9) && LaunchAt(stream, head, name, r.value.data, r.rest)
  {
    head := HeadRead(name, stream, nameGot, dataGot, r);
    LaunchFollows(name, stream, head, nameGot, dataGot, r);
  }

  lemma LaunchFollows(name: seq<byte>, stream: seq<byte>, head: nat, nameGot: nat, dataGot: nat, r: Parsed<Outcome>)
    requires |stream| > head && stream[head] == CMD_FILE_SEND
    requires r == ReadFile(name, stream[head + 1..], nameGot, dataGot) && r.value.Launch?
    ensures LaunchAt(stream, head, name, r.value.data, r.rest)
  {
    FileIsGenuine(name, stream[head + 1..], nameGot, dataGot, r);
    FromTail(stream, head, stream[head + 1..], |name|, |r.value.data|);
  }

  lemma FromTail(stream: seq<byte>, head: nat, file: seq<byte>, n: nat, d: nat)
    requires head < |stream| && file == stream[head + 1..] && |file| >= 8 + n + d
    ensures stream[head + 5..head + 5 + n] == file[4..4 + n]
    ensures stream[head + 9 + n..head + 9 + n + d] == file[8 + n..8 + n + d]
    ensures stream[head + 9 + n + d..] == file[8 + n + d..]
  {
  }

  lemma HeadRead(name: seq<byte>, stream: seq<byte>, nameGot: nat, dataGot: nat, r: Parsed<Outcome>)
    returns (head: nat)
    requires r == ReadLaunch(name, stream, nameGot, dataGot) && r.value.Launch?
    ensures (head == 5 || head == 9) && |stream| > head && stream[head] == CMD_FILE_SEND
    ensures r == ReadFile(name, stream[head + 1..], nameGot, dataGot)
  {
    head := if stream[4] != 0 then 5 else 9;
    assert stream[4..][1..] == stream[5..];
    assert stream[4] == 0 ==> stream[5..][4..] == stream[9..];
    assert stream[head..][1..] == stream[head + 1..];
  }

  lemma FileIsGenuine(name: seq<byte>, s: seq<byte>, nameGot: nat, dataGot: nat, r: Parsed<Outcome>)
    requires r == ReadFile(name, s, nameGot, dataGot) && r.value.Launch?
    ensures var n, d := |name|, |r.value.data|;
            && |s| >= 8 + n + d && s[4..4 + n] == name
            && s[8 + n..8 + n + d] == r.value.data && s[8 + n + d..] == r.rest
  {
    var n := |name|;
    var rest := s[4..];
    assert rest[..n] == name;
    assert rest[n..][4..] == s[8 + n..];
  }

  /** What the simulator sends to have SUMO launched. */
  function LaunchMessage(name: seq<byte>, content: seq<byte>): seq<byte> {
    Message(Command(CMD_FILE_SEND, EncodeAll([Text(name), Text(content)])))
  }

  lemma EncodeTwo(x: Item, y: Item)
    ensures EncodeAll([x, y]) == Encode(x) + Encode(y)
  {
    var xs := [x, y];
    assert xs[1..] == [y];
    EncodeOne(y);
  }

  lemma EncodeOne(y: Item)
    ensures EncodeAll([y]) == Encode(y)
  {
    assert [y][1..] == [];
    assert Encode(y) + [] == Encode(y);
  }

  lemma Tail(x: byte, s: seq<byte>)
    ensures ([x] + s)[1..] == s
  {
  }

  /** A command within a message, up to its parameters. */
  lemma CommandReached(name: seq<byte>, body: seq<byte>, later: seq<byte>, nameGot: nat, dataGot: nat)
    ensures ReadLaunch(name, Message(Command(CMD_FILE_SEND, body)) + later, nameGot, dataGot)
         == ReadFile(name, body + later, nameGot, dataGot)
  {
    var cmd := Command(CMD_FILE_SEND, body);
    Joined(U32(4 + |cmd|), cmd, later);
    TakeU32(4 + |cmd|, cmd + later);
    CommandLengthFound(CMD_FILE_SEND, body, later);
    Tail(CMD_FILE_SEND, body + later);
  }

  lemma FileRecovered(name: seq<byte>, content: seq<byte>, later: seq<byte>, nameGot: nat, dataGot: nat)
    requires |name| < M32 / 2
    ensures ReadLaunch(name, LaunchMessage(name, content) + later, nameGot, dataGot) == Parsed(Launch(content), later)
        <==> && |content| < M32 / 2
             && Clip(nameGot, |name|, |name| + |Encode(Text(content)) + later|) == |name|
             && Clip(dataGot, |content|, |content| + |later|) == |content|
  {
    var rest := Encode(Text(content)) + later;
    EncodeTwo(Text(name), Text(content));
    CommandReached(name, Encode(Text(name)) + Encode(Text(content)), later, nameGot, dataGot);
    Joined(Encode(Text(name)), Encode(Text(content)), later);
    NameFound(name, rest, nameGot, dataGot);
    ContentsFound(content, later, dataGot);
  }

  /** A single recv returns all n bytes at least when it is given n. */
  lemma ClipAll(got: nat, n: nat, available: nat)
    requires n != 1 && n <= available
    ensures Clip(got, n, available) == n <==> got >= n
  {
  }

  /** Main result: the daemon recovers exactly the content sent and consumes exactly the
      message, through both length encodings, if and only if the content is shorter than
      2^31 bytes and its two single recv calls return the whole name and the whole content. */
  lemma LaunchRecovered(content: seq<byte>, later: seq<byte>, nameGot: nat, dataGot: nat)
    ensures |LAUNCH_FILE| == 23
    ensures var stream := LaunchMessage(LAUNCH_FILE, content) + later;
            ReadLaunch(LAUNCH_FILE, stream, nameGot, dataGot) == Parsed(Launch(content), later) <==>
              |content| < M32 / 2 && nameGot >= 23 && Clip(dataGot, |content|, |content| + |later|) == |content|
  {
    FileRecovered(LAUNCH_FILE, content, later, nameGot, dataGot);
    ClipAll(nameGot, 23, 23 + |Encode(Text(content)) + later|);
  }

  /** The length at the head of a message is that of the whole exactly if 32 bits can hold it. */
  lemma MessageAnnounced(buf: seq<byte>)
    ensures Value(Message(buf)[..4]) == |Message(buf)| <==> |Message(buf)| < M32
  {
    U32Value(4 + |buf|);
    assert Message(buf)[..4] == U32(4 + |buf|);
  }

  /** The daemon's OK response. */
  function Response(): seq<byte> {
    U32(4 + 1 + 1 + 1 + 4) + [1 + 1 + 1 + 4, CMD_FILE_SEND, 0x00] + U32(0)
  }

  /** The simulator reads it as the command's echo, an OK, no description, and eof. */
  lemma ResponseAccepted(later: seq<byte>)
    ensures var xs := [Num(1, false, 7), Num(1, false, CMD_FILE_SEND), Num(1, false, 0), Text([])];
            && Receive(Response() + later) == Some(Parsed(EncodeAll(xs), later))
            && DecodeAll(KindsOf(xs), EncodeAll(xs)) == Some(Parsed(xs, []))
  {
    var xs := [Num(1, false, 7), Num(1, false, CMD_FILE_SEND), Num(1, false, 0), Text([])];
    var b := EncodeAll(xs);
    RoundTrip(xs, []);
    assert b + [] == b;
    ResponseBody(7, CMD_FILE_SEND, 0);
    assert Response() == Message(b);
    MessageRoundTrip(b, later);
  }

  lemma EncodeCons(x: Item, xs: seq<Item>)
    ensures EncodeAll([x] + xs) == Encode(x) + EncodeAll(xs)
  {
    assert ([x] + xs)[1..] == xs;
  }

  lemma EncodeFour(w: Item, x: Item, y: Item, z: Item)
    ensures EncodeAll([w, x, y, z]) == Encode(w) + (Encode(x) + (Encode(y) + Encode(z)))
  {
    EncodeCons(w, [x, y, z]);
    EncodeCons(x, [y, z]);
    EncodeTwo(y, z);
  }

  lemma ThreeBytes(a: byte, b: byte, c: byte, z: seq<byte>)
    ensures [a] + ([b] + ([c] + z)) == [a, b, c] + z
  {
  }

  lemma EmptyText()
    ensures Encode(Text([])) == U32(0)
  {
    var s: seq<byte> := [];
    assert s[..|s| % M32] == [];
  }

  lemma ResponseBody(a: byte, b: byte, c: byte)
    ensures EncodeAll([Num(1, false, a), Num(1, false, b), Num(1, false, c), Text([])]) == [a, b, c] + U32(0)
  {
    OneByte(a);
    OneByte(b);
    OneByte(c);
    EmptyText();
    ThreeBytes(a, b, c, U32(0));
    EncodeFour(Num(1, false, a), Num(1, false, b), Num(1, false, c), Text([]));
  }

  lemma OneByte(v: byte)
    ensures Encode(Num(1, false, v)) == [v]
  {
    assert Pow256(1) == 256 * Pow256(0);
    assert Digits(1, v) == Digits(0, v / 256) + [v % 256];
  }
}
