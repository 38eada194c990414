/** TraCIBuffer, and the launch daemon's end of a connection, as they work step by step. */
module TraCIModules {
  import opened Options
  import opened TraCI

  class TraCIBuffer {
    const bigEndian: bool
    var buf: seq<byte>
    var bufIndex: nat

    ghost predicate Valid()
      reads this
    {
      bufIndex <= |buf|
    }

    /** What is still to be read. */
    ghost function Left(): seq<byte>
      requires Valid()
      reads this
    {
      buf[bufIndex..]
    }

    constructor (hostIsBigEndian: bool, contents: seq<byte>)
      ensures Valid() && bigEndian == hostIsBigEndian && buf == contents && Left() == contents
    {
      bigEndian, buf, bufIndex := hostIsBigEndian, contents, 0;
    }

    method Eof() returns (r: bool)
      requires Valid()
      ensures r <==> Left() == []
    {
      r := bufIndex == |buf|;
    }

    /** The memory of an object, byte by byte. */
    method WriteMemory(p: seq<byte>)
      modifies this`buf
      ensures buf == old(buf) + Wire(bigEndian, p)
    {
      ghost var w := Wire(bigEndian, p);
      var i := 0;
      while i < |p|
        invariant 0 <= i <= |p|
        invariant buf == old(buf) + w[..i]
      {
        if bigEndian {
          buf := buf + [p[i]];
        } else {
          buf := buf + [p[|p| - 1 - i]];
        }
        OneMore(old(buf), w, i);
        i := i + 1;
      }
      assert w[..i] == w;
    }

    method WriteUnsigned(n: nat, u: nat)
      modifies this`buf
      ensures buf == old(buf) + Digits(n, u)
    {
      WireIsDigits(bigEndian, n, u);
      WriteMemory(Memory(bigEndian, n, u));
    }

    method WriteText(s: seq<byte>)
      modifies this`buf
      ensures buf == old(buf) + Encode(Text(s))
    {
      var length := |s| % M32;
      WriteUnsigned(4, length);
      var i := 0;
      while i < length
        invariant 0 <= i <= length
        invariant buf == old(buf) + (U32(|s|) + s[..i])
      {
        WriteByte(s[i]);
        assert s[..i + 1] == s[..i] + [s[i]];
        i := i + 1;
      }
    }

    method WriteByte(c: byte)
      modifies this`buf
      ensures buf == old(buf) + [c]
    {
      OneByte(c);
      SmallMod(c, Pow256(1));
      WriteUnsigned(1, c);
    }

    /** operator<< for any type of value. */
    method Write(x: Item)
      modifies this`buf
      ensures buf == old(buf) + Encode(x)
    {
      match x {
        case Num(n, _, v) => WriteUnsigned(n, Raw(n, v));
        case Text(s) => WriteText(s);
      }
    }

    /** n bytes into the memory of an object; false where an exception is thrown. */
    method ReadMemory(n: nat) returns (ok: bool, p: array<byte>)
      requires Valid()
      modifies this`bufIndex
      ensures Valid() && fresh(p) && p.Length == n
      ensures ok <==> n <= old(|Left()|)
      ensures ok ==> bufIndex == old(bufIndex) + n && Wire(bigEndian, p[..]) == old(Left())[..n]
      ensures !ok ==> bufIndex == |buf|
    {
      ghost var left := Left();
      p := new byte[n](_ => 0);
      var i := 0;
      while i < n
        invariant 0 <= i <= n && bufIndex == old(bufIndex) + i && Valid()
        invariant bigEndian ==> forall j :: 0 <= j < i ==> p[j] == left[j]
        invariant !bigEndian ==> forall j :: n - i <= j < n ==> p[j] == left[n - 1 - j]
      {
        if bufIndex == |buf| { return false, p; }
        if bigEndian {
          p[i] := buf[bufIndex];
        } else {
          p[n - 1 - i] := buf[bufIndex];
        }
        bufIndex := bufIndex + 1;
        i := i + 1;
      }
      assert Wire(bigEndian, p[..]) == left[..n];
      ok := true;
    }

    method ReadUnsigned(n: nat) returns (r: Option<nat>)
      requires Valid()
      modifies this`bufIndex
      ensures Valid() && (r.Some? <==> n <= old(|Left()|))
      ensures r.Some? ==> bufIndex == old(bufIndex) + n && r.value == Value(old(Left())[..n])
      ensures r.None? ==> bufIndex == |buf|
    {
      var ok, p := ReadMemory(n);
      if ok {
        r := Some(Meaning(bigEndian, p[..]));
      } else {
        r := None;
      }
    }

    method ReadText() returns (r: Option<Item>)
      requires Valid()
      modifies this`bufIndex
      ensures Valid()
      ensures var d := Decode(TextKind, old(Left()));
              if d.None? then r == None && bufIndex == |buf| else r == Some(d.value.value) && Left() == d.value.rest
    {
      var length := ReadUnsigned(4);
      if length.None? { return None; }
      var n, s := length.value, [];
      while |s| < n
        invariant Valid() && |s| <= n && bufIndex == old(bufIndex) + 4 + |s|
        invariant s == old(Left())[4..4 + |s|]
      {
        var c := ReadUnsigned(1);
        if c.None? { return None; }
        ghost var k := old(bufIndex) + 4 + |s|;
        assert buf[k..][..1] == [buf[k]];
        ByteValue(buf[k]);
        s := s + [c.value];
      }
      r := Some(Text(s));
    }

    /** operator>> for any type of value. */
    method Read(k: Kind) returns (r: Option<Item>)
      requires Valid()
      modifies this`bufIndex
      ensures Valid()
      ensures var d := Decode(k, old(Left()));
              if d.None? then r == None && bufIndex == |buf| else r == Some(d.value.value) && Left() == d.value.rest
    {
      match k {
        case TextKind => r := ReadText();
        case NumKind(n, signed) =>
          var u := ReadUnsigned(n);
          r := if u.None? then None else Some(Num(n, signed, Unraw(n, signed, u.value)));
      }
    }
  }

  /** The daemon's end: what will ever come in, as recv hands it out. */
  class Connection {
    var input: seq<byte>

    constructor (bytes: seq<byte>)
      ensures input == bytes
    {
      input := bytes;
    }

    /** recv(n): as many bytes as the network happens to have. */
    method Recv(n: nat) returns (b: seq<byte>, ghost got: nat)
      modifies this
      ensures b == old(input)[..Clip(got, n, old(|input|))] && input == old(input)[Clip(got, n, old(|input|))..]
    {
      var some: nat := *;
      got := some;
      var k := Clip(some, n, |input|);
      b, input := input[..k], input[k..];
    }

    /** The loop around recv for four bytes; None if it never ends. */
    method RecvInt() returns (r: Option<int>)
      modifies this
      ensures var x := TakeInt(old(input));
              if x.None? then r == None && input == [] else r == Some(x.value.value) && input == x.value.rest
    {
      var b: seq<byte> := [];
      while |b| < 4 && input != []
        invariant |b| <= 4 && b + input == old(input)
        decreases 4 - |b|
      {
        var more, got := Recv(4 - |b|);
        assert b + (more + input) == (b + more) + input;
        b := b + more;
      }
      if |b| < 4 { return None; }
      assert old(input)[..4] == b;
      r := Some(Unraw(4, true, Value(b)));
    }

    method RecvCommandLength() returns (r: Option<int>)
      requires input != []
      modifies this
      ensures var x := CommandLength(old(input));
              if x.None? then r == None && input == [] else r == Some(x.value.value) && input == x.value.rest
    {
      var b, got := Recv(1);
      if b[0] != 0 { return Some(b[0] - 1); }
      r := RecvInt();
      if r.Some? { r := Some(r.value - 5); }
    }

    method RecvContents() returns (r: Outcome, ghost dataGot: nat)
      modifies this
      ensures Parsed(r, input) == ReadContents(old(input), dataGot)
    {
      dataGot := 0;
      var len := RecvInt();
      if len.None? { return Stalled, dataGot; }
      if len.value < 0 { return Crashed, dataGot; }
      var data, got := Recv(len.value);
      return Launch(data), got;
    }

    method RecvFile(name: seq<byte>) returns (r: Outcome, ghost nameGot: nat, ghost dataGot: nat)
      modifies this
      ensures Parsed(r, input) == ReadFile(name, old(input), nameGot, dataGot)
    {
      nameGot, dataGot := 0, 0;
      var len := RecvInt();
      if len.None? { return Stalled, nameGot, dataGot; }
      if len.value < 0 { return Crashed, nameGot, dataGot; }
      var fname, got := Recv(len.value);
      nameGot := got;
      if fname != name { return WrongName, nameGot, dataGot; }
      r, dataGot := RecvContents();
    }

    /** read_launch_config. */
    method ReadLaunchConfig(name: seq<byte>) returns (r: Outcome, ghost nameGot: nat, ghost dataGot: nat)
      modifies this
      ensures Parsed(r, input) == ReadLaunch(name, old(input), nameGot, dataGot)
    {
      nameGot, dataGot := 0, 0;
      var msgLen := RecvInt();
      if msgLen.None? { return Stalled, nameGot, dataGot; }
      if input == [] { return Crashed, nameGot, dataGot; }
      var cmdLen := RecvCommandLength();
      if cmdLen.None? { return Stalled, nameGot, dataGot; }
      var id, got := Recv(1);
      if id == [] { return Crashed, nameGot, dataGot; }
      if id[0] != CMD_FILE_SEND { return WrongCommand, nameGot, dataGot; }
      r, nameGot, dataGot := RecvFile(name);
    }
  }

  lemma OneMore(before: seq<byte>, w: seq<byte>, i: nat)
    requires i < |w|
    ensures before + w[..i] + [w[i]] == before + w[..i + 1]
  {
  }

  lemma ByteValue(c: byte)
    ensures Value([c]) == c
  {
    assert [c][..0] == [];
  }
}
