/**
 The wire format: a twelve-byte little-endian header, an additive checksum over the body,
 and what a receiver makes of a stream of bytes.
 */
module Packets {
  import opened Replay
  import opened Validator

  type byte = n: int | 0 <= n < 256
  type uint16 = n: int | 0 <= n < 0x1_0000

  const MAX_BODY := 1024

  function LE16(n: uint16): seq<byte> {
    [n % 256, n / 256]
  }

  function LE32(n: uint32): seq<byte> {
    LE16(n % 0x1_0000) + LE16(n / 0x1_0000)
  }

  function Read16(s: seq<byte>, at: nat): uint16
    requires at + 2 <= |s|
  {
    var low: int, high: int := s[at], s[at + 1];
    low + 256 * high
  }

  function Read32(s: seq<byte>, at: nat): uint32
    requires at + 4 <= |s|
  {
    Read16(s, at) + 0x1_0000 * Read16(s, at + 2)
  }

  /** Sum of all bytes. */
  function Sum(b: seq<byte>): nat {
    if b == [] then 0 else Sum(b[..|b| - 1]) + b[|b| - 1]
  }

  function Checksum(b: seq<byte>): uint16 {
    Sum(b) % 0x1_0000
  }

  datatype Packet = Packet(opcode: uint16, seqNum: uint32, body: seq<byte>)

  function Header(length: uint32, opcode: uint16, checksum: uint16, seqNum: uint32): (h: seq<byte>)
    ensures |h| == HEADER_SIZE
  {
    LE32(length) + LE16(opcode) + LE16(checksum) + LE32(seqNum)
  }

  /** The bytes of a packet as both sides send it. */
  function Frame(p: Packet): (s: seq<byte>)
    requires |p.body| <= MAX_BODY
    ensures |s| == HEADER_SIZE + |p.body|
  {
    Header(HEADER_SIZE + |p.body|, p.opcode, Checksum(p.body), p.seqNum) + p.body
  }

  lemma HeaderFields(s: seq<byte>, length: uint32, opcode: uint16, checksum: uint16, seqNum: uint32)
    requires |s| >= HEADER_SIZE && s[..HEADER_SIZE] == Header(length, opcode, checksum, seqNum)
    ensures Read32(s, 0) == length && Read16(s, 4) == opcode && Read16(s, 6) == checksum && Read32(s, 8) == seqNum
  {
  }

  /** The value of bytes, lowest first. */
  function Number(s: seq<byte>): nat {
    if s == [] then 0 else s[0] + 256 * Number(s[1..])
  }

  lemma {:induction false} NumberCons(b: byte, s: seq<byte>)
    ensures Number([b] + s) == (b as int) + 256 * Number(s)
  {
    assert ([b] + s)[1..] == s;
  }

  lemma TwoBytes(b0: byte, b1: byte)
    ensures Number([b0, b1]) == (b0 as int) + 256 * (b1 as int)
  {
    NumberCons(b0, [b1]);
    NumberCons(b1, []);
    assert [b0, b1] == [b0] + [b1] && [b1] == [b1] + [];
  }

  lemma FourBytes(b0: byte, b1: byte, b2: byte, b3: byte)
    ensures Number([b0, b1, b2, b3])
            == (b0 as int) + 256 * (b1 as int) + 65536 * (b2 as int) + 16777216 * (b3 as int)
  {
    NumberCons(b0, [b1, b2, b3]);
    NumberCons(b1, [b2, b3]);
    TwoBytes(b2, b3);
    assert [b0, b1, b2, b3] == [b0] + [b1, b2, b3] && [b1, b2, b3] == [b1] + [b2, b3];
  }

  lemma ReadsNumber(s: seq<byte>, at: nat)
    ensures at + 2 <= |s| ==> Read16(s, at) == Number(s[at..at + 2])
    ensures at + 4 <= |s| ==> Read32(s, at) == Number(s[at..at + 4])
  {
    if at + 2 <= |s| {
      assert s[at..at + 2] == [s[at], s[at + 1]];
      TwoBytes(s[at], s[at + 1]);
    }
    if at + 4 <= |s| {
      assert s[at..at + 4] == [s[at], s[at + 1], s[at + 2], s[at + 3]];
      FourBytes(s[at], s[at + 1], s[at + 2], s[at + 3]);
    }
  }

  /** A frame byte by byte: length, opcode, sum of the body's bytes, number, body. */
  lemma FrameBytes(p: Packet)
    requires |p.body| <= 1024
    ensures var f := Frame(p);
            && |f| == 12 + |p.body| && f[12..] == p.body
            && Number(f[0..4]) == 12 + |p.body| && Number(f[4..6]) == p.opcode
            && Number(f[6..8]) == Sum(p.body) % 65536 && Number(f[8..12]) == p.seqNum
  {
    FrameFields(p, []);
    assert Frame(p) + [] == Frame(p);
    ReadsNumber(Frame(p), 0);
    ReadsNumber(Frame(p), 4);
    ReadsNumber(Frame(p), 6);
    ReadsNumber(Frame(p), 8);
  }

  lemma SumOfOne(x: byte)
    ensures Sum([]) == 0 && Sum([x]) == x
  {
    assert [x][..0] == [];
  }

  /** What a receiver makes of the bytes still to come. */
  datatype Parse =
    | Got(packet: Packet, rest: seq<byte>)
    | Short
    | BadLength
    | Replayed
    | BadChecksum

  predicate LengthOk(length: uint32) {
    HEADER_SIZE <= length <= PACKET_SIZE
  }

  /** The server: length, then sequence number, then body, then checksum. */
  function ServerParse(s: seq<byte>, g: Guard): (Parse, Guard) {
    if |s| < HEADER_SIZE then (Short, g)
    else
      var length := Read32(s, 0);
      if !LengthOk(length) then (BadLength, g)
      else
        var (g', accepted) := Judged(g, Read32(s, 8));
        if !accepted then (Replayed, g')
        else if |s| < length then (Short, g')
        else
          var body := s[HEADER_SIZE..length];
          if Checksum(body) != Read16(s, 6) then (BadChecksum, g')
          else (Got(Packet(Read16(s, 4), Read32(s, 8), body), s[length..]), g')
  }

  /** The client: no sequence check, and a wrong checksum is only reported. */
  function ClientParse(s: seq<byte>): Parse {
    if |s| < HEADER_SIZE then Short
    else
      var length := Read32(s, 0);
      if !LengthOk(length) then BadLength
      else if |s| < length then Short
      else Got(Packet(Read16(s, 4), Read32(s, 8), s[HEADER_SIZE..length]), s[length..])
  }

  /** The server's reading, byte by byte, in every case. */
  lemma ServerParseMeans(s: seq<byte>, g: Guard)
    ensures var (r, g') := ServerParse(s, g);
            if |s| < 12 then r == Short && g' == g
            else
              var length := Number(s[0..4]);
              if length < 12 || length > 1036 then r == BadLength && g' == g
              else
                && Number(s[8..12]) < 4294967296 && g' == Judged(g, Number(s[8..12])).0
                && if !Judged(g, Number(s[8..12])).1 then r == Replayed
                   else if |s| < length then r == Short
                   else if Number(s[6..8]) != Sum(s[12..length]) % 65536 then r == BadChecksum
                   else
                     && r.Got? && r.packet.opcode == Number(s[4..6]) && r.packet.seqNum == Number(s[8..12])
                     && r.packet.body == s[12..length] && r.rest == s[length..]
  {
    if |s| >= 12 {
      ReadsNumber(s, 0);
      ReadsNumber(s, 4);
      ReadsNumber(s, 6);
      ReadsNumber(s, 8);
    }
  }

  /** The client's reading: neither number nor sum is tested. */
  lemma ClientParseMeans(s: seq<byte>)
    ensures var r := ClientParse(s);
            if |s| < 12 then r == Short
            else
              var length := Number(s[0..4]);
              if length < 12 || length > 1036 then r == BadLength
              else if |s| < length then r == Short
              else
                && r.Got? && r.packet.opcode == Number(s[4..6]) && r.packet.seqNum == Number(s[8..12])
                && r.packet.body == s[12..length] && r.rest == s[length..]
  {
    if |s| >= 12 {
      ReadsNumber(s, 0);
      ReadsNumber(s, 4);
      ReadsNumber(s, 8);
    }
  }

  lemma FrameFields(p: Packet, rest: seq<byte>)
    requires |p.body| <= MAX_BODY
    ensures var s := Frame(p) + rest;
            && Read32(s, 0) == HEADER_SIZE + |p.body| && Read16(s, 4) == p.opcode
            && Read16(s, 6) == Checksum(p.body) && Read32(s, 8) == p.seqNum
            && s[HEADER_SIZE..HEADER_SIZE + |p.body|] == p.body && s[HEADER_SIZE + |p.body|..] == rest
  {
    var s := Frame(p) + rest;
    assert s[..HEADER_SIZE] == Header(HEADER_SIZE + |p.body|, p.opcode, Checksum(p.body), p.seqNum);
    HeaderFields(s, HEADER_SIZE + |p.body|, p.opcode, Checksum(p.body), p.seqNum);
  }

  /** A sent packet is read back as it was, by either side, and the rest of the stream is left alone. */
  lemma FrameParsed(p: Packet, rest: seq<byte>, g: Guard)
    requires |p.body| <= MAX_BODY
    ensures ClientParse(Frame(p) + rest) == Got(p, rest)
    ensures Judged(g, p.seqNum).1 ==> ServerParse(Frame(p) + rest, g) == (Got(p, rest), Judged(g, p.seqNum).0)
  {
    FrameFields(p, rest);
  }

  lemma {:induction false} SumUpdate(b: seq<byte>, i: nat, v: byte)
    requires i < |b|
    ensures Sum(b[i := v]) == Sum(b) - b[i] + v
  {
    var n := |b| - 1;
    if i == n {
      assert b[i := v][..n] == b[..n];
    } else {
      assert b[i := v][..n] == b[..n][i := v];
      SumUpdate(b[..n], i, v);
    }
  }

  lemma {:induction false} SumBound(b: seq<byte>)
    ensures Sum(b) <= 255 * |b|
  {
    if b != [] {
      SumBound(b[..|b| - 1]);
    }
  }

  /**
   Whatever replaces the body on the way, at the same length, the server takes it exactly when
   its bytes add up to the same sum modulo 65536; the client takes it always.
   */
  lemma {:induction false} ChecksumExactly(p: Packet, b: seq<byte>, rest: seq<byte>, g: Guard)
    requires |b| == |p.body| <= MAX_BODY && Judged(g, p.seqNum).1
    ensures var s := Frame(p)[..HEADER_SIZE] + b + rest;
            && ServerParse(s, g).0 == (if Sum(b) % 0x1_0000 == Sum(p.body) % 0x1_0000
                                       then Got(p.(body := b), rest) else BadChecksum)
            && ClientParse(s) == Got(p.(body := b), rest)
  {
    var s, n := Frame(p)[..HEADER_SIZE] + b + rest, HEADER_SIZE + |p.body|;
    assert s[..HEADER_SIZE] == Header(n, p.opcode, Checksum(p.body), p.seqNum);
    HeaderFields(s, n, p.opcode, Checksum(p.body), p.seqNum);
    assert s[HEADER_SIZE..n] == b && s[n..] == rest;
  }

  lemma DifferentSums(x: nat, y: nat)
    requires x != y && -256 < x - y < 256
    ensures x % 0x1_0000 != y % 0x1_0000
  {
  }

  /** One wrong byte in the body is always caught by the server; the client reads it as it came. */
  lemma OneWrongByte(p: Packet, i: nat, v: byte, rest: seq<byte>, g: Guard)
    requires |p.body| <= MAX_BODY && i < |p.body| && v != p.body[i] && Judged(g, p.seqNum).1
    ensures var s := (Frame(p) + rest)[HEADER_SIZE + i := v];
            && ServerParse(s, g).0 == BadChecksum
            && ClientParse(s) == Got(p.(body := p.body[i := v]), rest)
  {
    var b := p.body[i := v];
    assert (Frame(p) + rest)[HEADER_SIZE + i := v] == Frame(p)[..HEADER_SIZE] + b + rest;
    ChecksumExactly(p, b, rest, g);
    SumUpdate(p.body, i, v);
    DifferentSums(Sum(p.body), Sum(b));
  }

  /** Bodies with the same bytes in another order always pass: here two of them exchanged. */
  lemma SwappedBytesUnseen(p: Packet, i: nat, j: nat, rest: seq<byte>, g: Guard)
    requires |p.body| <= MAX_BODY && i < j < |p.body| && Judged(g, p.seqNum).1
    ensures var b := p.body[i := p.body[j]][j := p.body[i]];
            ServerParse(Frame(p)[..HEADER_SIZE] + b + rest, g).0 == Got(p.(body := b), rest)
  {
    SumUpdate(p.body, i, p.body[j]);
    SumUpdate(p.body[i := p.body[j]], j, p.body[i]);
    ChecksumExactly(p, p.body[i := p.body[j]][j := p.body[i]], rest, g);
  }

  /** Opcode and number are not covered: any opcode, and any number the guard accepts, can replace those sent. */
  lemma HeaderUncovered(p: Packet, opcode: uint16, seqNum: uint32, rest: seq<byte>, g: Guard)
    requires |p.body| <= MAX_BODY && Judged(g, seqNum).1
    ensures var f := Frame(p);
            var s := f[..4] + LE16(opcode) + f[6..8] + LE32(seqNum) + f[HEADER_SIZE..] + rest;
            ServerParse(s, g).0 == Got(Packet(opcode, seqNum, p.body), rest)
  {
    var f, q := Frame(p), Packet(opcode, seqNum, p.body);
    assert f[..4] + LE16(opcode) + f[6..8] + LE32(seqNum) + f[HEADER_SIZE..] == Frame(q);
    FrameParsed(q, rest, g);
  }

  lemma {:induction false} SumAppend(a: seq<byte>, b: seq<byte>)
    ensures Sum(a + b) == Sum(a) + Sum(b)
  {
    if b == [] {
      assert a + b == a;
    } else {
      var n := |b| - 1;
      assert (a + b)[..|a| + n] == a + b[..n];
      SumAppend(a, b[..n]);
    }
  }

  /** The stream with another length written in the frame's header. */
  function Relengthened(p: Packet, length: uint32, rest: seq<byte>): (s: seq<byte>)
    requires |p.body| <= MAX_BODY
    ensures |s| == HEADER_SIZE + |p.body| + |rest|
  {
    LE32(length) + Frame(p)[4..] + rest
  }

  /**
   Another length takes other bytes for the body, fewer or some of what follows. Within its
   bounds and the bytes there are, it passes exactly when these have the sum of those sent.
   */
  lemma LengthExactly(p: Packet, length: uint32, rest: seq<byte>, g: Guard)
    requires |p.body| <= MAX_BODY && Judged(g, p.seqNum).1
    ensures var s := Relengthened(p, length, rest);
            ServerParse(s, g).0 ==
              if !LengthOk(length) then BadLength
              else if |s| < length then Short
              else
                var b := (p.body + rest)[..length - HEADER_SIZE];
                if Sum(b) % 0x1_0000 == Sum(p.body) % 0x1_0000
                then Got(p.(body := b), (p.body + rest)[length - HEADER_SIZE..])
                else BadChecksum
  {
    var s := Relengthened(p, length, rest);
    assert s[..HEADER_SIZE] == Header(length, p.opcode, Checksum(p.body), p.seqNum);
    HeaderFields(s, length, p.opcode, Checksum(p.body), p.seqNum);
    assert s[HEADER_SIZE..] == p.body + rest;
    if LengthOk(length) && length <= |s| {
      assert s[HEADER_SIZE..length] == s[HEADER_SIZE..][..length - HEADER_SIZE];
      assert s[length..] == s[HEADER_SIZE..][length - HEADER_SIZE..];
    }
  }

  lemma SameRemainder(a: nat, c: nat)
    ensures a % 0x1_0000 == (a + c) % 0x1_0000 <==> c % 0x1_0000 == 0
  {
  }

  lemma Slices<T>(b: seq<T>, keep: nat, rest: seq<T>)
    requires keep <= |b|
    ensures (b + rest)[..keep] == b[..keep] && (b + rest)[keep..] == b[keep..] + rest
    ensures b[..keep] + b[keep..] == b
  {
  }

  /** A shorter length passes exactly when the bytes cut off add up to a multiple of 65536. */
  lemma ShortenedExactly(p: Packet, keep: nat, rest: seq<byte>, g: Guard)
    requires keep <= |p.body| <= MAX_BODY && Judged(g, p.seqNum).1
    ensures ServerParse(Relengthened(p, HEADER_SIZE + keep, rest), g).0 ==
              if Sum(p.body[keep..]) % 0x1_0000 == 0
              then Got(p.(body := p.body[..keep]), p.body[keep..] + rest)
              else BadChecksum
  {
    LengthExactly(p, HEADER_SIZE + keep, rest, g);
    Slices(p.body, keep, rest);
    var kept, cut := Sum(p.body[..keep]), Sum(p.body[keep..]);
    assert Sum(p.body) == kept + cut by {
      SumAppend(p.body[..keep], p.body[keep..]);
    }
    SameRemainder(kept, cut);
  }

  predicate AllSendable(ps: seq<Packet>) {
    forall i :: 0 <= i < |ps| ==> |ps[i].body| <= MAX_BODY
  }

  function FrameAll(ps: seq<Packet>): seq<byte>
    requires AllSendable(ps)
  {
    if ps == [] then [] else Frame(ps[0]) + FrameAll(ps[1..])
  }

  function SeqNums(ps: seq<Packet>): seq<uint32> {
    if ps == [] then [] else [ps[0].seqNum] + SeqNums(ps[1..])
  }

  /** The first `n` packets a server reads off a stream, until something is wrong. */
  function ServerReads(s: seq<byte>, g: Guard, n: nat): (seq<Packet>, seq<byte>)
    decreases n
  {
    if n == 0 then ([], s)
    else
      var (r, g') := ServerParse(s, g);
      if !r.Got? then ([], s)
      else
        var (ps, rest) := ServerReads(r.rest, g', n - 1);
        ([r.packet] + ps, rest)
  }

  lemma {:induction false} AcceptedLength(g: Guard, ns: seq<uint32>)
    ensures |Accepted(g, ns)| <= |ns|
    decreases |ns|
  {
    if ns != [] {
      AcceptedLength(Judged(g, ns[0]).0, ns[1..]);
    }
  }

  lemma {:induction false} AcceptedAll(g: Guard, n: uint32, ns: seq<uint32>)
    requires Accepted(g, [n] + ns) == [n] + ns
    ensures Judged(g, n).1 && Accepted(Judged(g, n).0, ns) == ns
  {
    var (g', ok) := Judged(g, n);
    AcceptedLength(g', ns);
    assert ([n] + ns)[1..] == ns;
    assert Accepted(g, [n] + ns) == (if ok then [n] else []) + Accepted(g', ns);
    assert ([n] + Accepted(g', ns))[1..] == Accepted(g', ns);
  }

  lemma ReadsOneMore(s: seq<byte>, g: Guard, p: Packet, t: seq<byte>, g': Guard, n: nat)
    requires ServerParse(s, g) == (Got(p, t), g')
    ensures ServerReads(s, g, n + 1) == ([p] + ServerReads(t, g', n).0, ServerReads(t, g', n).1)
  {
  }

  lemma {:induction false} FrameAllCons(ps: seq<Packet>, rest: seq<byte>)
    requires AllSendable(ps) && ps != []
    ensures FrameAll(ps) + rest == Frame(ps[0]) + (FrameAll(ps[1..]) + rest)
  {
  }

  lemma {:induction false} StreamCons(ps: seq<Packet>, rest: seq<byte>, g: Guard)
    requires AllSendable(ps) && ps != [] && Judged(g, ps[0].seqNum).1
    requires ServerReads(FrameAll(ps[1..]) + rest, Judged(g, ps[0].seqNum).0, |ps| - 1) == (ps[1..], rest)
    ensures ServerReads(FrameAll(ps) + rest, g, |ps|) == (ps, rest)
  {
    var p, t := ps[0], FrameAll(ps[1..]) + rest;
    FrameAllCons(ps, rest);
    FrameParsed(p, t, g);
    ReadsOneMore(Frame(p) + t, g, p, t, Judged(g, p.seqNum).0, |ps| - 1);
    assert [p] + ps[1..] == ps;
  }

  /** A list of packets whose numbers the guard accepts is read back as the same list, in order. */
  lemma {:induction false} StreamRead(ps: seq<Packet>, rest: seq<byte>, g: Guard)
    requires AllSendable(ps) && Accepted(g, SeqNums(ps)) == SeqNums(ps)
    ensures ServerReads(FrameAll(ps) + rest, g, |ps|) == (ps, rest)
    decreases |ps|
  {
    if ps == [] {
      assert FrameAll(ps) + rest == rest;
    } else {
      AcceptedAll(g, ps[0].seqNum, SeqNums(ps[1..]));
      StreamRead(ps[1..], rest, Judged(g, ps[0].seqNum).0);
      StreamCons(ps, rest, g);
    }
  }

  /** The first `n` packets a client reads off a stream, until something is wrong. */
  function ClientReads(s: seq<byte>, n: nat): (seq<Packet>, seq<byte>)
    decreases n
  {
    if n == 0 then ([], s)
    else
      var r := ClientParse(s);
      if !r.Got? then ([], s)
      else
        var (ps, rest) := ClientReads(r.rest, n - 1);
        ([r.packet] + ps, rest)
  }

  lemma ClientReadsOneMore(s: seq<byte>, p: Packet, t: seq<byte>, n: nat)
    requires ClientParse(s) == Got(p, t)
    ensures ClientReads(s, n + 1) == ([p] + ClientReads(t, n).0, ClientReads(t, n).1)
  {
  }

  lemma {:induction false} ClientStreamCons(ps: seq<Packet>, rest: seq<byte>)
    requires AllSendable(ps) && ps != [] && ClientReads(FrameAll(ps[1..]) + rest, |ps| - 1) == (ps[1..], rest)
    ensures ClientReads(FrameAll(ps) + rest, |ps|) == (ps, rest)
  {
    var p, t := ps[0], FrameAll(ps[1..]) + rest;
    FrameAllCons(ps, rest);
    FrameParsed(p, t, NEW_GUARD);
    ClientReadsOneMore(Frame(p) + t, p, t, |ps| - 1);
    assert [p] + ps[1..] == ps;
  }

  /** Any list of packets is read back by a client as the same list, in order. */
  lemma {:induction false} ClientStreamRead(ps: seq<Packet>, rest: seq<byte>)
    requires AllSendable(ps)
    ensures ClientReads(FrameAll(ps) + rest, |ps|) == (ps, rest)
    decreases |ps|
  {
    if ps == [] {
      assert FrameAll(ps) + rest == rest;
    } else {
      ClientStreamRead(ps[1..], rest);
      ClientStreamCons(ps, rest);
    }
  }

  /** The stream `s` begins with the frames of `ps`, whose numbers the guard accepts, and goes on with `rest`. */
  ghost predicate Carries(s: seq<byte>, g: Guard, ps: seq<Packet>, rest: seq<byte>) {
    AllSendable(ps) && s == FrameAll(ps) + rest && Accepted(g, SeqNums(ps)) == SeqNums(ps)
  }

  /** The same with whatever numbers. */
  ghost predicate CarriesAny(s: seq<byte>, ps: seq<Packet>, rest: seq<byte>) {
    AllSendable(ps) && s == FrameAll(ps) + rest
  }
}
