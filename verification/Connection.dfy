/**
 Reading and writing packets over a connection that moves any number of bytes at a time.
 What each call of the transport does is a script chosen by the environment.
 */
module Connection {
  import opened Replay
  import opened Validator
  import opened Packets

  /** One transport call: try again, fail for good, or move up to `n` bytes. */
  datatype Transfer = Retry | Broken | Move(n: nat)

  /** Never fails and every move moves something. */
  predicate Steady(script: seq<Transfer>) {
    forall t :: t in script ==> !t.Broken? && (t.Move? ==> t.n >= 1)
  }

  function Moves(script: seq<Transfer>): nat {
    if script == [] then 0 else (if script[0].Move? then 1 else 0) + Moves(script[1..])
  }

  function Least(x: nat, y: nat): nat {
    if x < y then x else y
  }

  class Conn {
    var incoming: seq<byte>
    var sent: seq<byte>
    var readScript: seq<Transfer>
    var writeScript: seq<Transfer>

    /** The transport will deliver everything that is on its way, in whatever pieces. */
    ghost predicate Fed()
      reads this
    {
      Steady(readScript) && Moves(readScript) >= |incoming|
    }

    /** The transport will take `n` more bytes, in whatever pieces, without asking to retry. */
    ghost predicate Draining(n: nat)
      reads this
    {
      Steady(writeScript) && Moves(writeScript) >= n && forall t :: t in writeScript ==> t.Move?
    }

    constructor (incoming: seq<byte>, readScript: seq<Transfer>, writeScript: seq<Transfer>)
      ensures this.incoming == incoming && sent == []
      ensures this.readScript == readScript && this.writeScript == writeScript
    {
      this.incoming := incoming;
      this.readScript := readScript;
      this.writeScript := writeScript;
      sent := [];
    }

    /** One transport read of at most `max` bytes into the buffer. */
    method Read(buf: array<byte>, off: nat, max: nat) returns (n: int, again: bool)
      requires off + max <= buf.Length && max > 0
      modifies this`incoming, this`readScript, buf
      ensures n <= max && n <= |old(incoming)|
      ensures buf[..off] == old(buf[..off])
      ensures n > 0 ==> buf[off..off + n] == old(incoming)[..n] && incoming == old(incoming)[n..]
      ensures n <= 0 ==> incoming == old(incoming)
      ensures again ==> n <= 0 && |readScript| < |old(readScript)|
      ensures old(Fed()) && |old(incoming)| > 0 ==> Fed() && (n > 0 || again)
    {
      if readScript == [] {
        return -1, false;
      }
      var t := readScript[0];
      readScript := readScript[1..];
      match t
      case Retry => n, again := -1, true;
      case Broken => n, again := -1, false;
      case Move(k) =>
        var m := Least(k, Least(max, |incoming|));
        for j := 0 to m
          modifies buf
          invariant buf[..off] == old(buf[..off])
          invariant buf[off..off + j] == incoming[..j]
        {
          buf[off + j] := incoming[j];
        }
        incoming := incoming[m..];
        n, again := m, false;
    }

    /** One transport write of at most the bytes given. */
    method Write(data: seq<byte>) returns (n: int)
      requires data != []
      modifies this`sent, this`writeScript
      ensures n <= |data|
      ensures sent == old(sent) + if n > 0 then data[..n] else []
      ensures old(Draining(|data|)) ==> n > 0 && Draining(|data| - n)
    {
      if writeScript == [] {
        return -1;
      }
      var t := writeScript[0];
      writeScript := writeScript[1..];
      if t.Move? {
        n := Least(t.n, |data|);
        sent := sent + data[..n];
      } else {
        n := -1;
      }
    }
  }

  /** Fills `n` bytes of the buffer from `off`, however many reads it takes. */
  method ReadFully(conn: Conn, buf: array<byte>, off: nat, n: nat) returns (ok: bool)
    requires off + n <= buf.Length
    modifies conn`incoming, conn`readScript, buf
    ensures buf[..off] == old(buf[..off])
    ensures ok ==> n <= |old(conn.incoming)| && buf[off..off + n] == old(conn.incoming)[..n]
                   && conn.incoming == old(conn.incoming)[n..]
    ensures old(conn.Fed()) && n <= |old(conn.incoming)| ==> ok && conn.Fed()
  {
    var received := 0;
    while received < n
      invariant 0 <= received <= n && received <= |old(conn.incoming)|
      invariant buf[..off] == old(buf[..off])
      invariant buf[off..off + received] == old(conn.incoming)[..received]
      invariant conn.incoming == old(conn.incoming)[received..]
      invariant old(conn.Fed()) && n <= |old(conn.incoming)| ==> conn.Fed()
      decreases n - received, |conn.readScript|
    {
      ghost var filled := buf[..off + received];
      assert filled[off..] == old(conn.incoming)[..received];
      var k, again := conn.Read(buf, off + received, n - received);
      assert buf[..off + received] == filled;
      assert buf[off..off + received] == filled[off..] && buf[..off] == filled[..off];
      if k <= 0 {
        if again {
          continue;
        }
        return false;
      }
      assert buf[off..off + received + k] == buf[off..off + received] + buf[off + received..off + received + k];
      received := received + k;
    }
    ok := true;
  }

  /** The additive checksum, in a 32-bit accumulator that bodies of this size cannot overflow. */
  method CalcChecksum(data: array<byte>, off: nat, len: nat) returns (sum16: uint16)
    requires off + len <= data.Length && len <= MAX_BODY
    ensures sum16 == Checksum(data[off..off + len]) == Sum(data[off..off + len]) % 65536
  {
    var sum: uint32 := 0;
    for i := 0 to len
      invariant sum == Sum(data[off..off + i]) <= 255 * i
    {
      assert data[off..off + i + 1][..i] == data[off..off + i];
      sum := sum + data[off + i];
    }
    sum16 := sum % 0x1_0000;
  }

  method LoadWord(buf: array<byte>, at: nat) returns (n: uint32)
    requires at + 4 <= buf.Length
    ensures n == Read32(buf[..], at)
  {
    var b0: int, b1: int, b2: int, b3: int := buf[at], buf[at + 1], buf[at + 2], buf[at + 3];
    n := b0 + 256 * b1 + 0x1_0000 * (b2 + 256 * b3);
  }

  method LoadHalf(buf: array<byte>, at: nat) returns (n: uint16)
    requires at + 2 <= buf.Length
    ensures n == Read16(buf[..], at)
  {
    var b0: int, b1: int := buf[at], buf[at + 1];
    n := b0 + 256 * b1;
  }

  /**
   The server reads one packet into the connection's buffer. Success is exactly what the
   stream holds; on a transport that delivers, failure is exactly what the stream deserves.
   */
  method ReceivePacket(conn: Conn, buf: array<byte>, rp: ReplayProtection) returns (ok: bool)
    requires buf.Length == PACKET_SIZE
    modifies conn`incoming, conn`readScript, buf, rp
    ensures var (r, g) := ServerParse(old(conn.incoming), old(rp.View()));
            && (ok ==> r.Got? && g == rp.View() && conn.incoming == r.rest && Received(buf[..], r.packet))
            && (old(conn.Fed()) && r.Got? ==> ok && conn.Fed())
  {
    var stream := conn.incoming;
    ok := ReadFully(conn, buf, 0, HEADER_SIZE);
    if !ok {
      return false;
    }
    assert buf[0..HEADER_SIZE] == buf[..HEADER_SIZE] == stream[..HEADER_SIZE];
    SameHeader(buf[..], stream);
    var length := LoadWord(buf, 0);
    if length < HEADER_SIZE || length > PACKET_SIZE {
      return false;
    }
    var seqNum := LoadWord(buf, 8);
    ok := rp.Validate(seqNum);
    if !ok {
      return false;
    }
    var bodyLen := length - HEADER_SIZE;
    ok := ReadFully(conn, buf, HEADER_SIZE, bodyLen);
    if !ok {
      return false;
    }
    SameHeader(buf[..], stream);
    assert buf[HEADER_SIZE..length] == stream[HEADER_SIZE..][..bodyLen] == stream[HEADER_SIZE..length];
    assert stream[HEADER_SIZE..][bodyLen..] == stream[length..];
    var calculated := CalcChecksum(buf, HEADER_SIZE, bodyLen);
    var expected := LoadHalf(buf, 6);
    if calculated != expected {
      return false;
    }
    ok := true;
  }

  /** The buffer's fields are those of the packet. */
  ghost predicate Received(s: seq<byte>, p: Packet) {
    && |s| == PACKET_SIZE && |p.body| <= MAX_BODY
    && Read16(s, 4) == p.opcode && Read32(s, 8) == p.seqNum && Read32(s, 0) == HEADER_SIZE + |p.body|
    && s[HEADER_SIZE..HEADER_SIZE + |p.body|] == p.body
  }

  lemma SameHeader(s: seq<byte>, t: seq<byte>)
    requires |s| >= HEADER_SIZE && |t| >= HEADER_SIZE && s[..HEADER_SIZE] == t[..HEADER_SIZE]
    ensures Read32(s, 0) == Read32(t, 0) && Read16(s, 4) == Read16(t, 4)
    ensures Read16(s, 6) == Read16(t, 6) && Read32(s, 8) == Read32(t, 8)
  {
    assert forall i :: 0 <= i < HEADER_SIZE ==> s[i] == s[..HEADER_SIZE][i] == t[i];
  }

  method StoreWord(buf: array<byte>, at: nat, n: uint32)
    requires at + 4 <= buf.Length
    modifies buf
    ensures buf[..] == old(buf[..at]) + LE32(n) + old(buf[at + 4..])
  {
    var lo: uint16, hi: uint16 := n % 0x1_0000, n / 0x1_0000;
    buf[at], buf[at + 1], buf[at + 2], buf[at + 3] := lo % 256, lo / 256, hi % 256, hi / 256;
  }

  method StoreHalf(buf: array<byte>, at: nat, n: uint16)
    requires at + 2 <= buf.Length
    modifies buf
    ensures buf[..] == old(buf[..at]) + LE16(n) + old(buf[at + 2..])
  {
    buf[at], buf[at + 1] := n % 256, n / 256;
  }

  /** The packet prepared in a buffer: opcode, number and the first `len` body bytes. */
  function Prepared(s: seq<byte>, len: nat): Packet
    requires |s| == PACKET_SIZE && len <= MAX_BODY
  {
    Packet(Read16(s, 4), Read32(s, 8), s[HEADER_SIZE..HEADER_SIZE + len])
  }

  /** What goes out for a prepared buffer: its own bytes, with length and sum filled in. */
  lemma PreparedBytes(s: seq<byte>, len: nat)
    requires |s| == 1036 && len <= 1024
    ensures var f := Frame(Prepared(s, len));
            && |f| == 12 + len && Number(f[0..4]) == 12 + len && f[4..6] == s[4..6]
            && Number(f[6..8]) == Sum(s[12..12 + len]) % 65536 && f[8..] == s[8..12 + len]
  {
    var p := Prepared(s, len);
    var f := Frame(p);
    FrameBytes(p);
    LE16Read(s, 4);
    LE32Read(s, 8);
    assert f[..12] == LE32(12 + len) + LE16(p.opcode) + LE16(Checksum(p.body)) + LE32(p.seqNum);
    assert f[4..6] == f[..12][4..6] && f[8..12] == f[..12][8..12];
    assert f[8..] == f[8..12] + f[12..];
    assert s[8..12 + len] == s[8..12] + s[12..12 + len];
  }

  /** The buffer of a received packet holds its bytes. */
  lemma ReceivedBytes(s: seq<byte>, p: Packet)
    requires Received(s, p)
    ensures Number(s[0..4]) == 12 + |p.body| && Number(s[4..6]) == p.opcode && Number(s[8..12]) == p.seqNum
    ensures 12 + |p.body| <= |s| && s[12..12 + |p.body|] == p.body
  {
    ReadsNumber(s, 0);
    ReadsNumber(s, 4);
    ReadsNumber(s, 8);
  }

  lemma Halves(lo: uint16, hi: uint16)
    ensures (lo + 0x1_0000 * hi) % 0x1_0000 == lo && (lo + 0x1_0000 * hi) / 0x1_0000 == hi
  {
  }

  lemma LE16Read(s: seq<byte>, at: nat)
    requires at + 2 <= |s|
    ensures s[at..at + 2] == LE16(Read16(s, at))
  {
  }

  lemma LE32Read(s: seq<byte>, at: nat)
    requires at + 4 <= |s|
    ensures s[at..at + 4] == LE32(Read32(s, at))
  {
    Halves(Read16(s, at), Read16(s, at + 2));
    LE16Read(s, at);
    LE16Read(s, at + 2);
    assert s[at..at + 4] == s[at..at + 2] + s[at + 2..at + 4];
    assert LE32(Read32(s, at)) == LE16(Read16(s, at)) + LE16(Read16(s, at + 2));
  }

  /** Filling in length and checksum turns a prepared buffer into the packet's frame. */
  lemma Completed(s: seq<byte>, t: seq<byte>, len: nat)
    requires |s| == |t| == PACKET_SIZE && len <= MAX_BODY
    requires t == LE32(HEADER_SIZE + len) + s[4..6] + LE16(Checksum(s[HEADER_SIZE..HEADER_SIZE + len])) + s[8..]
    ensures t[..HEADER_SIZE + len] == Frame(Prepared(s, len))
  {
    LE16Read(s, 4);
    LE32Read(s, 8);
    assert t[..HEADER_SIZE + len] == t[..HEADER_SIZE] + t[HEADER_SIZE..HEADER_SIZE + len];
    assert t[..HEADER_SIZE] == t[0..4] + t[4..6] + t[6..8] + t[8..12];
    assert t[8..12] == s[8..12] && t[HEADER_SIZE..HEADER_SIZE + len] == s[HEADER_SIZE..HEADER_SIZE + len];
  }

  /** Length and checksum, as both sides set them before sending. */
  method Complete(pkt: array<byte>, payload: nat)
    requires pkt.Length == PACKET_SIZE && payload <= MAX_BODY
    modifies pkt
    ensures pkt[..HEADER_SIZE + payload] == Frame(Prepared(old(pkt[..]), payload))
  {
    ghost var s := pkt[..];
    StoreWord(pkt, 0, HEADER_SIZE + payload);
    assert pkt[..] == LE32(HEADER_SIZE + payload) + s[4..];
    assert pkt[HEADER_SIZE..HEADER_SIZE + payload] == pkt[..][HEADER_SIZE..HEADER_SIZE + payload];
    assert pkt[HEADER_SIZE..HEADER_SIZE + payload] == s[HEADER_SIZE..HEADER_SIZE + payload];
    var sum := CalcChecksum(pkt, HEADER_SIZE, payload);
    StoreHalf(pkt, 6, sum);
    assert pkt[..] == LE32(HEADER_SIZE + payload) + s[4..6] + LE16(sum) + s[8..];
    Completed(s, pkt[..], payload);
    assert pkt[..][..HEADER_SIZE + payload] == pkt[..HEADER_SIZE + payload];
  }

  /**
   The server sends a packet in as many writes as it takes. Success means the whole frame went
   out; failure that only a part of it did; a transport that takes bytes means success.
   */
  method SendPacket(conn: Conn, pkt: array<byte>, payload: nat) returns (ok: bool)
    requires pkt.Length == PACKET_SIZE && payload <= MAX_BODY
    modifies conn`sent, conn`writeScript, pkt
    ensures var f := Frame(Prepared(old(pkt[..]), payload));
            && (ok ==> conn.sent == old(conn.sent) + f)
            && (!ok ==> exists k :: 0 <= k < |f| && conn.sent == old(conn.sent) + f[..k])
            && (old(conn.Draining(|f|)) ==> ok)
  {
    Complete(pkt, payload);
    ok := WriteFully(conn, pkt, HEADER_SIZE + payload);
  }

  /** Writes the first `total` bytes of the buffer, however many writes it takes. */
  method WriteFully(conn: Conn, buf: array<byte>, total: nat) returns (ok: bool)
    requires total <= buf.Length
    modifies conn`sent, conn`writeScript
    ensures ok ==> conn.sent == old(conn.sent) + buf[..total]
    ensures !ok ==> exists k :: 0 <= k < total && conn.sent == old(conn.sent) + buf[..total][..k]
    ensures old(conn.Draining(total)) ==> ok
  {
    ghost var f := buf[..total];
    var sentTotal := 0;
    assert conn.sent == old(conn.sent) + f[..sentTotal];
    while sentTotal < total
      invariant 0 <= sentTotal <= total
      invariant conn.sent == old(conn.sent) + f[..sentTotal]
      invariant old(conn.Draining(total)) ==> conn.Draining(total - sentTotal)
      decreases total - sentTotal
    {
      assert buf[sentTotal..total] == f[sentTotal..];
      var n := conn.Write(buf[sentTotal..total]);
      if n <= 0 {
        assert conn.sent == old(conn.sent) + f[..sentTotal] && buf[..total] == f;
        return false;
      }
      assert f[..sentTotal + n] == f[..sentTotal] + f[sentTotal..][..n];
      sentTotal := sentTotal + n;
    }
    assert f[..total] == f;
    ok := true;
  }

  /** The client sends in one write and gives up on a partial one. */
  method SendLocal(conn: Conn, pkt: array<byte>, payload: nat) returns (ok: bool)
    requires pkt.Length == PACKET_SIZE && payload <= MAX_BODY
    modifies conn`sent, conn`writeScript, pkt
    ensures var f := Frame(Prepared(old(pkt[..]), payload));
            && (ok ==> conn.sent == old(conn.sent) + f)
            && (!ok ==> exists k :: 0 <= k < |f| && conn.sent == old(conn.sent) + f[..k])
  {
    ghost var f := Frame(Prepared(pkt[..], payload));
    Complete(pkt, payload);
    var total := HEADER_SIZE + payload;
    var n := conn.Write(pkt[..total]);
    if n < 0 {
      assert conn.sent == old(conn.sent) + f[..0];
      return false;
    }
    if n != total {
      assert conn.sent == old(conn.sent) + f[..n];
      return false;
    }
    assert f[..n] == f;
    ok := true;
  }

  /** The client reads one packet; a wrong checksum does not stop it. */
  method ReceiveLocal(conn: Conn, buf: array<byte>) returns (ok: bool)
    requires buf.Length == PACKET_SIZE
    modifies conn`incoming, conn`readScript, buf
    ensures var r := ClientParse(old(conn.incoming));
            && (ok ==> r.Got? && conn.incoming == r.rest && Received(buf[..], r.packet))
            && (old(conn.Fed()) && r.Got? ==> ok && conn.Fed())
  {
    var stream := conn.incoming;
    ok := ReadFully(conn, buf, 0, HEADER_SIZE);
    if !ok {
      return false;
    }
    assert buf[0..HEADER_SIZE] == buf[..HEADER_SIZE] == stream[..HEADER_SIZE];
    SameHeader(buf[..], stream);
    var length := LoadWord(buf, 0);
    if length < HEADER_SIZE || length > PACKET_SIZE {
      return false;
    }
    var bodyLen := length - HEADER_SIZE;
    ok := ReadFully(conn, buf, HEADER_SIZE, bodyLen);
    if !ok {
      return false;
    }
    SameHeader(buf[..], stream);
    assert buf[HEADER_SIZE..length] == stream[HEADER_SIZE..][..bodyLen] == stream[HEADER_SIZE..length];
    assert stream[HEADER_SIZE..][bodyLen..] == stream[length..];
  }

  /** The packet a buffer holds after a successful read. */
  function Unpacked(s: seq<byte>): Packet
    requires |s| == PACKET_SIZE && LengthOk(Read32(s, 0))
  {
    Packet(Read16(s, 4), Read32(s, 8), s[HEADER_SIZE..Read32(s, 0)])
  }

  lemma {:induction false} CarriedIsRead(s: seq<byte>, g: Guard, n: nat)
    ensures forall qs, rest :: Carries(s, g, qs, rest) && |qs| == n ==> ServerReads(s, g, n) == (qs, rest)
  {
    forall qs, rest | Carries(s, g, qs, rest) && |qs| == n
      ensures ServerReads(s, g, n) == (qs, rest)
    {
      StreamRead(qs, rest, g);
    }
  }

  /** Packets read so far and still to be read, before and after one more read. */
  lemma ReadsAfter(ps: seq<Packet>, s: seq<byte>, g: Guard, p: Packet, t: seq<byte>, g': Guard, n: nat)
    requires ServerParse(s, g) == (Got(p, t), g')
    ensures ps + ServerReads(s, g, n + 1).0 == (ps + [p]) + ServerReads(t, g', n).0
    ensures ServerReads(s, g, n + 1).1 == ServerReads(t, g', n).1
  {
    ReadsOneMore(s, g, p, t, g', n);
  }

  /** The receiving side of the session loop, `n` packets long: the packets the stream holds, in order. */
  method ReceiveStream(conn: Conn, buf: array<byte>, rp: ReplayProtection, n: nat) returns (ps: seq<Packet>)
    requires buf.Length == PACKET_SIZE
    modifies conn`incoming, conn`readScript, buf, rp
    ensures |ps| <= n && ps <= ServerReads(old(conn.incoming), old(rp.View()), n).0
    ensures old(conn.Fed()) ==> ps == ServerReads(old(conn.incoming), old(rp.View()), n).0
    ensures |ps| == n ==> conn.incoming == ServerReads(old(conn.incoming), old(rp.View()), n).1
  {
    ps := [];
    ghost var s0, g0 := conn.incoming, rp.View();
    var k := 0;
    assert [] + ServerReads(s0, g0, n).0 == ServerReads(s0, g0, n).0;
    while k < n
      invariant 0 <= k <= n && |ps| == k
      invariant ServerReads(s0, g0, n).0 == ps + ServerReads(conn.incoming, rp.View(), n - k).0
      invariant ServerReads(s0, g0, n).1 == ServerReads(conn.incoming, rp.View(), n - k).1
      invariant old(conn.Fed()) ==> conn.Fed()
    {
      var p := ReceiveNext(conn, buf, rp, ps, n - k - 1);
      if p.None? {
        return;
      }
      ps := ps + [p.packet];
      k := k + 1;
    }
  }

  /** On a transport that delivers, in whatever pieces, what was sent arrives, and nothing of what follows. */
  method ReceiveSession(conn: Conn, buf: array<byte>, rp: ReplayProtection, n: nat) returns (ps: seq<Packet>)
    requires buf.Length == PACKET_SIZE
    modifies conn`incoming, conn`readScript, buf, rp
    ensures old(conn.Fed()) ==>
              forall qs, rest :: Carries(old(conn.incoming), old(rp.View()), qs, rest) && |qs| == n ==>
                ps == qs && conn.incoming == rest
  {
    CarriedIsRead(conn.incoming, rp.View(), n);
    ps := ReceiveStream(conn, buf, rp, n);
  }

  datatype MaybePacket = None | Some(packet: Packet)

  /** One more packet of a stream of which `ps` was read and `n` are to be read after it. */
  method ReceiveNext(conn: Conn, buf: array<byte>, rp: ReplayProtection, ghost ps: seq<Packet>, ghost n: nat)
    returns (p: MaybePacket)
    requires buf.Length == PACKET_SIZE
    modifies conn`incoming, conn`readScript, buf, rp
    ensures var s, g := old(conn.incoming), old(rp.View());
            && (old(conn.Fed()) ==> if p.Some? then conn.Fed() else ServerReads(s, g, n + 1).0 == [])
            && (p.Some? ==>
                  && ps + ServerReads(s, g, n + 1).0 == (ps + [p.packet]) + ServerReads(conn.incoming, rp.View(), n).0
                  && ServerReads(s, g, n + 1).1 == ServerReads(conn.incoming, rp.View(), n).1)
  {
    ghost var s, g := conn.incoming, rp.View();
    var ok := ReceivePacket(conn, buf, rp);
    if !ok {
      return None;
    }
    p := Some(Unpacked(buf[..]));
    assert p.packet == ServerParse(s, g).0.packet;
    ReadsAfter(ps, s, g, p.packet, conn.incoming, rp.View(), n);
  }

  lemma ClientReadsAfter(ps: seq<Packet>, s: seq<byte>, p: Packet, t: seq<byte>, n: nat)
    requires ClientParse(s) == Got(p, t)
    ensures ps + ClientReads(s, n + 1).0 == (ps + [p]) + ClientReads(t, n).0
    ensures ClientReads(s, n + 1).1 == ClientReads(t, n).1
  {
    ClientReadsOneMore(s, p, t, n);
  }

  /** One more answer of a stream of which `ps` was read and `n` are to be read after it. */
  method ReceiveNextLocal(conn: Conn, buf: array<byte>, ghost ps: seq<Packet>, ghost n: nat) returns (p: MaybePacket)
    requires buf.Length == PACKET_SIZE
    modifies conn`incoming, conn`readScript, buf
    ensures var s := old(conn.incoming);
            && (old(conn.Fed()) ==> if p.Some? then conn.Fed() else ClientReads(s, n + 1).0 == [])
            && (p.Some? ==>
                  && ps + ClientReads(s, n + 1).0 == (ps + [p.packet]) + ClientReads(conn.incoming, n).0
                  && ClientReads(s, n + 1).1 == ClientReads(conn.incoming, n).1)
  {
    ghost var s := conn.incoming;
    var ok := ReceiveLocal(conn, buf);
    if !ok {
      return None;
    }
    p := Some(Unpacked(buf[..]));
    assert p.packet == ClientParse(s).packet;
    ClientReadsAfter(ps, s, p.packet, conn.incoming, n);
  }

  /** The receiving side of the network thread's loop, `n` answers long. */
  method ReceiveAnswers(conn: Conn, buf: array<byte>, n: nat) returns (ps: seq<Packet>)
    requires buf.Length == PACKET_SIZE
    modifies conn`incoming, conn`readScript, buf
    ensures old(conn.Fed()) ==> ps == ClientReads(old(conn.incoming), n).0
    ensures |ps| <= n && (|ps| == n ==> conn.incoming == ClientReads(old(conn.incoming), n).1)
    ensures old(conn.Fed()) ==>
              forall qs, rest :: CarriesAny(old(conn.incoming), qs, rest) && |qs| == n ==>
                ps == qs && conn.incoming == rest
  {
    ps := [];
    ghost var s0 := conn.incoming;
    CarriedIsReadLocal(s0, n);
    var k := 0;
    assert [] + ClientReads(s0, n).0 == ClientReads(s0, n).0;
    while k < n
      invariant 0 <= k <= n && |ps| == k
      invariant ClientReads(s0, n).0 == ps + ClientReads(conn.incoming, n - k).0
      invariant ClientReads(s0, n).1 == ClientReads(conn.incoming, n - k).1
      invariant old(conn.Fed()) ==> conn.Fed()
    {
      var p := ReceiveNextLocal(conn, buf, ps, n - k - 1);
      if p.None? {
        return;
      }
      ps := ps + [p.packet];
      k := k + 1;
    }
  }

  lemma {:induction false} CarriedIsReadLocal(s: seq<byte>, n: nat)
    ensures forall qs, rest :: CarriesAny(s, qs, rest) && |qs| == n ==> ClientReads(s, n) == (qs, rest)
  {
    forall qs, rest | CarriesAny(s, qs, rest) && |qs| == n
      ensures ClientReads(s, n) == (qs, rest)
    {
      ClientStreamRead(qs, rest);
    }
  }
}
