/** A network handle's receive side (src/net_service.c): a TCP byte stream with
    drop-free back-pressure, optionally through the TELNET filter, or a queue of
    UDP datagram records, over one ring. */
module NetHandle {
  import opened Bytes
  import opened Circular
  import opened NetRing
  import opened TelnetSpec
  import opened TelnetFilter

  const NET_OK: byte := 0
  const NET_EOF: byte := 0x20
  const NET_ERR_NOTOPEN: byte := 0x22
  const NET_ERR_PARAM: byte := 0x23
  const NET_ERR_CONN: byte := 0x25
  const RECORD_HEADER := 8

  datatype Kind = Tcp | Udp
  datatype Link = Free | Live | Failed

  // ---- datagram records ---------------------------------------------------

  /** An inbound datagram; `ip` is the address as lwIP stores it. */
  datatype Dgram = Dgram(ip: u32, port: u16, data: seq<byte>)

  predicate Small(d: Dgram) {
    |d.data| < 0x1_0000
  }

  function Record(d: Dgram): (r: seq<byte>)
    requires Small(d)
    ensures |r| == RECORD_HEADER + |d.data|
  {
    Le32(d.ip) + Le16(d.port) + Le16(|d.data|) + d.data
  }

  predicate AllSmall(ds: seq<Dgram>) {
    forall i :: 0 <= i < |ds| ==> Small(ds[i])
  }

  /** The ring's contents when it holds exactly these datagrams. */
  function Records(ds: seq<Dgram>): (r: seq<byte>)
    requires AllSmall(ds)
    ensures ds != [] ==> |r| >= RECORD_HEADER + |ds[0].data|
    ensures ds == [] ==> r == []
  {
    if ds == [] then [] else Record(ds[0]) + Records(ds[1..])
  }

  lemma {:induction false} RecordsAppend(ds: seq<Dgram>, d: Dgram)
    requires AllSmall(ds) && Small(d)
    ensures AllSmall(ds + [d]) && Records(ds + [d]) == Records(ds) + Record(d)
  {
    hide Record;
    if ds == [] {
      assert [d][1..] == [] && Records([d]) == Record(d) + Records([]);
    } else {
      assert (ds + [d])[1..] == ds[1..] + [d];
      RecordsAppend(ds[1..], d);
    }
  }

  /** What the header of the oldest record says. */
  lemma HeaderReads(ds: seq<Dgram>)
    requires AllSmall(ds) && ds != []
    ensures var r := Records(ds);
            && FromLe32(r) == ds[0].ip && FromLe16(r[4..]) == ds[0].port && FromLe16(r[6..]) == |ds[0].data|
            && r[8..8 + |ds[0].data|] == ds[0].data && r[8 + |ds[0].data|..] == Records(ds[1..])
  {
    RecordReads(ds[0], Records(ds[1..]));
    hide Record, FromLe32, FromLe16;
    assert Records(ds) == Record(ds[0]) + Records(ds[1..]);
  }

  lemma RecordReads(d: Dgram, rest: seq<byte>)
    requires Small(d)
    ensures var r := Record(d) + rest;
            && FromLe32(r) == d.ip && FromLe16(r[4..]) == d.port && FromLe16(r[6..]) == |d.data|
            && r[8..8 + |d.data|] == d.data && r[8 + |d.data|..] == rest
  {
    var r := Record(d) + rest;
    Le32RoundTrip(d.ip);
    assert r[..4] == Le32(d.ip) && r[4..6] == Le16(d.port) && r[6..8] == Le16(|d.data|);
    assert forall i :: 0 <= i < 4 ==> r[i] == r[..4][i];
    assert r[4] == r[4..6][0] && r[5] == r[4..6][1] && r[6] == r[6..8][0] && r[7] == r[6..8][1];
  }

  lemma {:induction false} RecordsSplit(ds: seq<Dgram>, k: nat)
    requires AllSmall(ds) && k <= |ds|
    ensures Records(ds) == Records(ds[..k]) + Records(ds[k..])
  {
    hide Record;
    if k == 0 {
      assert ds[..0] == [] && ds[0..] == ds;
    } else {
      RecordsSplit(ds[1..], k - 1);
      assert ds[1..][..k - 1] == ds[..k][1..] && ds[1..][k - 1..] == ds[k..] && ds[..k][0] == ds[0];
    }
  }

  /** The first `n` bytes are exactly the first `k` records. */
  ghost predicate OnBoundary(ds: seq<Dgram>, n: nat, k: nat)
    requires AllSmall(ds)
  {
    k <= |ds| && n == |Records(ds[..k])|
  }

  /** `view` is exactly the records from the `k`-th on. */
  ghost predicate WholeFrom(ds: seq<Dgram>, view: seq<byte>, k: nat)
    requires AllSmall(ds)
  {
    k <= |ds| && view == Records(ds[k..])
  }

  /** What is left after reading `n` bytes is whole records if and only if the read ended
      on a record boundary. */
  lemma CutOnBoundary(ds: seq<Dgram>, n: nat, k: nat)
    requires AllSmall(ds) && n <= |Records(ds)|
    ensures OnBoundary(ds, n, k) <==> WholeFrom(ds, Records(ds)[n..], k)
  {
    hide Records;
    if k <= |ds| {
      RecordsSplit(ds, k);
    }
  }

  /** So a stream read that ends inside the oldest record leaves no whole records. */
  lemma StreamReadBreaksRecords(ds: seq<Dgram>, n: nat)
    requires AllSmall(ds) && ds != [] && 0 < n < |Record(ds[0])|
    ensures n <= |Records(ds)| && !exists k :: WholeFrom(ds, Records(ds)[n..], k)
  {
    forall k: nat ensures !WholeFrom(ds, Records(ds)[n..], k) {
      CutOnBoundary(ds, n, k);
      assert 0 < k <= |ds| ==> ds[..k][0] == ds[0];
    }
  }

  /** A ring of whole records determines the datagrams it holds. */
  lemma {:induction false} RecordsUnique(a: seq<Dgram>, b: seq<Dgram>)
    requires AllSmall(a) && AllSmall(b) && Records(a) == Records(b)
    ensures a == b
  {
    hide Record;
    if a != [] && b != [] {
      HeaderReads(a);
      HeaderReads(b);
      RecordsUnique(a[1..], b[1..]);
      assert a == [a[0]] + a[1..] && b == [b[0]] + b[1..];
    }
  }

  // ---- the handle ---------------------------------------------------------

  /** The text a TCP handle owes the host for the bytes it acknowledged. */
  ghost function Clean(telnet: bool, wire: seq<byte>): seq<byte> {
    if telnet then Run(RESET, wire).out else wire
  }

  lemma CleanMore(telnet: bool, wire: seq<byte>, p: seq<byte>)
    ensures Clean(telnet, wire + p) ==
            Clean(telnet, wire) + if telnet then Run(Run(RESET, wire).ctx, p).out else p
  {
    RunConcat(RESET, wire, p);
  }

  class Handle {
    var link: Link
    var kind: Kind
    var telnet: bool
    var eof: bool
    var parked: bool
    var lastErr: byte
    const ring: ByteRing
    const filter: Telnet

    // history
    ghost var wire: seq<byte>           // bytes of the accepted TCP segments
    ghost var replies: seq<byte>        // TELNET replies handed to the transport
    ghost var taken: seq<byte>          // bytes the host has read
    ghost var accepted: seq<Dgram>      // datagrams accepted into the ring
    ghost var done: nat                 // how many of them the host has read

    /** Every byte acknowledged to the peer, and of every datagram's record, is either
        read or still queued, in order. */
    ghost predicate Valid()
      reads this, ring, ring.buf, filter
    {
      && ring.Valid() && filter.Valid()
      && match kind
         case Tcp =>
           && Clean(telnet, wire) == taken + ring.view
           && (telnet ==> filter.Abs() == Run(RESET, wire).ctx && replies == Wire(Run(RESET, wire).replies))
         case Udp => AllSmall(accepted) && Records(accepted) == taken + ring.view
    }

    /** A datagram handle's ring holds whole records: those of the datagrams from
        `done` on. */
    ghost predicate Framed()
      reads this
    {
      kind.Udp? ==> AllSmall(accepted) && OnBoundary(accepted, |taken|, done)
    }

    constructor (k: Kind, t: bool)
      ensures Valid() && Framed() && fresh(ring) && fresh(ring.buf) && fresh(filter)
      ensures kind == k && telnet == t && link == Live && wire == taken == [] && accepted == [] && done == 0
    {
      link, kind, telnet, eof, parked, lastErr := Live, k, t, false, false, NET_OK;
      wire, replies, taken, accepted, done := [], [], [], [], 0;
      ring := new ByteRing();
      filter := new Telnet();
    }

    /** A TCP event: an error, the peer's FIN, or a segment. A segment that does
        not fit is refused whole and changes nothing. */
    method TcpRecv(p: seq<byte>, fin: bool, failed: bool) returns (refused: bool)
      requires Valid() && kind.Tcp?
      modifies this`link, this`lastErr, this`eof, this`parked, this`wire, this`replies, ring, ring.buf, filter
      ensures Valid()
      ensures refused == (!failed && !fin && |p| > old(ring.Free()))
      ensures wire == old(wire) + if failed || fin || refused then [] else p
      ensures failed || fin || refused ==>
                ring.view == old(ring.view) && filter.Abs() == old(filter.Abs()) && replies == old(replies)
      ensures link == (if failed then Failed else old(link)) &&
              lastErr == (if failed then NET_ERR_CONN else old(lastErr))
      ensures eof == (old(eof) || (!failed && fin)) && parked == (if failed || fin then old(parked) else refused)
    {
      hide Run, Wire, Clip;
      refused := false;
      assert wire + [] == wire;
      if failed {
        link, lastErr := Failed, NET_ERR_CONN;
      } else if fin {
        eof := true;
      } else if |p| > ring.Free() {
        parked, refused := true, true;
      } else {
        CleanMore(telnet, wire, p);
        if telnet {
          ghost var f := Run(RESET, wire);
          RunConcat(RESET, wire, p);
          OutputBounds(f.ctx, p);
          WireConcat(f.replies, Run(f.ctx, p).replies);
          var clean, more := filter.FilterSegment(p);
          ring.Put(clean);
          replies := replies + more;
        } else {
          ring.Put(p);
        }
        parked, wire := false, wire + p;
      }
    }

    /** The host reads up to `max` bytes into its memory at `at`, of either kind of
        handle: the type is not tested. Of a datagram handle it leaves whole records if
        and only if all the bytes read so far end on a record boundary. */
    method Recv(mem: array<byte>, at: nat, max: nat) returns (status: byte, got: nat)
      requires Valid() && mem != ring.buf
      modifies this`taken, this`done, ring`tail, ring`count, ring`view, mem
      ensures Valid() && got <= |old(ring.view)|
      ensures taken == old(taken) + old(ring.view)[..got] && ring.view == old(ring.view)[got..]
      ensures kind.Udp? ==> (Framed() <==> exists k :: OnBoundary(accepted, |taken|, k))
      ensures kind.Udp? ==> (Framed() <==> exists k :: WholeFrom(accepted, ring.view, k))
      ensures if link.Free? then status == NET_ERR_NOTOPEN && got == 0
              else if at + max > mem.Length then status == NET_ERR_PARAM && got == 0
              else got == Min(max, |old(ring.view)|) &&
                   status == if got > 0 || |old(ring.view)| > 0 then NET_OK else if eof then NET_EOF
                   else if link.Failed? then (if lastErr != NET_OK then lastErr else NET_ERR_CONN) else NET_OK
      ensures at + got <= mem.Length || got == 0
      ensures mem[..] == if got == 0 then old(mem[..]) else Patched(old(mem[..]), at, old(ring.view)[..got])
    {
      hide Run, Wire, Records;
      got := 0;
      status := NET_OK;
      if link.Free? {
        status := NET_ERR_NOTOPEN;
      } else if at + max > mem.Length {
        status := NET_ERR_PARAM;
      } else {
        got := Drain(mem, at, max);
        if got == 0 && ring.count == 0 {
          if eof {
            status := NET_EOF;
          } else if link.Failed? {
            status := if lastErr != NET_OK then lastErr else NET_ERR_CONN;
          }
        }
      }
      Reframe();
    }

    /** Moves bytes out of the ring, whatever they are. */
    method Drain(mem: array<byte>, at: nat, max: nat) returns (got: nat)
      requires Valid() && mem != ring.buf && at + max <= mem.Length
      modifies this`taken, ring`tail, ring`count, ring`view, mem
      ensures Valid() && got == Min(max, |old(ring.view)|)
      ensures taken == old(taken) + old(ring.view)[..got] && ring.view == old(ring.view)[got..]
      ensures mem[..] == Patched(old(mem[..]), at, old(ring.view)[..got])
    {
      hide Run, Wire, Records, Ring, Patched;
      ghost var was := ring.view;
      got := ring.Get(mem, at, max);
      Regroup(taken, was, got);
      taken := taken + was[..got];
    }

    /** Finds the record boundary the bytes read so far end on, if they do. */
    ghost method Reframe()
      requires Valid()
      modifies this`done
      ensures Valid()
      ensures kind.Udp? ==> (Framed() <==> exists k :: OnBoundary(accepted, |taken|, k))
      ensures kind.Udp? ==> (Framed() <==> exists k :: WholeFrom(accepted, ring.view, k))
    {
      hide Run, Wire, Records, Ring, OnBoundary;
      if kind.Udp? {
        if k :| OnBoundary(accepted, |taken|, k) {
          done := k;
        }
        Remainder();
      }
    }

    /** Whole records are left exactly at a boundary. */
    lemma Remainder()
      requires Valid() && kind.Udp?
      ensures forall k :: OnBoundary(accepted, |taken|, k) <==> WholeFrom(accepted, ring.view, k)
    {
      hide Run, Wire, Records, Ring, OnBoundary, WholeFrom;
      assert ring.view == Records(accepted)[|taken|..];
      forall k ensures OnBoundary(accepted, |taken|, k) <==> WholeFrom(accepted, ring.view, k) {
        CutOnBoundary(accepted, |taken|, k);
      }
    }

    /** An inbound datagram: queued whole, or dropped whole. */
    method UdpRecv(d: Dgram)
      requires Valid() && kind.Udp?
      modifies this`accepted, ring, ring.buf
      ensures Valid() && (old(Framed()) ==> Framed())
      ensures accepted == old(accepted) + if |d.data| + RECORD_HEADER <= old(ring.Free()) then [d] else []
    {
      hide Record, Records, Run, Wire, Ring;
      if |d.data| + RECORD_HEADER <= ring.Free() {
        RecordsAppend(accepted, d);
        RecordIs(d);
        ring.Put(Le32(d.ip) + Le16(d.port) + Le16(|d.data|));
        ring.Put(d.data);
        assert done <= |accepted| ==> (accepted + [d])[..done] == accepted[..done];
        accepted := accepted + [d];
      } else {
        assert accepted + [] == accepted;
      }
    }

    method ReadHeader() returns (ip: u32, port: u16, len: u16)
      requires ring.Valid() && ring.count >= RECORD_HEADER
      modifies ring`tail, ring`count, ring`view
      ensures ring.Valid() && ring.view == old(ring.view)[8..]
      ensures ip == FromLe32(old(ring.view)) && port == FromLe16(old(ring.view)[4..]) &&
              len == FromLe16(old(ring.view)[6..])
    {
      ghost var was := ring.view;
      var hdr := new byte[RECORD_HEADER];
      ring.Move(hdr, 0, RECORD_HEADER);
      assert hdr[..] == was[..RECORD_HEADER];
      assert forall i :: 0 <= i < RECORD_HEADER ==> hdr[i] == hdr[..][i];
      return FromLe32(hdr[..]), FromLe16(hdr[4..]), FromLe16(hdr[6..]);
    }

    /** Reads the oldest datagram: its header, as much of its payload as the caller
        has room for, and past the rest, to the next record. */
    method Pop(mem: array<byte>, at: nat, max: nat) returns (ip: u32, port: u16, got: nat)
      requires Valid() && Framed() && kind.Udp? && mem != ring.buf && ring.count >= RECORD_HEADER &&
               at + max <= mem.Length
      modifies this`done, this`taken, ring`tail, ring`count, ring`view, mem
      ensures Valid() && Framed() && old(done) < |accepted| && done == old(done) + 1
      ensures var d := accepted[old(done)];
              && ip == d.ip && port == d.port && got == Min(|d.data|, max)
              && mem[..] == Patched(old(mem[..]), at, d.data[..got])
    {
      hide Record, Records, Run, Wire, FromLe32, FromLe16, ByteRing.Valid, Patched, Clean, OnBoundary;
      ghost var was := ring.view;
      RingCount();
      Remainder();
      NextRecord(accepted, taken, done, was);
      var len;
      ip, port, len, got := ReadRecord(mem, at, max);
      taken, done := taken + was[..8 + len], done + 1;
    }

    lemma RingCount()
      requires ring.Valid()
      ensures ring.count == |ring.view|
    {
    }

    /** Reads a record off the ring: its header, what fits of its payload, and past the rest. */
    method ReadRecord(mem: array<byte>, at: nat, max: nat) returns (ip: u32, port: u16, len: u16, got: nat)
      requires ring.Valid() && mem != ring.buf && at + max <= mem.Length
      requires |ring.view| >= RECORD_HEADER && 8 + FromLe16(ring.view[6..]) <= |ring.view|
      modifies ring`tail, ring`count, ring`view, mem
      ensures ring.Valid() && ip == FromLe32(old(ring.view)) && port == FromLe16(old(ring.view)[4..])
      ensures len == FromLe16(old(ring.view)[6..]) && got == Min(len, max) && ring.view == old(ring.view)[8 + len..]
      ensures mem[..] == Patched(old(mem[..]), at, old(ring.view)[8..8 + len][..got])
    {
      hide FromLe32, FromLe16, Ring, Patched;
      ghost var was := ring.view;
      ip, port, len := ReadHeader();
      got := Min(len, max);
      PayloadSlices(was, len, got);
      ring.Move(mem, at, got);
      ring.Skip(len - got);
    }

    /** Receives one datagram; none waiting reads as length 0, and so does an empty one. */
    method UdpRecvFrom(mem: array<byte>, at: nat, max: nat) returns (status: byte, ip: u32, port: u16, got: nat)
      requires Valid() && Framed() && mem != ring.buf
      modifies this`done, this`taken, ring`tail, ring`count, ring`view, mem
      ensures Valid() && Framed() && got <= max
      ensures status == if kind.Tcp? then NET_ERR_NOTOPEN else if at + max > mem.Length then NET_ERR_PARAM else NET_OK
      ensures if status == NET_OK && old(done) < |accepted|
              then done == old(done) + 1 && ip == accepted[old(done)].ip && port == accepted[old(done)].port &&
                   got == Min(|accepted[old(done)].data|, max) &&
                   mem[..] == Patched(old(mem[..]), at, accepted[old(done)].data[..got])
              else got == 0 && done == old(done) && mem[..] == old(mem[..]) && ring.view == old(ring.view)
      ensures status == NET_OK ==>
                (got == 0 <==> max == 0 || old(done) >= |accepted| || accepted[old(done)].data == [])
    {
      hide Record, Run, Wire, Ring, Patched, Clean, OnBoundary;
      status, ip, port, got := NET_OK, 0, 0, 0;
      if kind.Tcp? {
        status := NET_ERR_NOTOPEN;
      } else if at + max > mem.Length {
        status := NET_ERR_PARAM;
      } else {
        Remainder();
        if ring.count >= RECORD_HEADER {
          ip, port, got := Pop(mem, at, max);
        }
      }
    }
  }

  lemma Regroup(taken: seq<byte>, view: seq<byte>, n: nat)
    requires n <= |view|
    ensures taken + view[..n] + view[n..] == taken + view
  {
  }

  /** Where the parts of a record lie in the ring it heads. */
  lemma PayloadSlices(was: seq<byte>, len: nat, got: nat)
    requires got <= len && 8 + len <= |was|
    ensures was[8..][..got] == was[8..8 + len][..got] && was[8..][got..][len - got..] == was[8 + len..]
  {
  }

  /** The ring of a handle that has read `done` whole datagrams begins with the next. */
  lemma NextRecord(accepted: seq<Dgram>, taken: seq<byte>, done: nat, view: seq<byte>)
    requires AllSmall(accepted) && Records(accepted) == taken + view && OnBoundary(accepted, |taken|, done)
    requires view == Records(accepted[done..]) && |view| >= RECORD_HEADER
    ensures done < |accepted|
    ensures var d := accepted[done];
            && FromLe32(view) == d.ip && FromLe16(view[4..]) == d.port && FromLe16(view[6..]) == |d.data|
            && 8 + |d.data| <= |view| && view[8..8 + |d.data|] == d.data
            && Records(accepted) == taken + view[..8 + |d.data|] + view[8 + |d.data|..]
            && OnBoundary(accepted, |taken + view[..8 + |d.data|]|, done + 1)
  {
    hide Record, FromLe32, FromLe16;
    var queued := accepted[done..];
    assert queued != [];
    HeaderReads(queued);
    var n := 8 + |accepted[done].data|;
    assert queued[0] == accepted[done] && queued[1..] == accepted[done + 1..];
    Regroup(taken, view, n);
    RecordsSplit(accepted, done + 1);
  }

  lemma RecordIs(d: Dgram)
    requires Small(d)
    ensures Record(d) == Le32(d.ip) + Le16(d.port) + Le16(|d.data|) + d.data
  {
  }
}
