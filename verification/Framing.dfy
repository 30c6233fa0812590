/** Cutting a byte stream into packets: what recvn (common/http.c) and the read loop of msg_loop
    (merger/server.c) make of a connection, and when the packets are the ones that were sent. */
module Framing {
  import opened Hex

  type Bytes = seq<byte>

  function Zeros(n: nat): (z: Bytes)
    ensures |z| == n && forall i :: 0 <= i < n ==> z[i] == 0
  {
    seq(n, _ => 0)
  }

  function Concat(parts: seq<Bytes>): Bytes {
    if parts == [] then [] else Concat(parts[..|parts| - 1]) + parts[|parts| - 1]
  }

  /** The complete packets of a stream, the incomplete rest dropped. */
  function Chunks(w: Bytes, size: nat): seq<Bytes>
    requires size > 0
    decreases |w|
  {
    if |w| < size then [] else [w[..size]] + Chunks(w[size..], size)
  }

  /** A stream of whole packets, each of them known. */
  ghost predicate Framed(w: Bytes, size: nat, known: set<Bytes>)
    requires size > 0
    decreases |w|
  {
    w == [] || (|w| >= size && w[..size] in known && Framed(w[size..], size, known))
  }

  lemma {:induction false} FramedAppend(a: Bytes, b: Bytes, size: nat, known: set<Bytes>)
    requires size > 0 && Framed(a, size, known) && Framed(b, size, known)
    ensures Framed(a + b, size, known)
    decreases |a|
  {
    if a == [] {
      assert a + b == b;
    } else {
      assert (a + b)[..size] == a[..size] && (a + b)[size..] == a[size..] + b;
      FramedAppend(a[size..], b, size, known);
    }
  }

  lemma {:induction false} FramedGrows(w: Bytes, size: nat, known: set<Bytes>, more: set<Bytes>)
    requires size > 0 && Framed(w, size, known) && known <= more
    ensures Framed(w, size, more)
    decreases |w|
  {
    if w != [] { FramedGrows(w[size..], size, known, more); }
  }

  lemma {:induction false} FramedOne(p: Bytes, size: nat, known: set<Bytes>)
    requires size > 0 && |p| == size && p in known
    ensures Framed(p, size, known)
  {
    assert p[..size] == p && p[size..] == [];
  }

  lemma {:induction false} FramedZeros(n: nat, size: nat, known: set<Bytes>)
    requires size > 0 && Zeros(size) in known
    ensures Framed(Zeros(n * size), size, known)
  {
    if n > 0 {
      FramedZeros(n - 1, size, known);
      assert n * size == (n - 1) * size + size;
      assert Zeros(n * size)[..size] == Zeros(size) && Zeros(n * size)[size..] == Zeros((n - 1) * size);
    } else {
      assert Zeros(0 * size) == [];
    }
  }

  /** However much of a framed stream arrives, every packet completed from it is a known one. */
  lemma {:induction false} PrefixChunksKnown(w: Bytes, full: Bytes, size: nat, known: set<Bytes>)
    requires size > 0 && Framed(full, size, known) && w <= full
    ensures forall c :: c in Chunks(w, size) ==> c in known
    decreases |w|
  {
    if |w| >= size {
      assert w[..size] == full[..size];
      assert w[size..] <= full[size..];
      PrefixChunksKnown(w[size..], full[size..], size, known);
    }
  }

  lemma {:induction false} ChunksAppend(a: Bytes, b: Bytes, size: nat, known: set<Bytes>)
    requires size > 0 && Framed(a, size, known)
    ensures Chunks(a + b, size) == Chunks(a, size) + Chunks(b, size)
    decreases |a|
  {
    if a == [] {
      assert a + b == b;
    } else {
      var p, rest := a[..size], a[size..];
      assert (a + b)[..size] == p && (a + b)[size..] == rest + b;
      ChunksAppend(rest, b, size, known);
      assert Chunks(a, size) == [p] + Chunks(rest, size) && Chunks(a + b, size) == [p] + Chunks(rest + b, size);
      assert [p] + (Chunks(rest, size) + Chunks(b, size)) == ([p] + Chunks(rest, size)) + Chunks(b, size);
    }
  }

  lemma {:induction false} ChunkSizes(w: Bytes, size: nat)
    requires size > 0
    ensures forall c :: c in Chunks(w, size) ==> |c| == size
    decreases |w|
  {
    if |w| >= size { ChunkSizes(w[size..], size); }
  }

  lemma {:induction false} ChunkAt(w: Bytes, size: nat, k: nat)
    requires size > 0 && k * size + size <= |w|
    ensures k < |Chunks(w, size)| && Chunks(w, size)[k] == w[k * size..k * size + size]
    decreases k
  {
    if k > 0 {
      assert k * size == (k - 1) * size + size;
      ChunkAt(w[size..], size, k - 1);
      assert w[size..][(k - 1) * size..(k - 1) * size + size] == w[k * size..k * size + size];
    }
  }

  // ----- the receiving end -----

  /** What recv returns next: some bytes, an interruption, an error, or the end of the stream. */
  datatype Arrival = Data(bytes: Bytes) | Interrupted | Failed | Closed

  /** All bytes that arrive before the stream ends or fails; a missing end counts as one. */
  function StreamOf(s: seq<Arrival>): Bytes {
    if s == [] then []
    else match s[0]
      case Data(b) => if b == [] then [] else b + StreamOf(s[1..])
      case Interrupted => StreamOf(s[1..])
      case _ => []
  }

  /** Whether the stream ends by an error. */
  predicate EndsInFailure(s: seq<Arrival>) {
    s != [] && match s[0]
      case Data(b) => b != [] && EndsInFailure(s[1..])
      case Interrupted => EndsInFailure(s[1..])
      case Failed => true
      case Closed => false
  }

  /** The bytes that were sent, however they were cut and interrupted on the way. */
  function Pieces(s: seq<Arrival>): Bytes {
    if s == [] then [] else (if s[0].Data? then s[0].bytes else []) + Pieces(s[1..])
  }

  /** Neither the cuts nor the interruptions change the stream; the first end or error, and only
      that, ends it. */
  lemma {:induction false} StreamIsPieces(s: seq<Arrival>, rest: seq<Arrival>)
    requires forall a :: a in s ==> a.Interrupted? || (a.Data? && a.bytes != [])
    requires rest == [] || rest[0].Closed? || rest[0].Failed?
    ensures StreamOf(s + rest) == Pieces(s)
    ensures EndsInFailure(s + rest) <==> rest != [] && rest[0].Failed?
  {
    if s == [] {
      assert s + rest == rest;
    } else {
      assert s[0] in s && (s + rest)[1..] == s[1..] + rest;
      StreamIsPieces(s[1..], rest);
    }
  }

  /** A connection as the merger sees it. A received piece longer than the room left in the buffer
      stays for the next call. */
  class Socket {
    var arrivals: seq<Arrival>

    constructor (arrivals: seq<Arrival>)
      ensures this.arrivals == arrivals
    {
      this.arrivals := arrivals;
    }

    /** recv with room for n bytes: the bytes it copied, or -1 with or without EINTR. */
    method Recv(n: nat) returns (len: int, eintr: bool, bytes: Bytes)
      requires n > 0
      modifies this
      ensures len > 0 ==> !eintr && len == |bytes| <= n && StreamOf(old(arrivals)) == bytes + StreamOf(arrivals)
                          && EndsInFailure(arrivals) == EndsInFailure(old(arrivals))
      ensures len == 0 ==> bytes == [] && StreamOf(old(arrivals)) == [] && !EndsInFailure(old(arrivals))
                           && arrivals == old(arrivals)
      ensures len < 0 ==> len == -1 && (eintr || (StreamOf(old(arrivals)) == [] && EndsInFailure(old(arrivals))))
      ensures eintr ==> len == -1 && StreamOf(arrivals) == StreamOf(old(arrivals)) && |arrivals| < |old(arrivals)|
                        && EndsInFailure(arrivals) == EndsInFailure(old(arrivals))
    {
      eintr, bytes := false, [];
      if arrivals == [] { return 0, false, []; }
      match arrivals[0] {
        case Data(b) =>
          if |b| <= n {
            if b == [] { return 0, false, []; }
            arrivals := arrivals[1..];
            return |b|, false, b;
          }
          arrivals := [Data(b[n..])] + arrivals[1..];
          assert b == b[..n] + b[n..];
          return n, false, b[..n];
        case Interrupted =>
          arrivals := arrivals[1..];
          return -1, true, [];
        case Failed => return -1, false, [];
        case Closed => return 0, false, [];
      }
    }

    /** recvn: fills `size` bytes unless the stream ends or fails first. */
    method RecvN(buf: array<byte>, size: nat) returns (total: int)
      requires size <= buf.Length
      modifies this, buf
      ensures total >= 0 ==> total <= size && buf[..total] + StreamOf(arrivals) == StreamOf(old(arrivals))
      ensures total == size || (0 <= total < size && StreamOf(arrivals) == [] && !EndsInFailure(old(arrivals)))
                            || (total == -1 && |StreamOf(old(arrivals))| < size && EndsInFailure(old(arrivals)))
      ensures total == size ==> EndsInFailure(arrivals) == EndsInFailure(old(arrivals))
    {
      total := 0;
      while total < size
        invariant 0 <= total <= size
        invariant buf[..total] + StreamOf(arrivals) == StreamOf(old(arrivals))
        invariant EndsInFailure(arrivals) == EndsInFailure(old(arrivals))
        decreases size - total, |arrivals|
      {
        var len, eintr, bytes := Recv(size - total);
        if len == -1 {
          if eintr { continue; }
          return -1;
        }
        if len == 0 { return total; }
        ghost var before := buf[..total];
        forall i | 0 <= i < len {
          buf[total + i] := bytes[i];
        }
        assert buf[..total + len] == before + bytes;
        total := total + len;
      }
    }
  }

  /** The read loop for one connection: packets until one stays incomplete. */
  method ReadPackets(sock: Socket, size: nat) returns (packets: seq<Bytes>)
    requires size > 0
    modifies sock
    ensures packets == Chunks(StreamOf(old(sock.arrivals)), size)
  {
    var buf := new byte[size];
    packets := [];
    assert packets + Chunks(StreamOf(sock.arrivals), size) == Chunks(StreamOf(sock.arrivals), size);
    while true
      invariant fresh(buf) && buf.Length == size
      invariant packets + Chunks(StreamOf(sock.arrivals), size) == Chunks(StreamOf(old(sock.arrivals)), size)
      decreases |StreamOf(sock.arrivals)|
    {
      ghost var before := StreamOf(sock.arrivals);
      var readlen := sock.RecvN(buf, size);
      if readlen < size {
        if readlen >= 0 {
          assert before == buf[..readlen];
        }
        assert Chunks(before, size) == [];
        return;
      }
      assert before[..size] == buf[..] && before[size..] == StreamOf(sock.arrivals);
      assert packets + ([buf[..]] + Chunks(before[size..], size)) == (packets + [buf[..]]) + Chunks(before[size..], size);
      packets := packets + [buf[..]];
    }
  }
}
