/** The growable buffers of merger/timeout.c (`notify_queue`) and receive/sender.c (`send_queue`):
    a block, a used length, and a block size that becomes twice the size plus the request whenever
    the request does not fit. */
module Growable {

  /** The block size after reallocations for requests of the given sizes. */
  function Capacity(requests: seq<nat>): nat {
    if requests == [] then 0 else 2 * (Capacity(requests[..|requests| - 1]) + requests[|requests| - 1])
  }

  /** The elements all those reallocations copied: each copies the block it replaces. */
  function Copied(requests: seq<nat>): nat {
    if requests == [] then 0
    else Copied(requests[..|requests| - 1]) + Capacity(requests[..|requests| - 1])
  }

  function Pow2(n: nat): nat { if n == 0 then 1 else 2 * Pow2(n - 1) }

  /** After k reallocations for records of one size R the capacity is 2R(2^k - 1). */
  lemma {:induction false} UniformCapacity(requests: seq<nat>, r: nat)
    requires forall i :: 0 <= i < |requests| ==> requests[i] == r
    ensures Capacity(requests) == 2 * r * (Pow2(|requests|) - 1)
  {
    if requests != [] {
      var init := requests[..|requests| - 1];
      UniformCapacity(init, r);
      calc {
        2 * (2 * r * (Pow2(|init|) - 1) + r);
        2 * r * (2 * Pow2(|init|) - 1);
      }
    }
  }

  /** The copying done so far never exceeds the current capacity: appends are amortized. */
  lemma {:induction false} CopiedBound(requests: seq<nat>)
    ensures Copied(requests) <= Capacity(requests)
  {
    if requests != [] { CopiedBound(requests[..|requests| - 1]); }
  }

  class Buffer<T(0)> {
    var data: array<T>
    var len: nat
    ghost var requests: seq<nat>
    ghost var peak: nat

    ghost predicate Valid()
      reads this
    {
      && len <= peak && len <= data.Length
      && data.Length == Capacity(requests)
      && (requests != [] ==> data.Length < 2 * (peak + requests[|requests| - 1]))
    }

    ghost function Contents(): seq<T>
      requires Valid()
      reads this, data
    {
      data[..len]
    }

    constructor ()
      ensures Valid() && fresh(data) && Contents() == [] && requests == [] && peak == 0
    {
      data := new T[0];
      len, requests, peak := 0, [], 0;
    }

    /** The reallocation test in front of an append of n elements. The peak recorded is the length
        the append is about to reach. */
    method Reserve(n: nat)
      requires Valid()
      modifies this
      ensures Valid() && Contents() == old(Contents()) && len == old(len)
      ensures len + n <= data.Length && (data == old(data) || fresh(data))
      ensures requests == old(requests) + if old(len) + n > old(data.Length) then [n] else []
      ensures peak == if old(len) + n > old(peak) then old(len) + n else old(peak)
    {
      if len + n > data.Length {
        var size := (data.Length + n) * 2;
        var bigger := new T[size];
        forall i | 0 <= i < data.Length {
          bigger[i] := data[i];
        }
        assert (requests + [n])[..|requests|] == requests;
        data, requests := bigger, requests + [n];
      }
      if len + n > peak {
        peak := len + n;
      }
    }

    /** memcpy(data + at, xs, |xs|) */
    static method CopyIn(data: array<T>, at: nat, xs: seq<T>)
      requires at + |xs| <= data.Length
      modifies data
      ensures data[..at + |xs|] == old(data[..at]) + xs
    {
      forall i | 0 <= i < |xs| {
        data[at + i] := xs[i];
      }
    }

    /** add_to_queue */
    method Append(xs: seq<T>)
      requires Valid()
      modifies this, data
      ensures Valid() && Contents() == old(Contents()) + xs
      ensures data == old(data) || fresh(data)
      ensures requests == old(requests) + if old(len) + |xs| > old(data.Length) then [|xs|] else []
      ensures peak == if len > old(peak) then len else old(peak)
    {
      Reserve(|xs|);
      CopyIn(data, len, xs);
      len := len + |xs|;
    }

    /** Takes the last n elements, as commit_notify_queue does. */
    method TakeSuffix(n: nat) returns (taken: seq<T>)
      requires Valid() && n <= len
      modifies this`len
      ensures Valid() && |taken| == n && Contents() + taken == old(Contents())
      ensures data == old(data) && requests == old(requests) && peak == old(peak)
    {
      taken := data[len - n..len];
      len := len - n;
    }
  }

  /** Capacity, contents and amortization of a buffer fed with records of one size. */
  lemma {:induction false} RecordBuffer<T(0)>(b: Buffer<T>, r: nat)
    requires b.Valid() && forall i :: 0 <= i < |b.requests| ==> b.requests[i] == r
    ensures b.data.Length == 2 * r * (Pow2(|b.requests|) - 1)
    ensures b.requests != [] ==> b.data.Length < 2 * (b.peak + r)
    ensures b.len <= b.data.Length && Copied(b.requests) <= b.data.Length
  {
    UniformCapacity(b.requests, r);
    CopiedBound(b.requests);
  }
}
