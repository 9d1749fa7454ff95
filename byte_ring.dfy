// The 256-byte single-producer / single-consumer FIFO that the firmware
// uses for the CDC serial transmit and receive queues, the HID transmit
// queue and the isochronous audio queues.  Indices run modulo 256
// (`& 0xFF`) and one slot is always kept free, so at most 255 bytes are
// ever queued.
module ByteRing {
  import opened Prelude

  const SIZE: nat := 256

  /**
   * Slot `k` places after `from`, `(from + k) & 0xFF`; both operands are
   * below 256 wherever the firmware computes it.
   */
  function Slot(from: int, k: int): (s: nat)
    requires 0 <= from < SIZE && 0 <= k < SIZE
    ensures s < SIZE
    ensures s == (from + k) % SIZE
  {
    if from + k < SIZE then from + k else from + k - SIZE
  }

  /** Number of queued bytes, `(head - tail) & 0xFF` on indices below 256. */
  function Distance(head: int, tail: int): (d: nat)
    requires 0 <= head < SIZE && 0 <= tail < SIZE
    ensures d < SIZE
    ensures d == (head - tail) % SIZE
  {
    if tail <= head then head - tail else head - tail + SIZE
  }

  /**
   * How many of `len` offered bytes fit beside `pending` queued ones: all
   * of them, clamped so that one slot stays free.
   */
  function Accepted(len: nat, pending: nat): (n: nat)
    requires pending < SIZE
    ensures n <= len && pending + n <= SIZE - 1
    ensures n == len || pending + n == SIZE - 1
  {
    Min(len, SIZE - 1 - pending)
  }

  /** The `n` bytes of storage `s` that follow slot `tail`, in queue order. */
  function Unread(s: seq<byte>, tail: int, n: nat): (r: seq<byte>)
    requires |s| == SIZE && 0 <= tail < SIZE && n < SIZE
    ensures |r| == n
  {
    seq(n, k requires 0 <= k < n => s[Slot(tail, k)])
  }

  /** The number of bytes `peek_ex` hands out, as usb_composite.c computes it. */
  function PeekExCountAsWritten(head: uint32, tail: uint32, offset: uint32, len: uint32): (n: uint32)
    requires head < SIZE && tail < SIZE
    ensures offset == 0 ==> n == Min(len, Distance(head, tail))
  {
    var start := U32(tail + offset) % SIZE;
    var unread := (head - start) % SIZE;
    if U32(len + offset) > unread then U32(unread - offset) else len
  }

  /** The number of bytes a lookahead from `offset` can deliver out of `count` queued ones. */
  function PeekAtCount(count: nat, offset: nat, len: nat): (n: nat)
    ensures offset + n <= count || n == 0
    ensures n <= len
    ensures offset < count ==> n == Min(len, count - offset)
  {
    if offset >= count then 0 else Min(len, count - offset)
  }

  /** With ten queued bytes, skipping four and asking for ten hands out two, not six. */
  lemma PeekExSkipsOffsetTwice()
    ensures PeekExCountAsWritten(10, 0, 4, 10) == 2
    ensures PeekAtCount(Distance(10, 0), 4, 10) == 6
  {
  }

  /** With six queued bytes, skipping four asks the copy loop for 2^32 - 2 bytes. */
  lemma PeekExOverruns()
    ensures PeekExCountAsWritten(6, 0, 4, 10) == 0xFFFF_FFFE
    ensures PeekAtCount(Distance(6, 0), 4, 10) == 2
  {
  }

  /** Writing `n` bytes at slot `h` lays them after the `c` bytes queued from `t`. */
  lemma {:induction false} AppendedContents(s0: seq<byte>, s1: seq<byte>, t: int, c: nat, src: seq<byte>, n: nat)
    requires |s0| == SIZE && |s1| == SIZE && 0 <= t < SIZE
    requires c + n <= SIZE - 1 && n <= |src|
    requires forall j :: 0 <= j < n ==> s1[Slot(Slot(t, c), j)] == src[j]
    requires forall k :: 0 <= k < SIZE && Distance(k, Slot(t, c)) >= n ==> s1[k] == s0[k]
    ensures Unread(s1, t, c + n) == Unread(s0, t, c) + src[..n]
  {
    var h := Slot(t, c);
    forall k | 0 <= k < c + n
      ensures Unread(s1, t, c + n)[k] == (Unread(s0, t, c) + src[..n])[k]
    {
      if k < c {
        assert Distance(Slot(t, k), h) == SIZE + k - c;
      } else {
        assert Slot(t, k) == Slot(h, k - c);
      }
    }
  }

  class Ring {
    /** The storage, `vcomBufferTx` and its siblings. */
    const buf: array<byte>
    /** Next slot the producer writes. */
    var head: int
    /** Next slot the consumer reads. */
    var tail: int

    ghost predicate Valid()
      reads this
    {
      buf.Length == SIZE && 0 <= head < SIZE && 0 <= tail < SIZE
    }

    /** `data_available` / `get_pending`: the number of queued bytes. */
    function Count(): (n: nat)
      requires Valid()
      reads this
      ensures n < SIZE
    {
      Distance(head, tail)
    }

    /** The queued bytes, oldest first. */
    ghost function Contents(): (q: seq<byte>)
      requires Valid()
      reads this, buf
      ensures |q| == Count()
    {
      Unread(buf[..], tail, Count())
    }

    /** An empty queue over zeroed storage, as the static initialisers leave it. */
    constructor()
      ensures Valid() && fresh(buf)
      ensures Contents() == []
    {
      buf := new byte[SIZE](_ => 0);
      head := 0;
      tail := 0;
    }

    /** The reset handlers zero both indices. */
    method Reset()
      requires Valid()
      modifies this
      ensures Valid() && head == 0 && tail == 0
      ensures Contents() == []
    {
      head := 0;
      tail := 0;
    }

    /**
     * `usb_audio_write_tx_data`, and the queueing step of
     * `composite_cdcacm_tx` and `usb_hid_tx`: queue as many bytes of `src`
     * as fit and report how many that was.
     */
    method Write(src: seq<byte>) returns (n: nat)
      requires Valid()
      modifies this, buf
      ensures Valid()
      ensures n == Accepted(|src|, old(Count()))
      ensures tail == old(tail) && head == Slot(old(head), n)
      ensures Contents() == old(Contents()) + src[..n]
      ensures forall k :: 0 <= k < SIZE && Distance(k, old(head)) >= n ==> buf[k] == old(buf[k])
    {
      if |src| == 0 {
        return 0;
      }
      n := Accepted(|src|, Count());
      if n == 0 {
        return 0;
      }
      ghost var s0 := buf[..];
      ghost var c := Count();
      Store(src, n);
      AppendedContents(s0, buf[..], tail, c, src, n);
    }

    /**
     * `usb_hid_tx`, `composite_cdcacm_tx`: queue what fits as `Write` does;
     * when something was queued, wait for the endpoint and call the
     * transmit callback before returning.  `busy` says whether an IN
     * transfer is in flight when the wait starts.  If one is, the
     * interrupts drain the whole queue during the wait and the callback then
     * finds nothing left; if none is, the callback sends the oldest
     * `min(epSize, Count())` bytes at once and the endpoint becomes busy.
     * `sent` is what left the queue during the call.
     */
    method Transmit(src: seq<byte>, epSize: nat, busy: bool) returns (n: nat, sent: seq<byte>, busyAfter: bool)
      requires Valid() && epSize >= 1
      modifies this, buf
      ensures Valid()
      ensures n == Accepted(|src|, old(Count()))
      ensures sent + Contents() == old(Contents()) + src[..n]
      ensures n == 0 ==> sent == [] && busyAfter == busy && Contents() == old(Contents())
      ensures n > 0 && !busy ==> |sent| == Min(epSize, old(Count()) + n) && busyAfter
      ensures n > 0 && busy ==> Contents() == [] && !busyAfter
    {
      n := Write(src);
      sent := [];
      busyAfter := busy;
      if n == 0 {
        return;
      }
      if busy {
        sent := DrainAll(epSize);
        busyAfter := false;
      } else {
        sent := Drain(epSize);
        busyAfter := true;
      }
    }

    /** A packet taken off the front of the queue joins what was sent before it. */
    static lemma Handed(sent: seq<byte>, q: seq<byte>, packet: seq<byte>, rest: seq<byte>)
      requires |packet| <= |q| && packet == q[..|packet|] && rest == q[|packet|..]
      ensures (sent + packet) + rest == sent + q
    {
      assert q == q[..|packet|] + q[|packet|..];
    }

    /** The transmit-complete interrupts of a busy wait: packet after packet until the queue is empty. */
    method DrainAll(epSize: nat) returns (sent: seq<byte>)
      requires Valid() && epSize >= 1
      modifies this
      ensures Valid() && head == old(head)
      ensures sent == old(Contents()) && Contents() == []
    {
      sent := [];
      while Count() > 0
        invariant Valid() && head == old(head)
        invariant sent + Contents() == old(Contents())
        decreases Count()
      {
        ghost var q := Contents();
        var packet := Drain(epSize);
        Handed(sent, q, packet, Contents());
        sent := sent + packet;
      }
    }

    /** The copy loop of `Write`: `src[..n]` goes to the slots from `head` on. */
    method Store(src: seq<byte>, n: nat)
      requires Valid() && n <= |src| && n < SIZE
      modifies this, buf
      ensures Valid() && tail == old(tail) && head == Slot(old(head), n)
      ensures forall j :: 0 <= j < n ==> buf[Slot(old(head), j)] == src[j]
      ensures forall k :: 0 <= k < SIZE && Distance(k, old(head)) >= n ==> buf[k] == old(buf[k])
    {
      ghost var h0 := head;
      var i := 0;
      while i < n
        invariant 0 <= i <= n && 0 <= head < SIZE && tail == old(tail)
        invariant head == Slot(h0, i)
        invariant forall j :: 0 <= j < i ==> buf[Slot(h0, j)] == src[j]
        invariant forall k :: 0 <= k < SIZE && Distance(k, h0) >= i ==> buf[k] == old(buf[k])
      {
        buf[head] := src[i];
        head := Slot(head, 1);
        i := i + 1;
      }
    }

    /**
     * `composite_cdcacm_peek`, `audio_rx_peek`: copy the oldest
     * `min(len, Count())` bytes to `out[at..]` without dequeuing them.
     */
    method Peek(out: array<byte>, at: nat, len: nat) returns (n: nat)
      requires Valid() && out != buf && at + len <= out.Length
      modifies out
      ensures n == Min(len, Count())
      ensures out[at..at + n] == Contents()[..n]
      ensures out[..at] == old(out[..at]) && out[at + n..] == old(out[at + n..])
    {
      n := Min(len, Count());
      var t := tail;
      var i := 0;
      while i < n
        invariant 0 <= i <= n && t == Slot(tail, i)
        invariant forall j :: 0 <= j < i ==> out[at + j] == buf[Slot(tail, j)]
        invariant out[..at] == old(out[..at]) && out[at + n..] == old(out[at + n..])
      {
        out[at + i] := buf[t];
        t := Slot(t, 1);
        i := i + 1;
      }
    }

    /** Moving the tail `n` places drops the `n` oldest bytes. */
    method Advance(n: nat)
      requires Valid() && n <= Count()
      modifies this
      ensures Valid() && head == old(head) && tail == Slot(old(tail), n)
      ensures Count() == old(Count()) - n
      ensures Contents() == old(Contents())[n..]
    {
      ghost var q := Contents();
      tail := Slot(tail, n);
      assert Contents() == q[n..] by {
        forall k | 0 <= k < Count()
          ensures Contents()[k] == q[n..][k]
        {
          assert Slot(tail, k) == Slot(old(tail), n + k);
        }
      }
    }

    /**
     * `composite_cdcacm_rx`, `usb_audio_read_rx_data`: what `Peek` copies,
     * then dequeued by moving the tail past it.
     */
    method Read(out: array<byte>, at: nat, len: nat) returns (n: nat)
      requires Valid() && out != buf && at + len <= out.Length
      modifies this, out
      ensures n == Min(len, old(Count()))
      ensures Valid() && head == old(head) && tail == Slot(old(tail), n)
      ensures out[at..at + n] == old(Contents())[..n]
      ensures out[..at] == old(out[..at]) && out[at + n..] == old(out[at + n..])
      ensures Count() == old(Count()) - n
      ensures Contents() == old(Contents())[n..]
    {
      n := Peek(out, at, len);
      Advance(n);
    }

    /**
     * The index effect of the transmit-complete callbacks (`vcomDataTxCb`,
     * `hidDataTxCb`): at most `max` of the oldest bytes leave the queue as
     * the next IN packet.
     */
    method Drain(max: nat) returns (packet: seq<byte>)
      requires Valid()
      modifies this
      ensures |packet| == Min(max, old(Count()))
      ensures packet == old(Contents())[..|packet|]
      ensures Valid() && head == old(head)
      ensures Count() == old(Count()) - |packet|
      ensures Contents() == old(Contents())[|packet|..]
    {
      var m := Min(max, Count());
      packet := [];
      var t := tail;
      while |packet| < m
        invariant |packet| <= m && t == Slot(tail, |packet|)
        invariant packet == Contents()[..|packet|]
      {
        packet := packet + [buf[t]];
        t := Slot(t, 1);
      }
      Advance(m);
    }

    /**
     * The index effect of `audioDataTxCb`: the next `k` slots from the tail
     * on are sent and the tail moves past them, whether or not they hold
     * queued bytes.  When fewer than `k` were queued the tail overtakes the
     * head and the queue then reports `SIZE + count - k` bytes.
     */
    method Skim(k: nat) returns (packet: seq<byte>)
      requires Valid() && k < SIZE
      modifies this
      ensures Valid() && head == old(head) && tail == Slot(old(tail), k)
      ensures packet == Unread(buf[..], old(tail), k)
      ensures k <= old(Count()) ==> Contents() == old(Contents())[k..]
      ensures k > old(Count()) ==> Count() == old(Count()) + SIZE - k
    {
      packet := [];
      var t := tail;
      while |packet| < k
        invariant |packet| <= k && t == Slot(tail, |packet|)
        invariant packet == Unread(buf[..], tail, k)[..|packet|]
      {
        packet := packet + [buf[t]];
        t := Slot(t, 1);
      }
      if k <= Count() {
        Advance(k);
      } else {
        tail := t;
      }
    }

    /**
     * `composite_cdcacm_peek_ex` as intended: the bytes from position
     * `offset` of the queue on, at most `len` of them, without dequeuing.
     */
    method PeekAt(out: array<byte>, offset: nat, len: nat) returns (n: nat)
      requires Valid() && out != buf && len <= out.Length
      modifies out
      ensures n == PeekAtCount(Count(), offset, len)
      ensures n > 0 ==> out[..n] == Contents()[offset..offset + n]
      ensures out[n..] == old(out[n..])
    {
      n := PeekAtCount(Count(), offset, len);
      if n == 0 {
        return;
      }
      var t := Slot(tail, offset);
      var i := 0;
      while i < n
        invariant 0 <= i <= n && t == Slot(tail, offset + i)
        invariant forall j :: 0 <= j < i ==> out[j] == buf[Slot(tail, offset + j)]
        invariant out[n..] == old(out[n..])
      {
        out[i] := buf[t];
        t := Slot(t, 1);
        i := i + 1;
      }
    }

    /** `composite_cdcacm_peek_char`: the oldest byte, or -1 on an empty queue. */
    function PeekChar(): (r: int)
      requires Valid()
      reads this, buf
      ensures r == -1 <==> Contents() == []
      ensures r != -1 ==> r == Contents()[0]
    {
      if Count() == 0 then -1 else buf[tail] as int
    }
  }
}
