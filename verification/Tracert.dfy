/** The trace runtime: its events, its circular event buffer and the calls the rewriter injects. */
module Tracert {
  import opened Options

  /** One event as it goes over the wire. exc carries the panic value of a panic event. */
  datatype Event = Event(
    typ: string, fn: string, file: string, line: int, timestampMs: real, goroutine: nat, spanId: nat,
    args: seq<int>, returnVal: seq<int>, exc: Option<int>)

  /** The trace-local id of the one goroutine. */
  const GOROUTINE := 1

  function CallEvent(fn: string, ts: real, span: nat, args: seq<int>): Event {
    Event("call", fn, "", 0, ts, GOROUTINE, span, args, [], None)
  }

  /** Returns and panics do not repeat the function name. */
  function RetEvent(ts: real, span: nat): Event {
    Event("ret", "", "", 0, ts, GOROUTINE, span, [], [], None)
  }

  function PanicEvent(ts: real, span: nat, value: int): Event {
    Event("panic", "", "", 0, ts, GOROUTINE, span, [], [], Some(value))
  }

  /** The last n elements of s, or all of them. */
  function Newest<T>(s: seq<T>, n: nat): (r: seq<T>)
    ensures |r| == (if |s| < n then |s| else n) && r == s[|s|-|r|..]
  {
    if |s| <= n then s else s[|s|-n..]
  }

  lemma NewestFrom<T>(s: seq<T>, n: nat, oldest: nat)
    requires oldest == if |s| < n then 0 else |s| - n
    ensures Newest(s, n) == s[oldest..]
  {
  }

  /** The buffer slot of the k-th write. */
  function Slot(k: int, size: nat): (r: nat)
    requires size > 0
    ensures r < size
  {
    k % size
  }

  /** A fixed-size circular buffer; when full, each write replaces the oldest event. */
  class RingBuffer {
    const buf: array<Event>
    const size: nat
    var head: nat
    var count: nat
    /** Everything written since the last drain, including what has been overwritten. */
    ghost var written: seq<Event>

    ghost predicate Valid()
      reads this, buf
    {
      && size > 0 && buf.Length == size
      && count == (if |written| < size then |written| else size)
      && head == Slot(|written|, size)
      && (forall k :: |written| - count <= k < |written| ==> buf[Slot(k, size)] == written[k])
    }

    constructor (size: nat)
      requires size > 0
      ensures Valid() && written == [] && this.size == size && fresh(buf)
    {
      var blank := Event("", "", "", 0, 0.0, 0, 0, [], [], None);
      this.buf := new Event[size](_ => blank);
      this.size := size;
      head, count, written := 0, 0, [];
      SlotZero(size);
    }

    method Write(e: Event)
      requires Valid()
      modifies this, buf
      ensures Valid() && written == old(written) + [e]
    {
      hide Slot;
      forall k | |written| - size < k < |written|
        ensures Slot(k, size) != Slot(|written|, size)
      {
        NotCongruent(k, |written|, size);
      }
      NextSlot(|written|, size);
      buf[head] := e;
      head := Slot(head + 1, size);
      if count < size {
        count := count + 1;
      }
      written := written + [e];
    }

    /** The i-th oldest event that has not been overwritten. */
    lemma StoredAt(i: nat)
      requires Valid() && i < count
      ensures count <= |written|
      ensures buf[Slot(Slot(head - count + size, size) + i, size)] == written[|written| - count + i]
    {
      hide Slot;
      StartSlot(|written|, count, size);
      SlotAhead(|written| - count, i, size);
    }

    /** The events that have not been overwritten, oldest first. */
    method Stored() returns (events: seq<Event>)
      requires Valid()
      ensures events == Newest(written, size)
    {
      hide Slot;
      hide Newest;
      var start := Slot(head - count + size, size);
      ghost var oldest := |written| - count;
      events := [];
      for i := 0 to count
        invariant oldest + count == |written| && events == written[oldest..oldest + i]
      {
        hide Valid;
        StoredAt(i);
        events := events + [buf[Slot(start + i, size)]];
      }
      assert written[oldest..oldest + count] == written[oldest..];
      NewestFrom(written, size, oldest);
    }

    /** Returns the newest events that still fit, oldest first, and empties the buffer. */
    method Drain() returns (events: seq<Event>)
      requires Valid()
      modifies this
      ensures Valid() && written == []
      ensures events == Newest(old(written), size)
    {
      hide Slot;
      if count == 0 {
        return [];
      }
      events := Stored();
      count, head, written := 0, 0, [];
      SlotZero(size);
    }
  }

  // ---- Slot arithmetic ----

  lemma NotCongruent(a: int, b: int, m: nat)
    requires m > 0 && b - m < a < b
    ensures Slot(a, m) != Slot(b, m)
  {
    if a % m == b % m {
      assert b - a == m * (b / m - a / m);
      NoMultipleBetween(b / m - a / m, m);
      assert false;
    }
  }

  lemma SlotZero(m: nat)
    requires m > 0
    ensures Slot(0, m) == 0
  {
  }

  lemma NoMultipleBetween(q: int, m: nat)
    ensures !(0 < m * q < m)
  {
    if q >= 1 { assert m * q >= m; }
    if q <= 0 { assert m * q <= 0; }
  }

  lemma ModUnique(a: int, m: nat, q: int, r: int)
    requires m > 0 && a == m * q + r && 0 <= r < m
    ensures a % m == r
  {
    var d := a / m - q;
    assert m * d == r - a % m;
    NoMultipleBetween(d, m);
    NoMultipleBetween(-d, m);
    assert m * (-d) == -(m * d);
  }

  lemma NextSlot(n: nat, m: nat)
    requires m > 0
    ensures Slot(n + 1, m) == Slot(Slot(n, m) + 1, m)
  {
    SlotAhead(n, 1, m);
  }

  lemma SlotAhead(n: nat, i: nat, m: nat)
    requires m > 0
    ensures Slot(Slot(n, m) + i, m) == Slot(n + i, m)
  {
    var low := n % m + i;
    assert n + i == m * (n / m + low / m) + low % m;
    ModUnique(n + i, m, n / m + low / m, low % m);
  }

  lemma StartSlot(n: nat, count: nat, m: nat)
    requires m > 0 && count <= m && count <= n
    ensures Slot(Slot(n, m) - count + m, m) == Slot(n - count, m)
  {
    var low := n % m - count + m;
    assert n - count == m * (n / m - 1 + low / m) + low % m;
    ModUnique(n - count, m, n / m - 1 + low / m, low % m);
  }

  /** The runtime's state on one goroutine: the next span id and the buffer the events go to. */
  class Tracer {
    var nextSpan: nat
    const buffer: RingBuffer

    ghost predicate Valid()
      reads this, buffer, buffer.buf
    {
      buffer.Valid()
    }

    constructor (size: nat)
      requires size > 0
      ensures Valid() && nextSpan == 1 && buffer.written == [] && buffer.size == size
    {
      nextSpan := 1;
      buffer := new RingBuffer(size);
    }

    /** Reports a call at the given elapsed time and hands out its span id. */
    method Enter(fn: string, args: seq<int>, elapsedMs: real) returns (span: nat)
      requires Valid()
      modifies this, buffer, buffer.buf
      ensures Valid() && span == old(nextSpan) && nextSpan == old(nextSpan) + 1
      ensures buffer.written
           == old(buffer.written) + [Event("call", fn, "", 0, elapsedMs, 1, span, args, [], None)]
    {
      span := nextSpan;
      nextSpan := nextSpan + 1;
      buffer.Write(CallEvent(fn, elapsedMs, span, args));
    }

    method Exit(span: nat, elapsedMs: real)
      requires Valid()
      modifies this, buffer, buffer.buf
      ensures Valid() && nextSpan == old(nextSpan)
      ensures buffer.written == old(buffer.written) + [Event("ret", "", "", 0, elapsedMs, 1, span, [], [], None)]
    {
      buffer.Write(RetEvent(elapsedMs, span));
    }

    method ExitPanic(span: nat, value: int, elapsedMs: real)
      requires Valid()
      modifies this, buffer, buffer.buf
      ensures Valid() && nextSpan == old(nextSpan)
      ensures buffer.written
           == old(buffer.written) + [Event("panic", "", "", 0, elapsedMs, 1, span, [], [], Some(value))]
    {
      buffer.Write(PanicEvent(elapsedMs, span, value));
    }
  }
}
