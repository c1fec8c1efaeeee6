/** Whole-message transfer over send() and recv() that may move fewer bytes than asked for. */
module TcpTransfer {
  import opened Timing

  newtype Byte = x: int | 0 <= x < 256

  /** What the system makes of one send() or recv(): an error, or a wish to move n bytes. */
  datatype Io = Failed | Moved(n: nat)

  /** How a whole transfer ends; Unfinished if we stop looking while it still loops. */
  datatype Outcome = Done | Error | TimedOut | Closed | Unfinished

  /** (socklen_t)bytes keeps 32 bits of the length that send() and recv() are asked to move. */
  function Ask(bytes: nat): nat { bytes % TWO_32 }

  function Min(a: nat, b: nat): nat { if a < b then a else b }

  /** send() and recv() report as an int how many of the bytes asked for they moved. */
  const INT_MAX: nat := 0x7fff_ffff
  function Granted(n: nat, asked: nat): nat { Min(Min(n, INT_MAX), asked) }

  lemma AskWithin(bytes: nat)
    ensures Ask(bytes) <= bytes
    ensures bytes < TWO_32 ==> Ask(bytes) == bytes
  {
  }

  /** A transfer of 2^32 bytes or more never gets below 2^32: the last multiple of it asks for nothing. */
  lemma StuckAbove(bytes: nat, n: nat)
    requires bytes >= TWO_32 && n <= Ask(bytes)
    ensures bytes - n >= TWO_32
  {
    assert bytes == TWO_32 * (bytes / TWO_32) + Ask(bytes);
  }

  /** The first k transfers do not fail. */
  ghost predicate AllMoved(io: nat -> Io, k: int) {
    forall j: nat :: j < k ==> io(j).Moved?
  }

  /** The first k transfers move something. */
  ghost predicate AllGained(io: nat -> Io, k: int) {
    forall j: nat :: j < k ==> io(j).Moved? && io(j).n >= 1
  }

  /**
   * How a transfer of made calls ends, if patience calls are watched: with an error exactly if
   * one of the calls failed, which is then the last; unfinished only if none were left to watch.
   */
  ghost predicate Answered(r: Outcome, io: nat -> Io, made: int, patience: nat) {
    && 0 <= made <= patience
    && AllMoved(io, made - 1)
    && (r.Error? <==> exists j: nat :: j < made && io(j).Failed?)
    && (r.Unfinished? ==> made == patience)
    && (r.Done? || r.Closed? || r.Error? ==> made >= 1)
  }

  /** The last of the calls succeeded and moved nothing. */
  predicate ClosedBy(io: nat -> Io, made: int, last: nat) {
    made >= 1 && io(made - 1).Moved? && last == 0
  }

  /** A loop of tcp_write_all() that goes on after k calls. */
  ghost predicate WrittenSoFar(bytes: nat, done: nat, io: nat -> Io, k: nat) {
    && done <= bytes && AllMoved(io, k)
    && (bytes >= TWO_32 ==> bytes - done >= TWO_32)
    && (Moving(io) && bytes < TWO_32 ==> done >= k)
    && (k > 0 ==> done < bytes)
  }

  /** A loop of tcp_read_all() that goes on after k calls. */
  ghost predicate ReadSoFar(bytes: nat, done: nat, io: nat -> Io, k: nat) {
    && WrittenSoFar(bytes, done, io, k)
    && AllGained(io, k)
    && (done < bytes || (k == 0 && bytes == 0))
  }

  lemma WriteGoesOn(bytes: nat, done: nat, io: nat -> Io, k: nat, n: nat)
    requires WrittenSoFar(bytes, done, io, k) && io(k).Moved? && done + n < bytes
    requires bytes - done >= TWO_32 ==> bytes - done - n >= TWO_32
    requires bytes < TWO_32 && io(k).n >= 1 ==> n >= 1
    ensures WrittenSoFar(bytes, done + n, io, k + 1)
  {
  }

  lemma ReadGoesOn(bytes: nat, done: nat, io: nat -> Io, k: nat, n: nat)
    requires ReadSoFar(bytes, done, io, k) && io(k).Moved? && 1 <= n <= io(k).n && done + n < bytes
    requires bytes - done >= TWO_32 ==> bytes - done - n >= TWO_32
    ensures ReadSoFar(bytes, done + n, io, k + 1)
  {
    WriteGoesOn(bytes, done, io, k, n);
  }

  /** With calls that move something, it is closed only at the end of the stream, and done if that is far enough. */
  predicate MovingEnds(r: Outcome, bytes: nat, done: nat, available: nat, patience: nat) {
    && (r.Closed? ==> done == available)
    && (patience >= bytes && available >= bytes ==> r.Done? || r.TimedOut?)
  }

  /** How it can end without another call, and with one. */
  lemma EndsAfter(r: Outcome, io: nat -> Io, k: nat, patience: nat)
    requires AllMoved(io, k) && k <= patience && (r.TimedOut? || (r.Unfinished? && k == patience))
    ensures Answered(r, io, k, patience)
  {
  }

  lemma EndsWith(r: Outcome, io: nat -> Io, k: nat, patience: nat)
    requires AllMoved(io, k) && k < patience && (r.Error? <==> io(k).Failed?) && (r.Error? || r.Done? || r.Closed?)
    ensures Answered(r, io, k + 1, patience)
  {
  }

  /** What a round of a timed transfer comes to, with rest bytes still to go; Unfinished if the loop goes on. */
  function RoundOutcome(ready: bool, io: Io, n: nat, rest: nat): Outcome {
    if !ready then TimedOut
    else if io.Failed? then Error
    else if n == 0 then Closed
    else if rest == 0 then Done
    else Unfinished
  }

  /** How the timed tcp_read_all() ends after made calls, the last of which moved last bytes. */
  ghost predicate ReadEnd(r: Outcome, bytes: nat, done: nat, io: nat -> Io, made: nat, last: nat, available: nat,
                          patience: nat) {
    && (r.Done? ==> done == bytes && bytes < TWO_32)
    && Answered(r, io, made, patience)
    && (r.Closed? <==> !r.TimedOut? && ClosedBy(io, made, last))
    && AllGained(io, made - 1)
    && (Moving(io) && 1 <= bytes < TWO_32 ==> MovingEnds(r, bytes, done, available, patience))
  }

  lemma RoundEnds(ready: bool, bytes: nat, from: nat, io: nat -> Io, k: nat, n: nat, last: nat, available: nat,
                  patience: nat)
    requires ReadSoFar(bytes, from, io, k) && k < patience && n <= bytes - from && from + n <= available
    requires bytes - from >= TWO_32 ==> bytes - from - n >= TWO_32
    requires ready && from < bytes < TWO_32 && io(k).Moved? && io(k).n >= 1 ==> n >= 1 || from == available
    requires var r := RoundOutcome(ready, io(k), n, bytes - from - n);
      && !r.Unfinished? && (r.TimedOut? || r.Error? ==> n == 0)
      && (if r.TimedOut? then k > 0 ==> last > 0 else last == n)
    ensures var r := RoundOutcome(ready, io(k), n, bytes - from - n);
      ReadEnd(r, bytes, from + n, io, if r.TimedOut? then k else k + 1, last, available, patience)
  {
    var r := RoundOutcome(ready, io(k), n, bytes - from - n);
    if r.TimedOut? {
      EndsAfter(r, io, k, patience);
    } else {
      EndsWith(r, io, k, patience);
    }
  }

  lemma RoundsRunOut(bytes: nat, done: nat, io: nat -> Io, last: nat, available: nat, patience: nat)
    requires ReadSoFar(bytes, done, io, patience) && (patience > 0 ==> last > 0) && done <= available
    ensures ReadEnd(Unfinished, bytes, done, io, patience, last, available, patience)
  {
    EndsAfter(Unfinished, io, patience, patience);
  }

  function Moves(io: Io): nat { if io.Moved? then io.n else 0 }

  /** Every transfer moves something. */
  ghost predicate Moving(io: nat -> Io) {
    forall k: nat :: io(k).Moved? && io(k).n >= 1
  }

  /** The waits of a timed transfer: each is given what the earlier ones left, and follows waits that ended well. */
  ghost predicate Waited(linux: bool, limit: nat, select: (nat, nat) -> Wait, waits: seq<Wait>) {
    waits == [] ||
    var earlier, w := waits[..|waits| - 1], waits[|waits| - 1];
    && Waited(linux, limit, select, earlier)
    && w == select(|earlier|, Left(linux, limit, earlier))
    && (earlier == [] || earlier[|earlier| - 1].ready)
  }

  ghost predicate LastReady(waits: seq<Wait>) {
    waits == [] || waits[|waits| - 1].ready
  }

  /** One more wait. */
  lemma WaitedMore(linux: bool, limit: nat, select: (nat, nat) -> Wait, waits: seq<Wait>)
    requires Waited(linux, limit, select, waits) && LastReady(waits) && AllReported(linux, limit, waits)
    requires Reported(linux, Left(linux, limit, waits), select(|waits|, Left(linux, limit, waits)))
    ensures var w := select(|waits|, Left(linux, limit, waits));
      && Waited(linux, limit, select, waits + [w]) && AllReported(linux, limit, waits + [w])
      && Left(linux, limit, waits + [w]) == AfterWait(linux, Left(linux, limit, waits), w)
  {
    var w := select(|waits|, Left(linux, limit, waits));
    assert (waits + [w])[..|waits|] == waits;
  }

  /** Of a shared timeout no less is used up than was blocked, and no more but for a millisecond a wait. */
  ghost predicate Budget(linux: bool, limit: nat, waits: seq<Wait>, remaining: nat) {
    && remaining <= limit
    && (AllPunctual(linux, limit, waits) ==> Blocked(waits) + 1000 * remaining <= 1000 * limit)
    && (AllGenerous(linux, limit, waits) && (linux ==> limit < 1000 * TWO_32) ==>
          1000 * limit <= Blocked(waits) + 1000 * remaining + 1000 * |waits|)
  }

  lemma WaitedWithin(linux: bool, limit: nat, waits: seq<Wait>)
    requires AllReported(linux, limit, waits)
    ensures Budget(linux, limit, waits, Left(linux, limit, waits))
  {
    NeverGrows(linux, limit, waits, 0);
    if AllPunctual(linux, limit, waits) {
      BudgetKept(linux, limit, waits);
    }
    if AllGenerous(linux, limit, waits) && (linux ==> limit < 1000 * TWO_32) {
      NoMoreTaken(linux, limit, waits);
    }
  }

  /** Where a timed transfer stands between two rounds. */
  ghost predicate InTime(linux: bool, limit: nat, select: (nat, nat) -> Wait, waits: seq<Wait>, msec: nat) {
    && Waited(linux, limit, select, waits) && AllReported(linux, limit, waits)
    && msec == Left(linux, limit, waits) && Budget(linux, limit, waits, msec)
  }

  /** The next wait of a timed transfer, on what is left of its timeout. */
  method NextWait(linux: bool, limit: nat, select: (nat, nat) -> Wait, timeout: TimeSpan,
                  ghost waits: seq<Wait>, k: nat)
    returns (ready: bool, ghost more: seq<Wait>)
    requires timeout.Valid() && InTime(linux, limit, select, waits, timeout.msec) && LastReady(waits) && k == |waits|
    requires Reported(linux, timeout.msec, select(k, timeout.msec))
    modifies timeout
    ensures timeout.Valid() && InTime(linux, limit, select, more, timeout.msec)
    ensures |more| == k + 1 && more[..k] == waits && ready == LastReady(more)
  {
    var w := select(k, timeout.msec);
    WaitedMore(linux, limit, select, waits);
    more := waits + [w];
    WaitedWithin(linux, limit, more);
    ready := SocketWait2(linux, timeout, w);
  }

  /** Of a stream, got has been taken from the front and incoming is still to come. */
  predicate Taken(stream: seq<Byte>, got: seq<Byte>, incoming: seq<Byte>) {
    |got| <= |stream| && got == stream[..|got|] && incoming == stream[|got|..]
  }

  lemma TakenMore(stream: seq<Byte>, got: seq<Byte>, incoming: seq<Byte>, n: nat)
    requires Taken(stream, got, incoming) && n <= |incoming|
    ensures Taken(stream, got + incoming[..n], incoming[n..])
  {
  }

  /** One end of a connection: bytes given to the network, and bytes it has yet to hand over. */
  class Socket {
    var sent: seq<Byte>
    var incoming: seq<Byte>
    ghost var calls: nat                 // send() and recv() calls so far
    ghost var last: nat                  // bytes the last of them moved

    /** tcp_write(): the network takes a prefix of what is asked. */
    method Write(buf: seq<Byte>, from: nat, io: Io) returns (ok: bool, n: nat)
      requires from <= |buf|
      modifies this`sent, this`calls, this`last
      ensures ok == io.Moved? && calls == old(calls) + 1 && last == n
      ensures n == if io.Moved? then Granted(io.n, Ask(|buf| - from)) else 0
      ensures n <= |buf| - from && sent == old(sent) + buf[from..from + n]
    {
      AskWithin(|buf| - from);
      calls, last := calls + 1, 0;
      if io.Failed? { return false, 0; }
      n := Granted(io.n, Ask(|buf| - from));
      sent := sent + buf[from..from + n];
      ok, last := true, n;
    }

    /** One round of tcp_write_all(), as far as what was sent before the call and the message go. */
    method WriteMore(buf: seq<Byte>, from: nat, io: Io, ghost before: seq<Byte>) returns (ok: bool, n: nat)
      requires from <= |buf| && sent == before + buf[..from]
      modifies this`sent, this`calls, this`last
      ensures calls == old(calls) + 1 && last == n
      ensures n <= Moves(io)
      ensures ok == io.Moved? && n <= |buf| - from && (!ok ==> n == 0) && sent == before + buf[..from + n]
      ensures |buf| - from >= TWO_32 ==> |buf| - from - n >= TWO_32
      ensures from < |buf| < TWO_32 && io.Moved? && io.n >= 1 ==> n >= 1
    {
      AskWithin(|buf| - from);
      ok, n := Write(buf, from, io);
      assert buf[..from] + buf[from..from + n] == buf[..from + n];
      if |buf| - from >= TWO_32 { StuckAbove(|buf| - from, n); }
    }

    /** What recv() hands over lands behind what is in the buffer. */
    method Take(buf: array<Byte>, from: nat, n: nat)
      requires n <= |incoming| && from + n <= buf.Length
      modifies this`incoming, buf
      ensures incoming == old(incoming)[n..]
      ensures buf[..from + n] == old(buf[..from]) + old(incoming)[..n]
    {
      forall i | 0 <= i < n {
        buf[from + i] := incoming[i];
      }
      incoming := incoming[n..];
    }

    /** tcp_read(): the network hands over a prefix of what is there; nothing means the peer has closed. */
    method Read(buf: array<Byte>, from: nat, bytes: nat, io: Io) returns (ok: bool, n: nat)
      requires from <= bytes <= buf.Length
      modifies this`incoming, this`calls, this`last, buf
      ensures ok == io.Moved? && calls == old(calls) + 1 && last == n
      ensures n == if io.Moved? then Min(Granted(io.n, Ask(bytes - from)), |old(incoming)|) else 0
      ensures n <= bytes - from && n <= |old(incoming)| && incoming == old(incoming)[n..]
      ensures buf[..from + n] == old(buf[..from]) + old(incoming)[..n]
    {
      AskWithin(bytes - from);
      calls, last := calls + 1, 0;
      if io.Failed? { return false, 0; }
      n := Min(Granted(io.n, Ask(bytes - from)), |incoming|);
      Take(buf, from, n);
      ok, last := true, n;
    }

    /** One round of tcp_read_all(), as far as the stream and the size asked for go. */
    method ReadMore(buf: array<Byte>, from: nat, bytes: nat, io: Io, ghost stream: seq<Byte>) returns (ok: bool, n: nat)
      requires from <= bytes <= buf.Length && Taken(stream, buf[..from], incoming)
      modifies this`incoming, this`calls, this`last, buf
      ensures calls == old(calls) + 1 && last == n
      ensures n <= Moves(io)
      ensures ok == io.Moved? && n <= bytes - from && (!ok ==> n == 0) && Taken(stream, buf[..from + n], incoming)
      ensures bytes - from >= TWO_32 ==> bytes - from - n >= TWO_32
      ensures from < bytes < TWO_32 && io.Moved? && io.n >= 1 && old(incoming) != [] ==> n >= 1
    {
      ghost var got, coming := buf[..from], incoming;
      ok, n := Read(buf, from, bytes, io);
      TakenMore(stream, got, coming, n);
      AskWithin(bytes - from);
      if bytes - from >= TWO_32 { StuckAbove(bytes - from, n); }
    }

    /**
     * tcp_write_all(): whatever the network takes at a time, what it has taken is a prefix of
     * the message, and the whole of it if the call returns.  If every send() moves something,
     * the loop ends exactly for messages shorter than 2^32 bytes.
     */
    method WriteAll(buf: seq<Byte>, io: nat -> Io, patience: nat) returns (r: Outcome, done: nat)
      modifies this`sent, this`calls, this`last
      ensures done <= |buf| && sent == old(sent) + buf[..done]
      ensures r.Done? ==> done == |buf| && |buf| < TWO_32
      ensures r.Done? || r.Error? || r.Unfinished?
      ensures Answered(r, io, calls - old(calls), patience)
      ensures Moving(io) && patience >= 1 && patience >= |buf| ==> (r.Done? <==> |buf| < TWO_32)
    {
      done := 0;
      var k := 0;
      while k < patience
        invariant done <= |buf| && sent == old(sent) + buf[..done] && k <= patience
        invariant WrittenSoFar(|buf|, done, io, k) && calls == old(calls) + k
      {
        var ok, n := WriteMore(buf, done, io(k), old(sent));
        if ok && done + n < |buf| { WriteGoesOn(|buf|, done, io, k, n); }
        done := done + n;
        if !ok {
          EndsWith(Error, io, k, patience);
          return Error, done;
        }
        if done == |buf| {
          EndsWith(Done, io, k, patience);
          return Done, done;
        }
        k := k + 1;
      }
      EndsAfter(Unfinished, io, k, patience);
      r := Unfinished;
    }

    /** One round of the timed form: wait, and if the socket is ready write. */
    method WriteRound(linux: bool, limit: nat, select: (nat, nat) -> Wait, timeout: TimeSpan, ghost waits: seq<Wait>,
                      k: nat, buf: seq<Byte>, from: nat, io: Io, ghost before: seq<Byte>)
      returns (ready: bool, ok: bool, n: nat, ghost more: seq<Wait>)
      requires timeout.Valid() && InTime(linux, limit, select, waits, timeout.msec) && LastReady(waits) && k == |waits|
      requires Reported(linux, timeout.msec, select(k, timeout.msec))
      requires from <= |buf| && sent == before + buf[..from]
      modifies timeout, this`sent, this`calls, this`last
      ensures timeout.Valid() && InTime(linux, limit, select, more, timeout.msec)
      ensures |more| == k + 1 && ready == LastReady(more)
      ensures calls == old(calls) + (if ready then 1 else 0) && (ready ==> ok == io.Moved?)
      ensures n <= |buf| - from && sent == before + buf[..from + n] && (!ready || !ok ==> n == 0)
      ensures |buf| - from >= TWO_32 ==> |buf| - from - n >= TWO_32
      ensures ready && from < |buf| < TWO_32 && io.Moved? && io.n >= 1 ==> n >= 1
    {
      ready, more := NextWait(linux, limit, select, timeout, waits, k);
      ok, n := false, 0;
      if ready { ok, n := WriteMore(buf, from, io, before); }
    }

    /** tcp_write_all() with a timeout that all its waits share. */
    method WriteAllTimed(linux: bool, buf: seq<Byte>, limit: nat, select: (nat, nat) -> Wait, io: nat -> Io,
                         patience: nat)
      returns (r: Outcome, done: nat, remaining: nat, ghost waits: seq<Wait>)
      requires limit < TWO_64 && forall k, msec :: Reported(linux, msec, select(k, msec))
      modifies this`sent, this`calls, this`last
      ensures done <= |buf| && sent == old(sent) + buf[..done]
      ensures r.Done? ==> done == |buf| && |buf| < TWO_32
      ensures r.Done? || r.Error? || r.TimedOut? || r.Unfinished?
      ensures Answered(r, io, calls - old(calls), patience)
      ensures Moving(io) && patience >= 1 && patience >= |buf| && |buf| < TWO_32 ==> r.Done? || r.TimedOut?
      ensures InTime(linux, limit, select, waits, remaining) && (r.TimedOut? <==> !LastReady(waits))
      ensures |waits| == calls - old(calls) + (if r.TimedOut? then 1 else 0)
    {
      var timeout := new TimeSpan(limit);
      done, waits := 0, [];
      var k := 0;
      WaitedWithin(linux, limit, waits);
      while k < patience
        invariant done <= |buf| && sent == old(sent) + buf[..done] && k <= patience
        invariant WrittenSoFar(|buf|, done, io, k) && calls == old(calls) + k
        invariant fresh(timeout) && timeout.Valid() && InTime(linux, limit, select, waits, timeout.msec)
        invariant |waits| == k && LastReady(waits)
      {
        var ready, ok, n;
        ready, ok, n, waits := WriteRound(linux, limit, select, timeout, waits, k, buf, done, io(k), old(sent));
        if !ready {
          EndsAfter(TimedOut, io, k, patience);
          return TimedOut, done, timeout.msec, waits;
        }
        if ok && done + n < |buf| { WriteGoesOn(|buf|, done, io, k, n); }
        done := done + n;
        if !ok {
          EndsWith(Error, io, k, patience);
          return Error, done, timeout.msec, waits;
        }
        if done == |buf| {
          EndsWith(Done, io, k, patience);
          return Done, done, timeout.msec, waits;
        }
        k := k + 1;
      }
      EndsAfter(Unfinished, io, k, patience);
      return Unfinished, done, timeout.msec, waits;
    }

    /**
     * tcp_read_all(): the buffer fills with the stream in order.  A call that returns its size
     * has taken exactly that many bytes; any other has taken some and discards them.  If every
     * recv() is willing and the peer has sent enough, the call succeeds exactly for sizes below
     * 2^32 (and not 0, for which recv() cannot but return 0).
     */
    method ReadAll(buf: array<Byte>, bytes: nat, io: nat -> Io, patience: nat) returns (r: Outcome, done: nat)
      requires bytes <= buf.Length
      modifies this`incoming, this`calls, this`last, buf
      ensures done <= bytes && Taken(old(incoming), buf[..done], incoming)
      ensures r.Done? ==> done == bytes && bytes < TWO_32
      ensures r.Done? || r.Error? || r.Closed? || r.Unfinished?
      ensures Answered(r, io, calls - old(calls), patience)
      ensures r.Closed? <==> ClosedBy(io, calls - old(calls), last)
      ensures AllGained(io, calls - old(calls) - 1)
      ensures Moving(io) && 1 <= bytes < TWO_32 && r.Closed? ==> done == |old(incoming)|
      ensures Moving(io) && patience >= bytes && |old(incoming)| >= bytes >= 1 ==> (r.Done? <==> bytes < TWO_32)
    {
      done := 0;
      var k := 0;
      while k < patience
        invariant done <= bytes && k <= patience && Taken(old(incoming), buf[..done], incoming)
        invariant ReadSoFar(bytes, done, io, k) && calls == old(calls) + k && (k > 0 ==> last > 0)
      {
        var ok, res := ReadMore(buf, done, bytes, io(k), old(incoming));
        if ok && res > 0 && done + res < bytes { ReadGoesOn(bytes, done, io, k, res); }
        if !ok {
          EndsWith(Error, io, k, patience);
          return Error, done;
        }
        if res == 0 {
          EndsWith(Closed, io, k, patience);
          return Closed, done;
        }
        done := done + res;
        if done == bytes {
          EndsWith(Done, io, k, patience);
          return Done, done;
        }
        k := k + 1;
      }
      EndsAfter(Unfinished, io, k, patience);
      r := Unfinished;
    }

    /** One round of the timed form: wait, read, and see whether that ends the call. */
    method ReadRound(linux: bool, limit: nat, select: (nat, nat) -> Wait, timeout: TimeSpan, ghost waits: seq<Wait>,
                     k: nat, buf: array<Byte>, from: nat, bytes: nat, io: Io, ghost stream: seq<Byte>)
      returns (r: Outcome, n: nat, ghost more: seq<Wait>)
      requires timeout.Valid() && InTime(linux, limit, select, waits, timeout.msec) && LastReady(waits) && k == |waits|
      requires Reported(linux, timeout.msec, select(k, timeout.msec))
      requires from <= bytes <= buf.Length && Taken(stream, buf[..from], incoming)
      modifies timeout, this`incoming, this`calls, this`last, buf
      ensures timeout.Valid() && InTime(linux, limit, select, more, timeout.msec) && |more| == k + 1
      ensures n <= bytes - from && Taken(stream, buf[..from + n], incoming)
      ensures calls == old(calls) + (if r.TimedOut? then 0 else 1) && last == (if r.TimedOut? then old(last) else n)
      ensures r == RoundOutcome(LastReady(more), io, n, bytes - from - n)
      ensures n <= Moves(io) && (r.TimedOut? || r.Error? ==> n == 0)
      ensures bytes - from >= TWO_32 ==> bytes - from - n >= TWO_32
      ensures !r.TimedOut? && from < bytes < TWO_32 && io.Moved? && io.n >= 1 ==> n >= 1 || from == |stream|
    {
      var ready;
      ready, more := NextWait(linux, limit, select, timeout, waits, k);
      if !ready { return TimedOut, 0, more; }
      var ok;
      ok, n := ReadMore(buf, from, bytes, io, stream);
      r := if !ok then Error else if n == 0 then Closed else if from + n == bytes then Done else Unfinished;
    }

    /** The loop of the timed tcp_read_all(). */
    method ReadLoop(linux: bool, buf: array<Byte>, bytes: nat, limit: nat, timeout: TimeSpan,
                    select: (nat, nat) -> Wait, io: nat -> Io, patience: nat)
      returns (r: Outcome, done: nat, ghost waits: seq<Wait>, ghost made: nat)
      requires bytes <= buf.Length && forall k, msec :: Reported(linux, msec, select(k, msec))
      requires timeout.Valid() && timeout.msec == limit
      modifies timeout, this`incoming, this`calls, this`last, buf
      ensures done <= bytes && Taken(old(incoming), buf[..done], incoming)
      ensures calls == old(calls) + made
      ensures ReadEnd(r, bytes, done, io, made, last, |old(incoming)|, patience)
      ensures timeout.Valid() && InTime(linux, limit, select, waits, timeout.msec)
      ensures r.TimedOut? <==> !LastReady(waits)
      ensures |waits| == made + (if r.TimedOut? then 1 else 0)
    {
      done, waits := 0, [];
      var k := 0;
      WaitedWithin(linux, limit, waits);
      while k < patience
        invariant done <= bytes && k <= patience && Taken(old(incoming), buf[..done], incoming)
        invariant ReadSoFar(bytes, done, io, k) && calls == old(calls) + k && (k > 0 ==> last > 0)
        invariant timeout.Valid() && InTime(linux, limit, select, waits, timeout.msec)
        invariant |waits| == k && LastReady(waits)
      {
        var n;
        r, n, waits := ReadRound(linux, limit, select, timeout, waits, k, buf, done, bytes, io(k), old(incoming));
        if !r.Unfinished? {
          RoundEnds(LastReady(waits), bytes, done, io, k, n, last, |old(incoming)|, patience);
          return r, done + n, waits, if r.TimedOut? then k else k + 1;
        }
        ReadGoesOn(bytes, done, io, k, n);
        done := done + n;
        k := k + 1;
      }
      RoundsRunOut(bytes, done, io, last, |old(incoming)|, patience);
      r, made := Unfinished, k;
    }

    /** tcp_read_all() with a timeout that all its waits share. */
    method ReadAllTimed(linux: bool, buf: array<Byte>, bytes: nat, limit: nat, select: (nat, nat) -> Wait,
                        io: nat -> Io, patience: nat)
      returns (r: Outcome, done: nat, remaining: nat, ghost waits: seq<Wait>)
      requires bytes <= buf.Length && limit < TWO_64 && forall k, msec :: Reported(linux, msec, select(k, msec))
      modifies this`incoming, this`calls, this`last, buf
      ensures done <= bytes && Taken(old(incoming), buf[..done], incoming)
      ensures r.Done? ==> done == bytes && bytes < TWO_32
      ensures Answered(r, io, calls - old(calls), patience)
      ensures r.Closed? <==> !r.TimedOut? && ClosedBy(io, calls - old(calls), last)
      ensures AllGained(io, calls - old(calls) - 1)
      ensures Moving(io) && 1 <= bytes < TWO_32 ==> MovingEnds(r, bytes, done, |old(incoming)|, patience)
      ensures InTime(linux, limit, select, waits, remaining) && (r.TimedOut? <==> !LastReady(waits))
      ensures |waits| == calls - old(calls) + (if r.TimedOut? then 1 else 0)
    {
      var timeout := new TimeSpan(limit);
      ghost var made;
      r, done, waits, made := ReadLoop(linux, buf, bytes, limit, timeout, select, io, patience);
      remaining := timeout.msec;
    }
  }
}
