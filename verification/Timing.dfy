/** Time spans of 64-bit milliseconds, and the wait that uses one up. */
module Timing {
  import opened Alignment

  const TWO_32: int := 0x1_0000_0000
  const TWO_64: int := 0x1_0000_0000_0000_0000

  /** timestamp - timestamp never goes below zero. */
  function Elapsed(now: nat, before: nat): nat {
    if now > before then now - before else 0
  }

  /** in_sec() and msec_of_sec(): the whole seconds as 32 bits, and the rest. */
  function InSec(msec: nat): nat { msec / 1000 % TWO_32 }
  function MsecOfSec(msec: nat): nat { msec % 1000 }

  /** The limit that the timeval handed to select() states, in microseconds. */
  function LimitUsec(msec: nat): nat { InSec(msec) * 1000000 + MsecOfSec(msec) * 1000 }

  /** Whole multiples of 2^32 seconds are lost, and nothing else. */
  lemma LimitWithin(msec: nat)
    ensures LimitUsec(msec) == 1000 * (msec % (1000 * TWO_32)) <= 1000 * msec
    ensures msec < 1000 * TWO_32 ==> LimitUsec(msec) == 1000 * msec
  {
    var sec, high := msec / 1000, msec / 1000 / TWO_32;
    assert msec == 1000 * sec + msec % 1000 && sec == TWO_32 * high + sec % TWO_32;
    var low := 1000 * (sec % TWO_32) + msec % 1000;
    assert msec == (1000 * TWO_32) * high + low && 0 <= low < 1000 * TWO_32;
    RemainderIs(msec, 1000 * TWO_32, high, low);
  }

  class TimeSpan {
    var msec: nat

    predicate Valid()
      reads this
    {
      msec < TWO_64
    }

    constructor (msec: nat)
      requires msec < TWO_64
      ensures Valid() && this.msec == msec
    {
      this.msec := msec;
    }

    /** operator-= wraps as unsigned arithmetic does. */
    method Subtract(other: nat)
      requires Valid() && other < TWO_64
      modifies this
      ensures Valid() && msec == (old(msec) - other) % TWO_64
      ensures other <= old(msec) ==> msec == old(msec) - other
    {
      msec := (msec - other) % TWO_64;
    }
  }

  /**
   * What one select() did: whether the socket became ready, how long it blocked, the time left
   * that Linux writes back (seconds and microseconds), and the clock before and after (elsewhere).
   */
  datatype Wait = Wait(ready: bool, blockedUsec: nat, leftSec: nat, leftUsec: nat, before: nat, after: nat)

  function LeftUsec(w: Wait): nat { w.leftSec * 1000000 + w.leftUsec }

  /** select() writes back no more time than it was given, as a normal timeval; clocks are 64-bit. */
  ghost predicate Reported(linux: bool, msec: nat, w: Wait) {
    if linux then w.leftUsec < 1000000 && LeftUsec(w) <= LimitUsec(msec) else w.before < TWO_64 && w.after < TWO_64
  }

  /** select() blocks no longer than its limit, and no longer than is measured. */
  ghost predicate Punctual(linux: bool, msec: nat, w: Wait) {
    && w.blockedUsec <= LimitUsec(msec)
    && (w.ready && linux ==> w.blockedUsec + LeftUsec(w) <= LimitUsec(msec))
    && (w.ready && !linux ==> w.blockedUsec <= 1000 * Elapsed(w.after, w.before))
  }

  /** What a wait leaves of a timeout. */
  function AfterWait(linux: bool, msec: nat, w: Wait): nat {
    if !w.ready then 0
    else if linux then LeftUsec(w) / 1000
    else Elapsed(msec, Elapsed(w.after, w.before))
  }

  /** What a timeout shared by several waits has left after them. */
  function Left(linux: bool, limit: nat, waits: seq<Wait>): nat {
    if waits == [] then limit
    else AfterWait(linux, Left(linux, limit, waits[..|waits| - 1]), waits[|waits| - 1])
  }

  function Blocked(waits: seq<Wait>): nat {
    if waits == [] then 0 else Blocked(waits[..|waits| - 1]) + waits[|waits| - 1].blockedUsec
  }

  ghost predicate AllReported(linux: bool, limit: nat, waits: seq<Wait>) {
    waits == [] ||
    var earlier, w := waits[..|waits| - 1], waits[|waits| - 1];
    AllReported(linux, limit, earlier) && Reported(linux, Left(linux, limit, earlier), w)
  }

  ghost predicate AllPunctual(linux: bool, limit: nat, waits: seq<Wait>) {
    waits == [] ||
    var earlier, w := waits[..|waits| - 1], waits[|waits| - 1];
    AllPunctual(linux, limit, earlier) && Punctual(linux, Left(linux, limit, earlier), w)
  }

  /** One wait spends at least what it blocks, to the millisecond below. */
  lemma WaitSpends(linux: bool, msec: nat, w: Wait)
    requires Reported(linux, msec, w)
    ensures AfterWait(linux, msec, w) <= msec
    ensures Punctual(linux, msec, w) ==> w.blockedUsec + 1000 * AfterWait(linux, msec, w) <= 1000 * msec
  {
    LimitWithin(msec);
  }

  /**
   * A wait that ended well takes no more than it spent.  On Linux what is left is what select()
   * wrote back, to the millisecond below; elsewhere it is the timeout less the measured time.
   */
  lemma ReadyLeaves(linux: bool, msec: nat, w: Wait)
    requires w.ready
    ensures var left := AfterWait(linux, msec, w);
      && (linux ==> 1000 * left <= 1000000 * w.leftSec + w.leftUsec < 1000 * left + 1000)
      && (!linux && w.after <= w.before ==> left == msec)
      && (!linux && w.after > w.before ==>
            if w.after - w.before <= msec then left + (w.after - w.before) == msec else left == 0)
  {
  }

  /** select() tells no less than it left of its limit; the clock measures a millisecond too much at most. */
  ghost predicate Generous(linux: bool, msec: nat, w: Wait) {
    && w.ready
    && (linux ==> LimitUsec(msec) <= w.blockedUsec + 1000000 * w.leftSec + w.leftUsec)
    && (!linux ==> 1000 * w.after <= 1000 * w.before + w.blockedUsec + 1000)
  }

  ghost predicate AllGenerous(linux: bool, limit: nat, waits: seq<Wait>) {
    waits == [] ||
    var earlier, w := waits[..|waits| - 1], waits[|waits| - 1];
    AllGenerous(linux, limit, earlier) && Generous(linux, Left(linux, limit, earlier), w)
  }

  /**
   * No more is taken from the shared timeout than was spent, and one millisecond for each wait,
   * unless the timeout has 2^32 seconds or more, which select() on Linux is told short of.
   */
  lemma {:induction false} NoMoreTaken(linux: bool, limit: nat, waits: seq<Wait>)
    requires AllReported(linux, limit, waits) && AllGenerous(linux, limit, waits) && (linux ==> limit < 1000 * TWO_32)
    ensures 1000 * limit <= Blocked(waits) + 1000 * Left(linux, limit, waits) + 1000 * |waits|
  {
    if waits != [] {
      var earlier, w := waits[..|waits| - 1], waits[|waits| - 1];
      NoMoreTaken(linux, limit, earlier);
      NeverGrows(linux, limit, earlier, 0);
      LimitWithin(Left(linux, limit, earlier));
      ReadyLeaves(linux, Left(linux, limit, earlier), w);
    }
  }

  /** The remaining time never grows from wait to wait. */
  lemma {:induction false} NeverGrows(linux: bool, limit: nat, waits: seq<Wait>, k: nat)
    requires AllReported(linux, limit, waits) && k <= |waits|
    ensures Left(linux, limit, waits) <= Left(linux, limit, waits[..k]) <= limit
  {
    if waits != [] {
      var earlier, w := waits[..|waits| - 1], waits[|waits| - 1];
      WaitSpends(linux, Left(linux, limit, earlier), w);
      if k < |waits| {
        NeverGrows(linux, limit, earlier, k);
        assert earlier[..k] == waits[..k];
      } else {
        NeverGrows(linux, limit, earlier, |earlier|);
        assert waits[..k] == waits;
      }
    }
  }

  /**
   * If each wait blocks no longer than its limit and its measured time, all waits together
   * block no longer than the timeout they share.
   */
  lemma {:induction false} BudgetKept(linux: bool, limit: nat, waits: seq<Wait>)
    requires AllReported(linux, limit, waits) && AllPunctual(linux, limit, waits)
    ensures Blocked(waits) + 1000 * Left(linux, limit, waits) <= 1000 * limit
  {
    if waits != [] {
      var earlier := waits[..|waits| - 1];
      BudgetKept(linux, limit, earlier);
      WaitSpends(linux, Left(linux, limit, earlier), waits[|waits| - 1]);
    }
  }

  /** socket_wait2(): wait, and leave in the timeout what is still to be spent. */
  method SocketWait2(linux: bool, timeout: TimeSpan, w: Wait) returns (ok: bool)
    requires timeout.Valid() && Reported(linux, timeout.msec, w)
    modifies timeout
    ensures timeout.Valid() && ok == w.ready
    ensures timeout.msec == AfterWait(linux, old(timeout.msec), w) <= old(timeout.msec)
    ensures !ok ==> timeout.msec == 0
    ensures ok && linux ==> 1000 * timeout.msec <= 1000000 * w.leftSec + w.leftUsec < 1000 * timeout.msec + 1000
    ensures ok && !linux && w.after <= w.before ==> timeout.msec == old(timeout.msec)
    ensures ok && !linux && w.after > w.before ==>
      if w.after - w.before <= old(timeout.msec) then timeout.msec + (w.after - w.before) == old(timeout.msec)
      else timeout.msec == 0
    ensures Punctual(linux, old(timeout.msec), w) ==> w.blockedUsec + 1000 * timeout.msec <= 1000 * old(timeout.msec)
  {
    WaitSpends(linux, timeout.msec, w);
    if !w.ready {
      timeout.msec := 0;
      return false;
    }
    if linux {
      assert LeftUsec(w) / 1000 == w.leftSec * 1000 + w.leftUsec / 1000;
      timeout.msec := w.leftSec * 1000 + w.leftUsec / 1000;
    } else {
      var waited := Elapsed(w.after, w.before);
      if waited > timeout.msec {
        timeout.msec := 0;
      } else {
        timeout.Subtract(waited);
      }
    }
    return true;
  }
}
