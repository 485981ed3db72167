// Countdown timers: borrow arithmetic on seconds and microseconds, and what it adds up to over
// any series of calls.
module TimeoutHandlers {

  const USEC: int := 1000000

  /** A normalised span of time. */
  predicate IsTime(sec: int, usec: int) {
    0 <= sec && 0 <= usec < 1000000
  }

  function Micros(sec: int, usec: int): int {
    sec * 1000000 + usec
  }

  class TimeoutHandler {
    var sec: int
    var usec: int

    ghost predicate Valid()
      reads this
    {
      IsTime(sec, usec)
    }

    /** The time left in microseconds. */
    ghost function Left(): int
      reads this
    {
      Micros(sec, usec)
    }

    constructor (pSec: int, pUsec: int)
      requires IsTime(pSec, pUsec)
      ensures Valid() && Left() == Micros(pSec, pUsec)
    {
      sec, usec := pSec, pUsec;
    }

    predicate Elapsed()
      reads this
    {
      sec <= 0 && usec <= 0
    }

    /** Hands over elapsed time; the result says whether the event is triggered. The time may be
        negative, as after the clock was set back; then a timer that runs gains as much, but for
        a part of a second that is lost where there is no full second to borrow from. */
    method Process(pSec: int, pUsec: int) returns (triggered: bool)
      requires Valid() && 0 <= pUsec < USEC
      modifies this
      ensures Valid()
      ensures Left() == LeftAfterProcess(old(sec), old(usec), pSec, pUsec)
      ensures IsTime(pSec, pUsec) ==> Left() == Saturating(old(Left()), Micros(pSec, pUsec))
      ensures triggered <==> 0 < old(Left()) && Left() == 0
      ensures Elapsed() <==> Left() == 0
    {
      hide LeftAfterProcess, Saturating, Micros;
      NothingLeft(pSec, pUsec);
      ZeroMicros();
      if pSec >= 0 {
        ProcessIsSaturating(sec, usec, pSec, pUsec);
      }
      if Elapsed() {
        return false;
      }
      Subtracted(sec, usec, pSec, pUsec);
      usec := usec - pUsec;
      if usec < 0 {
        sec := sec - 1;
        if sec >= 0 {
          usec := usec + USEC;
        } else {
          usec := 0;
        }
      }
      sec := sec - pSec;
      if sec < 0 {
        sec := 0;
        usec := 0;
      }
      triggered := Elapsed();
    }

    /** Zeroes the timer without triggering the event. */
    method Stop()
      modifies this
      ensures Valid() && Left() == 0
    {
      sec := 0;
      usec := 0;
    }
  }

  function Saturating(left: int, passed: int): int {
    if passed < left then left - passed else 0
  }

  lemma ZeroMicros()
    ensures forall sec, usec :: IsTime(sec, usec) ==> Micros(sec, usec) >= 0 && (Micros(sec, usec) == 0 <==> sec == 0 && usec == 0)
  {
  }

  lemma NothingLeft(pSec: int, pUsec: int)
    ensures LeftAfterProcess(0, 0, pSec, pUsec) == 0
  {
  }

  /** Subtraction with borrow, unless there is no full second to borrow from. */
  lemma Subtracted(sec: int, usec: int, pSec: int, pUsec: int)
    requires IsTime(sec, usec) && 0 <= pUsec < USEC && Micros(sec, usec) > 0
    ensures var restSec := if usec < pUsec then sec - 1 - pSec else sec - pSec;
      var restUsec := if usec >= pUsec then usec - pUsec else if sec >= 1 then usec - pUsec + USEC else 0;
      && 0 <= restUsec < USEC
      && LeftAfterProcess(sec, usec, pSec, pUsec) == if restSec < 0 then 0 else Micros(restSec, restUsec)
  {
  }

  /** What a timer has left after any elapsed time, positive or negative. */
  function LeftAfterProcess(sec: int, usec: int, pSec: int, pUsec: int): int {
    if sec == 0 && usec == 0 then 0
    else if pSec < 0 && sec == 0 && usec < pUsec then Micros(-1 - pSec, 0)
    else Saturating(Micros(sec, usec), Micros(pSec, pUsec))
  }

  lemma ProcessIsSaturating(sec: int, usec: int, pSec: int, pUsec: int)
    requires IsTime(sec, usec) && IsTime(pSec, pUsec)
    ensures LeftAfterProcess(sec, usec, pSec, pUsec) == Saturating(Micros(sec, usec), Micros(pSec, pUsec))
  {
  }

  // ---------- a series of calls ----------

  function Total(calls: seq<nat>): nat {
    if calls == [] then 0 else Total(calls[..|calls| - 1]) + calls[|calls| - 1]
  }

  /** The time left after the calls, one after another. */
  function LeftAfter(left: nat, calls: seq<nat>): int {
    if calls == [] then left else Saturating(LeftAfter(left, calls[..|calls| - 1]), calls[|calls| - 1])
  }

  /** The k-th call triggers the event. */
  predicate TriggersAt(left: nat, calls: seq<nat>, k: nat)
    requires k < |calls|
  {
    0 < LeftAfter(left, calls[..k]) <= calls[k]
  }

  /** Over any series of calls the time left is the set time less all time handed over, but
      not below zero. */
  lemma {:induction false} LeftIsSaturating(left: nat, calls: seq<nat>)
    ensures LeftAfter(left, calls) == Saturating(left, Total(calls))
  {
    if calls != [] {
      LeftIsSaturating(left, calls[..|calls| - 1]);
    }
  }

  /** The event is triggered by exactly the call at which the total reaches the set time. */
  lemma TriggersWhenReached(left: nat, calls: seq<nat>, k: nat)
    requires k < |calls|
    ensures TriggersAt(left, calls, k) <==> Total(calls[..k]) < left <= Total(calls[..k + 1])
  {
    LeftIsSaturating(left, calls[..k]);
    assert calls[..k + 1][..k] == calls[..k];
  }

  lemma {:induction false} TotalGrows(calls: seq<nat>, j: nat, k: nat)
    requires j <= k <= |calls|
    ensures Total(calls[..j]) <= Total(calls[..k])
  {
    if j < k {
      TotalGrows(calls, j, k - 1);
      assert calls[..k][..k - 1] == calls[..k - 1];
    }
  }

  /** So it is triggered at most once; never once the time left is zero, as after a stop; and
      some call triggers it as soon as a running timer's time is used up. */
  lemma TriggersOnce(left: nat, calls: seq<nat>)
    ensures forall j, k :: 0 <= j < k < |calls| ==> !(TriggersAt(left, calls, j) && TriggersAt(left, calls, k))
    ensures (exists k :: 0 <= k < |calls| && TriggersAt(left, calls, k)) <==> 0 < left <= Total(calls)
  {
    forall j, k | 0 <= j < k < |calls| && TriggersAt(left, calls, j) ensures !TriggersAt(left, calls, k) {
      TriggersWhenReached(left, calls, j);
      TriggersWhenReached(left, calls, k);
      TotalGrows(calls, j + 1, k);
    }
    forall k | 0 <= k < |calls| && TriggersAt(left, calls, k) ensures 0 < left <= Total(calls) {
      TriggersWhenReached(left, calls, k);
      TotalGrows(calls, k + 1, |calls|);
      assert calls[..|calls|] == calls;
    }
    if 0 < left <= Total(calls) {
      var k := FirstReached(left, calls);
    }
  }

  lemma {:induction false} FirstReached(left: nat, calls: seq<nat>) returns (k: nat)
    requires 0 < left <= Total(calls)
    ensures k < |calls| && TriggersAt(left, calls, k)
  {
    var n := |calls| - 1;
    var rest := calls[..n];
    if left <= Total(rest) {
      k := FirstReached(left, rest);
      assert rest[..k] == calls[..k];
    } else {
      k := n;
      LeftIsSaturating(left, rest);
    }
  }

  // ---------- the elapsed time of one round of the server ----------

  /** The clock readings before and after waiting, subtracted in place. The difference is exact and
      its microseconds are normalised, whether or not the clock was set back in between, unless
      there is no full second to borrow from. It is a span of time exactly if the clock was not
      set back. */
  method ElapsedTime(beforeSec: int, beforeUsec: int, afterSec: int, afterUsec: int) returns (sec: int, usec: int)
    requires IsTime(beforeSec, beforeUsec) && IsTime(afterSec, afterUsec)
    ensures IsTime(sec, usec) <==> Micros(beforeSec, beforeUsec) <= Micros(afterSec, afterUsec)
    ensures afterSec == 0 && afterUsec < beforeUsec <==> !(0 <= usec < USEC)
    ensures 0 <= usec < USEC ==> Micros(sec, usec) == Micros(afterSec, afterUsec) - Micros(beforeSec, beforeUsec)
  {
    sec, usec := afterSec, afterUsec;
    usec := usec - beforeUsec;
    if usec < 0 {
      sec := sec - 1;
      if sec >= 0 {
        usec := usec + USEC;
      }
    }
    sec := sec - beforeSec;
  }
}
