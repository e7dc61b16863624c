/** Waiting for the data directory's lock: one try at once, then a polling loop with a deadline.

    What each try of the lock yields, and what each look at the clock shows, are inputs: they
    depend on other processes and on the system. Times are in milliseconds. */
module Lock {
  datatype Try = Free | Held | Broken

  datatype Acquired = Acquired | LockError | TimedOut

  const POLL_INTERVAL: nat := 250

  /** The clock is looked at once when the wait begins and once after each held try in the loop;
      the loop sleeps between looks. */
  ghost predicate IsClock(clock: nat -> int) {
    clock(0) <= clock(1) && forall k: nat | k >= 1 :: clock(k + 1) >= clock(k) + POLL_INTERVAL
  }

  /** Whether try number `k` settles the matter: it finds the lock free or broken, or it finds it
      held at or past the deadline. The first try comes before the deadline is set. */
  predicate Settles(tries: nat -> Try, clock: nat -> int, wait: nat, k: nat) {
    !tries(k).Held? || (k >= 1 && clock(k) >= clock(0) + wait)
  }

  function Verdict(answer: Try): Acquired {
    match answer
    case Free => Acquired
    case Broken => LockError
    case Held => TimedOut
  }

  /** The `k`-th look at the clock comes after `k - 1` sleeps. */
  lemma {:induction false} TimePasses(clock: nat -> int, k: nat)
    requires IsClock(clock) && k >= 1
    ensures clock(k) >= clock(0) + (k - 1) * POLL_INTERVAL
  {
    if k > 1 {
      TimePasses(clock, k - 1);
    }
  }

  /** Some try settles the matter, at the latest the first one after the wait has been slept. */
  lemma SomeTrySettles(tries: nat -> Try, clock: nat -> int, wait: nat)
    requires IsClock(clock)
    ensures exists k: nat :: (k - 2) * POLL_INTERVAL < wait && Settles(tries, clock, wait, k)
  {
    var k := (wait + POLL_INTERVAL - 1) / POLL_INTERVAL + 1;
    TimePasses(clock, k);
    assert (k - 2) * POLL_INTERVAL < wait <= (k - 1) * POLL_INTERVAL;
    assert Settles(tries, clock, wait, k);
  }

  /** The outcome is that of the first try that settles the matter: the lock is acquired exactly
      if that try finds it free, and time is called only after a held try at or past the
      deadline. No try is made after it. */
  method AcquireBlocking(tries: nat -> Try, clock: nat -> int, wait: nat) returns (result: Acquired, last: nat)
    requires IsClock(clock)
    ensures Settles(tries, clock, wait, last) && forall k: nat | k < last :: !Settles(tries, clock, wait, k)
    ensures result == Verdict(tries(last))
    ensures result.Acquired? <==> tries(last).Free?
    ensures result.LockError? <==> tries(last).Broken?
    ensures result.TimedOut? <==> tries(last).Held?
    ensures result.TimedOut? ==> last >= 1 && clock(last) >= clock(0) + wait
    ensures forall k: nat | k < last :: tries(k).Held? && (k >= 1 ==> clock(k) < clock(0) + wait)
    ensures (last - 2) * 250 < wait
  {
    last := 0;
    match tries(0) {
      case Free => return Acquired, 0;
      case Broken => return LockError, 0;
      case Held =>
    }
    var deadline := clock(0) + wait;
    last := 1;
    while true
      invariant last >= 1
      invariant forall k: nat | k < last :: !Settles(tries, clock, wait, k)
      invariant forall k: nat | k < last :: tries(k).Held? && (k >= 1 ==> clock(k) < clock(0) + wait)
      invariant (last - 2) * POLL_INTERVAL < wait
      decreases wait - (last - 2) * POLL_INTERVAL
    {
      match tries(last) {
        case Free => return Acquired, last;
        case Broken => return LockError, last;
        case Held =>
      }
      if clock(last) >= deadline {
        return TimedOut, last;
      }
      TimePasses(clock, last);
      last := last + 1;
    }
  }
}
