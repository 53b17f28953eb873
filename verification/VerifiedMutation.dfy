/** The polling loop behind every verified write and removal of the JavaScript adapter. */
module VerifiedMutation {
  import opened Wrappers

  const VERIFY_INTERVAL_MS: int := 50

  /** One readback: whether it shows the requested value, or that reading itself failed. */
  datatype Reading = Shows(requested: bool) | ReadError

  datatype MutationError = CallFailed | ReadbackFailed | CallbackFailed | Timeout

  /**
   The world around the loop: what each successive readback shows, after which readback the mutation's
   callback has reported failure, how long each readback takes, and how much longer than asked each
   delay takes.
   */
  class Host {
    const reading: nat -> Reading
    const failureSeenAt: Option<nat>
    const readingTime: nat -> nat
    const lag: nat -> nat
    var clock: int
    var readCount: nat
    var delayCount: nat

    constructor (
      reading: nat -> Reading, failureSeenAt: Option<nat>, readingTime: nat -> nat, lag: nat -> nat, clock: int)
      ensures this.reading == reading && this.failureSeenAt == failureSeenAt
      ensures this.readingTime == readingTime && this.lag == lag
      ensures this.clock == clock && readCount == 0 && delayCount == 0
    {
      this.reading := reading;
      this.failureSeenAt := failureSeenAt;
      this.readingTime := readingTime;
      this.lag := lag;
      this.clock := clock;
      readCount := 0;
      delayCount := 0;
    }

    method Verify() returns (r: Reading)
      modifies this`clock, this`readCount
      ensures r == reading(old(readCount)) && readCount == old(readCount) + 1
      ensures clock == old(clock) + readingTime(old(readCount))
    {
      r := reading(readCount);
      clock := clock + readingTime(readCount);
      readCount := readCount + 1;
    }

    predicate CallbackFailure()
      reads this
    {
      failureSeenAt.Some? && failureSeenAt.value < readCount
    }

    method Delay(milliseconds: nat)
      modifies this`clock, this`delayCount
      ensures clock == old(clock) + milliseconds + lag(old(delayCount)) && delayCount == old(delayCount) + 1
    {
      clock := clock + milliseconds + lag(delayCount);
      delayCount := delayCount + 1;
    }
  }

  function CeilDiv(a: nat, b: nat): nat
    requires b > 0
  {
    (a + b - 1) / b
  }

  /** The sum of the first `n` values. */
  function Total(f: nat -> nat, n: nat): nat {
    if n == 0 then 0 else Total(f, n - 1) + f(n - 1)
  }

  lemma TotalGrows(f: nat -> nat, n: nat)
    ensures Total(f, 0) == 0 && Total(f, n + 1) == Total(f, n) + f(n)
  {
  }

  /** Where nothing but delays takes time, whoever has waited out the timeout made every delay it allows. */
  lemma {:induction false} TimeoutIsExact(
    readingTime: nat -> nat, lag: nat -> nat, elapsed: int, timeoutMs: nat, delays: nat)
    requires timeoutMs <= elapsed <= 50 * delays + Total(readingTime, delays + 1) + Total(lag, delays)
    requires elapsed <= timeoutMs + Total(readingTime, delays + 1) + Total(lag, delays)
    requires delays <= CeilDiv(timeoutMs, 50)
    ensures (forall i: nat :: readingTime(i) == 0) && (forall i: nat :: lag(i) == 0) ==>
      elapsed == timeoutMs && delays == CeilDiv(timeoutMs, 50)
  {
    if (forall i: nat :: readingTime(i) == 0) && (forall i: nat :: lag(i) == 0) {
      NothingTotals(readingTime, delays + 1);
      NothingTotals(lag, delays);
    }
  }

  lemma {:induction false} NothingTotals(f: nat -> nat, n: nat)
    requires forall i: nat :: f(i) == 0
    ensures Total(f, n) == 0
  {
    if n > 0 {
      NothingTotals(f, n - 1);
    }
  }

  /**
   Once the mutation has been issued, success means the last readback showed the requested value, and
   before it none did. The loop delays at most once per interval of the timeout, begun or whole, never
   longer than an interval nor beyond the deadline, and reads back once more than it delays. Where
   readbacks and lag take no time, a timeout comes exactly at the deadline, after every delay it allows.
   */
  method MutateAndVerify(host: Host, callThrows: bool, timeoutMs: nat) returns (r: Result<(), MutationError>)
    requires host.readCount == 0 && host.delayCount == 0
    modifies host
    ensures callThrows <==> r == Err(CallFailed)
    ensures callThrows ==> host.readCount == 0 && host.delayCount == 0 && host.clock == old(host.clock)
    ensures host.delayCount <= CeilDiv(timeoutMs, 50)
    ensures !callThrows ==>
      && host.readCount == host.delayCount + 1
      && (r.Ok? <==> host.reading(host.readCount - 1) == Shows(true))
      && (forall i: nat :: i < host.readCount - 1 ==> host.reading(i) == Shows(false))
      && (r == Err(ReadbackFailed) <==> host.reading(host.readCount - 1) == ReadError)
      && (r == Err(CallbackFailed) <==>
            host.reading(host.readCount - 1) == Shows(false) && host.CallbackFailure())
      && (r == Err(Timeout) ==> host.clock >= old(host.clock) + timeoutMs)
    ensures host.clock <= old(host.clock) + 50 * host.delayCount
                          + Total(host.readingTime, host.readCount) + Total(host.lag, host.delayCount)
    ensures host.clock <= old(host.clock) + timeoutMs
                          + Total(host.readingTime, host.readCount) + Total(host.lag, host.delayCount)
    ensures r == Err(Timeout) && (forall i: nat :: host.readingTime(i) == 0) && (forall i: nat :: host.lag(i) == 0) ==>
      host.clock == old(host.clock) + timeoutMs && host.delayCount == CeilDiv(timeoutMs, 50)
  {
    hide Total, Host.CallbackFailure;
    TotalGrows(host.readingTime, 0);
    TotalGrows(host.lag, 0);
    if callThrows {
      return Err(CallFailed);
    }
    var deadline := host.clock + timeoutMs;
    while true
      invariant deadline == old(host.clock) + timeoutMs
      invariant host.readCount == host.delayCount
      invariant host.delayCount > 0 ==> (host.delayCount - 1) * VERIFY_INTERVAL_MS < timeoutMs
      invariant host.clock < deadline ==>
        host.delayCount * VERIFY_INTERVAL_MS <= host.clock - old(host.clock)
      invariant host.clock >= old(host.clock)
      invariant host.clock <= old(host.clock) + 50 * host.delayCount
                              + Total(host.readingTime, host.readCount) + Total(host.lag, host.delayCount)
      invariant host.clock <= deadline
                              + Total(host.readingTime, host.readCount) + Total(host.lag, host.delayCount)
      invariant forall i: nat :: i < host.readCount ==> host.reading(i) == Shows(false)
      decreases deadline - host.clock, deadline > host.clock
    {
      TotalGrows(host.readingTime, host.readCount);
      TotalGrows(host.lag, host.delayCount);
      var verified := host.Verify();
      if verified.ReadError? {
        return Err(ReadbackFailed);
      }
      if verified.requested {
        return Ok(());
      }
      if host.CallbackFailure() {
        return Err(CallbackFailed);
      }
      var remaining := deadline - host.clock;
      if remaining <= 0 {
        TimeoutIsExact(host.readingTime, host.lag, host.clock - deadline + timeoutMs, timeoutMs, host.delayCount);
        return Err(Timeout);
      }
      host.Delay(if VERIFY_INTERVAL_MS <= remaining then VERIFY_INTERVAL_MS else remaining);
    }
  }
}
