/** The RabbitMQ connection manager: reconnecting with backoff and retrying an operation. */
module Connection {
  import opened Decimals

  /** What one pass of the reconnect loop meets: the context ends during the wait, or one of two calls
      fails, or both succeed and yield a new connection and channel. */
  datatype Attempt = ContextEnds | DialFails | ChannelFails | Opened(connection: nat, channel: nat)

  datatype ReconnectResult = Reconnected | ContextDone | MaxAttemptsReached

  /** Error texts that retrying distinguishes. */
  datatype ErrorText = NotOpen | ConnectionForced | BrokenPipe | Eof | OtherText

  /** One run of the operation; `closed`: the connection is found closed afterwards. */
  datatype OpOutcome = OpOk | OpFails(text: ErrorText, closed: bool)

  datatype RetryResult = Ok | OpError(text: ErrorText) | FailedToReconnect(cause: ReconnectResult) | FailedAfterRetries

  const MAX_ATTEMPTS := 10
  const MAX_RETRIES := 3

  /** Seconds before the k-th dial. */
  function Backoff(k: nat): nat
    requires k >= 1
  {
    var doubled := Power2(k - 1);
    if doubled > 30 then 30 else doubled
  }

  function TotalBackoff(dials: nat): nat {
    if dials == 0 then 0 else TotalBackoff(dials - 1) + Backoff(dials)
  }

  lemma {:induction false} BackoffDoubles(k: nat)
    requires k >= 1
    ensures Power2(k) == 2 * Power2(k - 1)
    ensures if k <= 5 then Power2(k - 1) <= 16 else Power2(k - 1) >= 32
    ensures Backoff(k + 1) == if 2 * Backoff(k) > 30 then 30 else 2 * Backoff(k)
  {
    if k > 1 {
      BackoffDoubles(k - 1);
    }
    assert k == 5 ==> Power2(4) == 16;
  }

  /** Ten dials wait 181 seconds altogether, fewer wait less. */
  lemma {:induction false} BackoffBound(dials: nat)
    requires dials <= MAX_ATTEMPTS
    ensures TotalBackoff(dials) == if dials <= 5 then Power2(dials) - 1 else 31 + 30 * (dials - 5)
    ensures TotalBackoff(dials) <= 181
  {
    if dials > 0 {
      BackoffBound(dials - 1);
      BackoffDoubles(dials);
    }
  }

  lemma {:induction false} OneMoreDial(dials: nat)
    requires dials < MAX_ATTEMPTS
    ensures TotalBackoff(dials + 1) == TotalBackoff(dials) + Backoff(dials + 1) <= 181
    ensures Backoff(dials + 2) == if 2 * Backoff(dials + 1) > 30 then 30 else 2 * Backoff(dials + 1)
  {
    BackoffBound(dials + 1);
    BackoffDoubles(dials + 1);
  }

  predicate Failing(attempt: Attempt) {
    attempt.DialFails? || attempt.ChannelFails?
  }

  predicate AllFailBefore(attempts: nat -> Attempt, n: nat) {
    forall k :: 0 <= k < n ==> Failing(attempts(k))
  }

  /** How a reconnect ends after this many dials. */
  predicate Yields(attempts: nat -> Attempt, result: ReconnectResult, dials: nat) {
    match result
    case Reconnected => 0 < dials <= MAX_ATTEMPTS && AllFailBefore(attempts, dials - 1) && attempts(dials - 1).Opened?
    case ContextDone => dials < MAX_ATTEMPTS && AllFailBefore(attempts, dials) && attempts(dials).ContextEnds?
    case MaxAttemptsReached => dials == MAX_ATTEMPTS && AllFailBefore(attempts, MAX_ATTEMPTS)
  }

  predicate Ends(attempts: nat -> Attempt, result: ReconnectResult) {
    exists dials :: 0 <= dials <= MAX_ATTEMPTS && Yields(attempts, result, dials)
  }

  /** Every pattern of attempts determines the result and the number of dials. */
  lemma {:induction false} OneEnding(attempts: nat -> Attempt, result: ReconnectResult, dials: nat,
        other: ReconnectResult, otherDials: nat)
    requires Yields(attempts, result, dials) && Yields(attempts, other, otherDials)
    ensures result == other && dials == otherDials
  {
    var settled := if result.Reconnected? then dials - 1 else dials;
    var otherSettled := if other.Reconnected? then otherDials - 1 else otherDials;
    assert settled < otherSettled ==> Failing(attempts(settled));
    assert otherSettled < settled ==> Failing(attempts(otherSettled));
  }

  lemma {:induction false} OneMoreFailure(attempts: nat -> Attempt, n: nat)
    requires AllFailBefore(attempts, n) && Failing(attempts(n))
    ensures AllFailBefore(attempts, n + 1)
  {
  }

  class ConnectionManager {
    var connection: nat
    var channel: nat

    constructor (connection: nat, channel: nat)
      ensures this.connection == connection && this.channel == channel
    {
      this.connection, this.channel := connection, channel;
    }

    /** A failed attempt leaves the old connection in place. */
    method Connect(attempt: Attempt) returns (ok: bool)
      requires !attempt.ContextEnds?
      modifies this
      ensures ok <==> attempt.Opened?
      ensures ok ==> connection == attempt.connection && channel == attempt.channel
      ensures !ok ==> connection == old(connection) && channel == old(channel)
    {
      if attempt.DialFails? || attempt.ChannelFails? {
        return false;
      }
      connection, channel := attempt.connection, attempt.channel;
      ok := true;
    }

    /** `attempts(k)` is what the k-th pass meets; `waited` adds up the waits that were followed by a dial. */
    method Reconnect(attempts: nat -> Attempt) returns (result: ReconnectResult, dials: nat, waited: nat)
      modifies this
      ensures dials <= 10 && waited == TotalBackoff(dials) <= 181
      ensures Yields(attempts, result, dials)
      ensures result.MaxAttemptsReached? <==> dials == 10 && !attempts(9).Opened?
      ensures result.MaxAttemptsReached? ==> waited == 181
      ensures result.Reconnected? ==> attempts(dials - 1) == Opened(connection, channel)
      ensures !result.Reconnected? ==> connection == old(connection) && channel == old(channel)
    {
      assert Backoff(1) == 1 && TotalBackoff(0) == 0;
      BackoffBound(10);
      assert AllFailBefore(attempts, 0);
      hide Power2, Backoff, TotalBackoff, AllFailBefore;
      var backoff, tries := 1, 0;
      dials, waited := 0, 0;
      while true
        invariant dials == tries <= MAX_ATTEMPTS
        invariant backoff == Backoff(tries + 1) && waited == TotalBackoff(tries) <= 181
        invariant AllFailBefore(attempts, tries)
        invariant connection == old(connection) && channel == old(channel)
        decreases MAX_ATTEMPTS - tries
      {
        tries := tries + 1;
        if tries > MAX_ATTEMPTS {
          return MaxAttemptsReached, dials, waited;
        }
        OneMoreDial(tries - 1);
        if attempts(tries - 1).ContextEnds? {
          return ContextDone, dials, waited;
        }
        dials, waited := dials + 1, waited + backoff;
        var attempt := attempts(tries - 1);
        var ok := Connect(attempt);
        if ok {
          return Reconnected, dials, waited;
        }
        OneMoreFailure(attempts, tries - 1);
        backoff := backoff * 2;
        if backoff > 30 {
          backoff := 30;
        }
      }
    }

    /** The connection is found closed, or the error has one of four texts. */
    predicate IsConnectionError(outcome: OpOutcome): (r: bool)
      ensures r
         <==> outcome.OpFails?
              && (outcome.closed || outcome.text in {NotOpen, ConnectionForced, BrokenPipe, Eof})
    {
      outcome.OpFails? && (outcome.closed || outcome.text != OtherText)
    }

    predicate ShouldReturn(outcome: OpOutcome, attempt: nat) {
      !IsConnectionError(outcome) || attempt == MAX_RETRIES
    }

    /** `outcomes(k)` is what the k-th run of the operation returns, `attempts(k)` what the reconnect after
        it meets.  `runs` counts the runs, `dials` and `waited` add up the reconnects, `slept` is in ms. */
    method RetryWithReconnect(outcomes: nat -> OpOutcome, attempts: nat -> nat -> Attempt)
      returns (result: RetryResult, runs: nat, dials: nat, waited: nat, slept: nat)
      modifies this
      ensures 1 <= runs <= 3 && dials <= 20 && waited <= 362 && slept == 50 * runs * (runs - 1) <= 300
      ensures forall k :: 0 <= k < runs - 1 ==> IsConnectionError(outcomes(k)) && Ends(attempts(k), Reconnected)
      ensures result.Ok? <==> outcomes(runs - 1).OpOk?
      ensures match result
              case Ok => true
              case OpError(text) => outcomes(runs - 1).OpFails? && outcomes(runs - 1).text == text
                                    && (IsConnectionError(outcomes(runs - 1)) ==> runs == 3)
              case FailedToReconnect(cause) =>
                cause != Reconnected && Ends(attempts(runs - 1), cause) && runs < 3
                && IsConnectionError(outcomes(runs - 1))
              case FailedAfterRetries => false
    {
      runs, dials, waited, slept := 0, 0, 0, 0;
      for attempt := 1 to MAX_RETRIES + 1
        invariant runs == attempt - 1 && dials <= 10 * (attempt - 1) && waited <= 181 * (attempt - 1)
        invariant slept == 50 * attempt * (attempt - 1)
        invariant attempt <= MAX_RETRIES
        invariant forall k :: 0 <= k < runs ==> IsConnectionError(outcomes(k)) && Ends(attempts(k), Reconnected)
      {
        var outcome := outcomes(runs);
        runs := runs + 1;
        if outcome.OpFails? {
          if ShouldReturn(outcome, attempt) {
            return OpError(outcome.text), runs, dials, waited, slept;
          }
          var reconnected, newDials, newWait := Reconnect(attempts(runs - 1));
          dials, waited := dials + newDials, waited + newWait;
          if reconnected != Reconnected {
            return FailedToReconnect(reconnected), runs, dials, waited, slept;
          }
          slept := slept + 100 * attempt;
          continue;
        }
        return Ok, runs, dials, waited, slept;
      }
      return FailedAfterRetries, runs, dials, waited, slept;
    }
  }
}
