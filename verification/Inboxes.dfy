/** One queue and the handlers working on its deliveries.  Each delivery runs in its own goroutine, so any
    number of handlers, also of equal messages, are between two of their steps at any time. */
module Inboxes {

  datatype Inbox<M(==)> = Inbox(
    queue: multiset<M>,      // waiting at the broker
    checking: multiset<M>,   // delivered, before the "already processed?" check
    passed: multiset<M>,     // check passed, before the transaction
    settled: multiset<M>)    // transaction committed, before the ack or dead-letter nack

  datatype HandlerStep<M> =
    | Deliver(m: M)
    | Duplicate(m: M)       // the broker redelivers a message whose handler is still at work
    | CheckFails(m: M)      // the check returns an error: nack with requeue
    | Check(m: M)           // ack if already done, go on otherwise
    | TxFails(m: M)         // the transaction returns an error: nack with requeue
    | Commit(m: M)          // the transaction is run to its commit; a violated constraint aborts it
    | Acknowledge(m: M)     // the message leaves the queue
    | AckLost(m: M)         // the connection is lost first: the broker requeues

  function Empty<M>(): Inbox<M> {
    Inbox(multiset{}, multiset{}, multiset{}, multiset{})
  }

  function Arrive<M>(i: Inbox<M>, m: M): Inbox<M> {
    i.(queue := i.queue + multiset{m})
  }

  /** Whether this step runs the handler's transaction. */
  predicate Transacts<M(==)>(i: Inbox<M>, step: HandlerStep<M>) {
    step.Commit? && step.m in i.passed
  }

  /** `done` is what the check finds, `commits` whether the transaction meets its constraints. */
  function Next<M(==)>(i: Inbox<M>, step: HandlerStep<M>, done: bool, commits: bool): Inbox<M> {
    var one := multiset{step.m};
    match step
    case Deliver(m) =>
      if m in i.queue then i.(queue := i.queue - one, checking := i.checking + one) else i
    case Duplicate(m) =>
      if m in i.checking + i.passed + i.settled then i.(queue := i.queue + one) else i
    case CheckFails(m) =>
      if m in i.checking then i.(checking := i.checking - one, queue := i.queue + one) else i
    case Check(m) =>
      if m !in i.checking then i
      else if done then i.(checking := i.checking - one)
      else i.(checking := i.checking - one, passed := i.passed + one)
    case TxFails(m) =>
      if m in i.passed then i.(passed := i.passed - one, queue := i.queue + one) else i
    case Commit(m) =>
      if m !in i.passed then i
      else if commits then i.(passed := i.passed - one, settled := i.settled + one)
      else i.(passed := i.passed - one, queue := i.queue + one)
    case Acknowledge(m) =>
      if m in i.settled then i.(settled := i.settled - one) else i
    case AckLost(m) =>
      if m in i.settled then i.(settled := i.settled - one, queue := i.queue + one) else i
  }

  /** Some copy of `m` still has to be handled. */
  predicate Outstanding<M(==)>(i: Inbox<M>, m: M) {
    m in i.queue || m in i.checking || m in i.passed
  }

  predicate Holds<M(==)>(i: Inbox<M>, m: M) {
    Outstanding(i, m) || m in i.settled
  }

  /** Nothing queued and no handler in flight. */
  predicate Quiet<M(==)>(i: Inbox<M>) {
    i == Empty()
  }

  /** A message stays outstanding until a check finds it done or its transaction commits. */
  lemma {:induction false} OutstandingUntilHandled<M>(i: Inbox<M>, step: HandlerStep<M>, done: bool, commits: bool,
        m: M)
    requires Outstanding(i, m)
    requires step.m == m ==> !(step.Check? && done) && !(step.Commit? && commits)
    ensures Outstanding(Next(i, step, done, commits), m)
  {
  }

  /** Handlers and broker never invent a message. */
  lemma {:induction false} NoInvention<M>(i: Inbox<M>, step: HandlerStep<M>, done: bool, commits: bool, m: M)
    requires Holds(Next(i, step, done, commits), m)
    ensures Holds(i, m)
  {
  }

  lemma {:induction false} ArriveHolds<M>(i: Inbox<M>, n: M, m: M)
    ensures Holds(Arrive(i, n), m) <==> Holds(i, m) || m == n
    ensures Outstanding(Arrive(i, n), m) <==> Outstanding(i, m) || m == n
  {
  }
}
