/** Any consumer can work off whatever is waiting for it and in flight. */
module Draining {
  import opened Events
  import opened Inboxes

  /** A consumer's inbox and database. */
  datatype Consumer<M(==), D> = Consumer(inbox: Inbox<M>, db: D)

  /** What a consumer does with a message: its "already processed?" check, and its transaction, which is
      None when a constraint fails. */
  datatype Logic<!M, !D> = Logic(done: (D, M) -> bool, tx: (D, M) -> Option<D>)

  ghost function StepOf<M, D>(c: Consumer<M, D>, h: HandlerStep<M>, logic: Logic<M, D>): Consumer<M, D> {
    var result := logic.tx(c.db, h.m);
    Consumer(Next(c.inbox, h, logic.done(c.db, h.m), result.Some?),
             if Transacts(c.inbox, h) && result.Some? then result.value else c.db)
  }

  ghost function StepsOf<M, D>(c: Consumer<M, D>, hs: seq<HandlerStep<M>>, logic: Logic<M, D>): Consumer<M, D> {
    if hs == [] then c else StepOf(StepsOf(c, hs[..|hs| - 1], logic), hs[|hs| - 1], logic)
  }

  /** A transaction that fails on its constraints is one the check would have found done. */
  ghost predicate Sound<M(!new), D(!new)>(logic: Logic<M, D>) {
    forall db, m :: logic.tx(db, m).None? ==> logic.done(db, m)
  }

  /** Messages waiting or in flight. */
  ghost function Size<M>(i: Inbox<M>): nat {
    |i.queue| + |i.checking| + |i.passed| + |i.settled|
  }

  lemma {:induction false} StepsConcat<M, D>(c: Consumer<M, D>, a: seq<HandlerStep<M>>, b: seq<HandlerStep<M>>,
        logic: Logic<M, D>)
    ensures StepsOf(c, a + b, logic) == StepsOf(StepsOf(c, a, logic), b, logic)
  {
    hide StepOf;
    if b == [] {
      assert a + b == a;
    } else {
      var n := |b| - 1;
      StepsConcat(c, a, b[..n], logic);
      assert (a + b)[..|a + b| - 1] == a + b[..n];
    }
  }

  lemma {:induction false} OneStep<M, D>(c: Consumer<M, D>, h: HandlerStep<M>, rest: seq<HandlerStep<M>>,
        logic: Logic<M, D>)
    ensures StepsOf(c, [h] + rest, logic) == StepsOf(StepOf(c, h, logic), rest, logic)
    ensures StepsOf(c, [h], logic) == StepOf(c, h, logic)
  {
    hide StepOf;
    assert [h][..0] == [] && StepsOf(c, [h][..0], logic) == c;
    StepsConcat(c, [h], rest, logic);
  }

  ghost predicate Shrinks<M, D>(c: Consumer<M, D>, hs: seq<HandlerStep<M>>, size: nat, logic: Logic<M, D>) {
    Size(StepsOf(c, hs, logic).inbox) < size
  }

  lemma {:induction false} FinishSettled<M, D>(c: Consumer<M, D>, m: M, logic: Logic<M, D>)
    returns (hs: seq<HandlerStep<M>>)
    requires m in c.inbox.settled
    ensures Shrinks(c, hs, Size(c.inbox), logic)
  {
    hs := [Acknowledge(m)];
    OneStep(c, Acknowledge(m), [], logic);
  }

  lemma {:induction false} FinishDone<M, D>(c: Consumer<M, D>, m: M, logic: Logic<M, D>)
    returns (hs: seq<HandlerStep<M>>)
    requires m in c.inbox.checking && logic.done(c.db, m)
    ensures Shrinks(c, hs, Size(c.inbox), logic)
  {
    hs := [Check(m)];
    OneStep(c, Check(m), [], logic);
  }

  lemma {:induction false} FinishPassed<M(!new), D(!new)>(c: Consumer<M, D>, m: M, logic: Logic<M, D>)
    returns (hs: seq<HandlerStep<M>>)
    requires Sound(logic) && m in c.inbox.passed
    ensures Shrinks(c, hs, Size(c.inbox), logic)
  {
    hide StepsOf;
    var c1 := StepOf(c, Commit(m), logic);
    if logic.tx(c.db, m).Some? {
      hs := FinishSettled(c1, m, logic);
      OneStep(c, Commit(m), hs, logic);
      hs := [Commit(m)] + hs;
    } else {
      var c2 := StepOf(c1, Deliver(m), logic);
      hs := FinishDone(c2, m, logic);
      OneStep(c1, Deliver(m), hs, logic);
      hs := [Deliver(m)] + hs;
      OneStep(c, Commit(m), hs, logic);
      hs := [Commit(m)] + hs;
    }
  }

  lemma {:induction false} FinishChecking<M(!new), D(!new)>(c: Consumer<M, D>, m: M, logic: Logic<M, D>)
    returns (hs: seq<HandlerStep<M>>)
    requires Sound(logic) && m in c.inbox.checking
    ensures Shrinks(c, hs, Size(c.inbox), logic)
  {
    hide StepsOf, Sound;
    if logic.done(c.db, m) {
      hs := FinishDone(c, m, logic);
    } else {
      hs := FinishPassed(StepOf(c, Check(m), logic), m, logic);
      OneStep(c, Check(m), hs, logic);
      hs := [Check(m)] + hs;
    }
  }

  lemma {:induction false} FinishOne<M(!new), D(!new)>(c: Consumer<M, D>, logic: Logic<M, D>)
    returns (hs: seq<HandlerStep<M>>)
    requires Sound(logic) && c.inbox != Empty()
    ensures Shrinks(c, hs, Size(c.inbox), logic)
  {
    hide StepsOf, Sound;
    if m :| m in c.inbox.settled {
      hs := FinishSettled(c, m, logic);
    } else if m :| m in c.inbox.passed {
      hs := FinishPassed(c, m, logic);
    } else if m :| m in c.inbox.checking {
      hs := FinishChecking(c, m, logic);
    } else {
      var m :| m in c.inbox.queue;
      hs := FinishChecking(StepOf(c, Deliver(m), logic), m, logic);
      OneStep(c, Deliver(m), hs, logic);
      hs := [Deliver(m)] + hs;
    }
  }

  /** From every state of a sound consumer some handler steps lead to an empty inbox. */
  lemma {:induction false} CanDrain<M(!new), D(!new)>(c: Consumer<M, D>, logic: Logic<M, D>)
    returns (hs: seq<HandlerStep<M>>)
    requires Sound(logic)
    ensures StepsOf(c, hs, logic).inbox == Empty()
    decreases Size(c.inbox)
  {
    hide StepOf, Sound;
    if c.inbox == Empty() {
      hs := [];
    } else {
      var first := FinishOne(c, logic);
      var rest := CanDrain(StepsOf(c, first, logic), logic);
      StepsConcat(c, first, rest, logic);
      hs := first + rest;
    }
  }
}
