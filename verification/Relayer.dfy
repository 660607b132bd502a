/** The relayer loop of `shared/events/worker`, and how fast it drains its table. */
module Relayer {
  import opened Events
  import opened Outboxes

  /** What happens to one fetched event. */
  datatype Outcome = PublishFails | MarkFails | Relayed

  /** One tick of the poller: whether the fetch query succeeds, and what happens to the k-th fetched event. */
  datatype Tick = Tick(fetched: bool, answer: nat -> Outcome)

  function StepsOf<M>(outcome: Outcome): seq<Step<M>> {
    match outcome
    case PublishFails => [Relay(Publish(false))]
    case MarkFails => [Relay(Publish(true)), Relay(Mark(false))]
    case Relayed => [Relay(Publish(true)), Relay(Mark(true))]
  }

  function PassSteps<M>(n: nat, answer: nat -> Outcome): seq<Step<M>> {
    if n == 0 then [] else PassSteps(n - 1, answer) + StepsOf(answer(n - 1))
  }

  function Fetched<M>(o: Outbox<M>, limit: nat): seq<Event<M>> {
    FirstOf(UnpublishedEvents(o.rows), limit)
  }

  /** A whole pass: fetch a batch, then the relayer's steps for each of its events. */
  function Pass<M>(o: Outbox<M>, limit: nat, answer: nat -> Outcome): Outbox<M> {
    Partial(o, limit, |Fetched(o, limit)|, answer)
  }

  function Poll<M>(o: Outbox<M>, limit: nat, ticks: seq<Tick>): Outbox<M> {
    if ticks == [] then o else
      var n := |ticks| - 1;
      var o1 := Poll(o, limit, ticks[..n]);
      if ticks[n].fetched then Pass(o1, limit, ticks[n].answer) else o1
  }

  /** Polling goes on after every tick: a failed fetch is skipped, and what follows starts from where it was. */
  lemma {:induction false} PollGoesOn<M>(o: Outbox<M>, limit: nat, a: seq<Tick>, b: seq<Tick>)
    ensures Poll(o, limit, a + b) == Poll(Poll(o, limit, a), limit, b)
    ensures |b| == 1 ==> Poll(o, limit, b) == if b[0].fetched then Pass(o, limit, b[0].answer) else o
  {
    hide Pass;
    if b == [] {
      assert a + b == a;
    } else {
      var n := |b| - 1;
      PollGoesOn(o, limit, a, b[..n]);
      assert (a + b)[..|a + b| - 1] == a + b[..n];
    }
  }

  predicate Idle<M>(o: Outbox<M>) {
    o.batch == [] && o.unmarked.None?
  }

  function AfterEvent<M>(o: Outbox<M>, outcome: Outcome): Outbox<M>
    requires o.batch != [] && o.batch[0].id < |o.rows|
  {
    var e := o.batch[0];
    var tried := o.(batch := o.batch[1..]);
    match outcome
    case PublishFails => tried
    case MarkFails => tried.(log := o.log + [e], failedMarks := o.failedMarks + multiset{e.id})
    case Relayed => tried.(log := o.log + [e], marks := o.marks + multiset{e.id},
                           rows := o.rows[e.id := o.rows[e.id].(status := Published)])
  }

  lemma {:induction false} EventSteps<M>(o: Outbox<M>, outcome: Outcome)
    requires o.batch != [] && o.unmarked.None? && o.batch[0].id < |o.rows|
    ensures Run(o, StepsOf(outcome)) == AfterEvent(o, outcome)
  {
    var steps: seq<Step<M>> := StepsOf(outcome);
    assert steps[..0] == [];
    var o1 := Next(o, steps[0]);
    assert Run(o, steps[..1]) == o1;
    if |steps| == 2 {
      assert Run(o, steps) == Next(o1, steps[1]);
    } else {
      assert steps[..1] == steps;
    }
  }

  lemma {:induction false} PassStep<M>(o: Outbox<M>, n: nat, answer: nat -> Outcome)
    ensures Run(o, PassSteps(n + 1, answer)) == Run(Run(o, PassSteps(n, answer)), StepsOf(answer(n)))
  {
    RunConcat(o, PassSteps(n, answer), StepsOf(answer(n)));
  }

  /** The state after the first n events of a pass. */
  function Partial<M>(o: Outbox<M>, limit: nat, n: nat, answer: nat -> Outcome): Outbox<M> {
    Run(RelayNext(o, Fetch(limit)), PassSteps(n, answer))
  }

  lemma {:induction false} PassKeepsValid<M>(o: Outbox<M>, limit: nat, answer: nat -> Outcome)
    requires Valid(o)
    ensures Valid(Pass(o, limit, answer))
  {
    NextKeepsValid(o, Relay(Fetch(limit)));
    RunKeepsValid(RelayNext(o, Fetch(limit)), PassSteps(|Fetched(o, limit)|, answer));
  }

  lemma {:induction false} PassStarts<M>(o: Outbox<M>, limit: nat, answer: nat -> Outcome)
    requires Idle(o)
    ensures Partial(o, limit, 0, answer) == o.(batch := Fetched(o, limit))
  {
  }

  /** One more event of a pass. */
  lemma {:induction false} PassAdvances<M>(o: Outbox<M>, limit: nat, i: nat, answer: nat -> Outcome)
    requires var o1 := Partial(o, limit, i, answer);
             o1.batch != [] && o1.unmarked.None? && o1.batch[0].id < |o1.rows|
    ensures Partial(o, limit, i + 1, answer) == AfterEvent(Partial(o, limit, i, answer), answer(i))
  {
    EventSteps(Partial(o, limit, i, answer), answer(i));
    PassStep(RelayNext(o, Fetch(limit)), i, answer);
  }

  lemma {:induction false} FetchedInRange<M>(o: Outbox<M>, limit: nat, i: nat)
    requires i < |Fetched(o, limit)|
    ensures Fetched(o, limit)[i].id < |o.rows|
  {
    UnpublishedExact(o.rows);
    assert Unsent(UnpublishedEvents(o.rows)[i], o.rows);
  }

  /** The worker.  `rows` is its outbox table, `log` what the broker has accepted from it. */
  class OutboxEventMessageRelayer<M> {
    var rows: seq<Row<M>>
    var log: seq<Event<M>>
    const batchSize: nat
    ghost var failedMarks: multiset<nat>
    ghost var marks: multiset<nat>
    ghost var cancels: set<nat>

    ghost function View(batch: seq<Event<M>>): Outbox<M>
      reads this
    {
      Outbox(rows, batch, None, log, failedMarks, marks, cancels)
    }

    ghost predicate Valid()
      reads this
    {
      Outboxes.Valid(View([]))
    }

    constructor (batchSize: nat)
      ensures Valid() && View([]) == Empty() && this.batchSize == batchSize
    {
      this.batchSize := batchSize;
      rows, log, failedMarks, marks, cancels := [], [], multiset{}, multiset{}, {};
    }

    method ProcessEvents(fetched: bool, answer: nat -> Outcome) returns (ok: bool)
      requires Valid()
      modifies this
      ensures Valid() && ok == fetched
      ensures View([]) == if fetched then Pass(old(View([])), batchSize, answer) else old(View([]))
    {
      if !fetched {
        return false;
      }
      ghost var before := View([]);
      var events := FirstOf(UnpublishedEvents(rows), batchSize);
      var i := 0;
      assert events == Fetched(before, batchSize) && events[0..] == events;
      PassStarts(before, batchSize, answer);
      hide Partial, Outboxes.Valid, Fetched, FirstOf, UnpublishedEvents;
      while i < |events|
        invariant 0 <= i <= |events| && |rows| == |before.rows|
        invariant View(events[i..]) == Partial(before, batchSize, i, answer)
      {
        FetchedInRange(before, batchSize, i);
        PassAdvances(before, batchSize, i, answer);
        Handle(events[i], answer(i), events[i..]);
        assert events[i..][1..] == events[i + 1..];
        i := i + 1;
      }
      assert events[i..] == [];
      PassKeepsValid(before, batchSize, answer);
      return true;
    }

    /** The body of the loop: publish, then update the status; each failure goes on to the next event. */
    method Handle(event: Event<M>, outcome: Outcome, ghost batch: seq<Event<M>>)
      requires event.id < |rows| && batch != [] && batch[0] == event
      modifies this
      ensures View(batch[1..]) == AfterEvent(old(View(batch)), outcome)
    {
      if outcome.PublishFails? {
        return;
      }
      log := log + [event];
      if outcome.MarkFails? {
        failedMarks := failedMarks + multiset{event.id};
        return;
      }
      rows := rows[event.id := rows[event.id].(status := Published)];
      marks := marks + multiset{event.id};
    }

    /** The poll loop, up to the tick at which the context is done. */
    method Start(ticks: seq<Tick>)
      requires Valid()
      modifies this
      ensures Valid() && View([]) == Poll(old(View([])), batchSize, ticks)
    {
      var i := 0;
      while i < |ticks|
        invariant 0 <= i <= |ticks| && Valid()
        invariant View([]) == Poll(old(View([])), batchSize, ticks[..i])
      {
        assert ticks[..i + 1][..i] == ticks[..i];
        var _ := ProcessEvents(ticks[i].fetched, ticks[i].answer);
        i := i + 1;
      }
      assert ticks[..i] == ticks;
    }
  }

  // ---------------------------------------------------------------- drain

  function Answers<M>(events: seq<Event<M>>, verdict: nat -> Outcome): nat -> Outcome {
    (k: nat) => if k < |events| then verdict(events[k].id) else PublishFails
  }

  /** A pass in which the fate of an event depends on its row. */
  function PassBy<M>(o: Outbox<M>, limit: nat, verdict: nat -> Outcome): Outbox<M> {
    Pass(o, limit, Answers(Fetched(o, limit), verdict))
  }

  function Passes<M>(o: Outbox<M>, limit: nat, verdicts: seq<nat -> Outcome>): Outbox<M>
    decreases |verdicts|
  {
    if verdicts == [] then o else Passes(PassBy(o, limit, verdicts[0]), limit, verdicts[1..])
  }

  lemma {:induction false} NoPasses<M>(o: Outbox<M>, limit: nat)
    ensures Passes(o, limit, []) == o
  {
  }

  lemma {:induction false} PassesStep<M>(o: Outbox<M>, limit: nat, verdicts: seq<nat -> Outcome>)
    requires verdicts != []
    ensures Passes(o, limit, verdicts) == Passes(PassBy(o, limit, verdicts[0]), limit, verdicts[1..])
  {
  }

  ghost function IdSet<M>(events: seq<Event<M>>): set<nat> {
    set k | 0 <= k < |events| :: events[k].id
  }

  function UnsentSet<M>(o: Outbox<M>): set<nat> {
    set id | 0 <= id < |o.rows| && o.rows[id].status == Unpublished
  }

  ghost predicate AllRelayed(verdict: nat -> Outcome) {
    forall id: nat :: verdict(id).Relayed?
  }

  /** The pass fails on the rows in `poison` and relays all the others. */
  ghost predicate FailsOn(verdict: nat -> Outcome, poison: set<nat>) {
    forall id: nat :: verdict(id).Relayed? <==> id !in poison
  }

  ghost predicate Listed<M>(events: seq<Event<M>>, j: nat, id: nat) {
    exists k :: 0 <= k < j && k < |events| && events[k].id == id
  }

  /** After the first j events of a pass: exactly their relayed rows are marked. */
  ghost predicate MarkedUpTo<M>(o: Outbox<M>, o': Outbox<M>, events: seq<Event<M>>, j: nat, verdict: nat -> Outcome) {
    && |o'.rows| == |o.rows|
    && forall id :: 0 <= id < |o.rows| ==>
         o'.rows[id] == if Listed(events, j, id) && verdict(id).Relayed?
                        then o.rows[id].(status := Published) else o.rows[id]
  }

  lemma {:induction false} ListedNext<M>(events: seq<Event<M>>, j: nat, id: nat)
    requires j < |events|
    ensures Listed(events, j + 1, id) <==> Listed(events, j, id) || events[j].id == id
  {
    if events[j].id == id {
      assert Listed(events, j + 1, id);
    }
    if k :| 0 <= k < j + 1 && events[k].id == id {
      if k < j {
        assert Listed(events, j, id);
      }
    }
    if Listed(events, j, id) {
      var k :| 0 <= k < j && k < |events| && events[k].id == id;
      assert Listed(events, j + 1, id);
    }
  }

  lemma {:induction false} MarkedNext<M>(o: Outbox<M>, o1: Outbox<M>, events: seq<Event<M>>, j: nat,
        verdict: nat -> Outcome)
    requires j < |events| && events[j].id < |o.rows| && MarkedUpTo(o, o1, events, j, verdict)
    requires o1.batch != [] && o1.batch[0] == events[j]
    ensures MarkedUpTo(o, AfterEvent(o1, verdict(events[j].id)), events, j + 1, verdict)
  {
    forall id | 0 <= id < |o.rows|
      ensures Listed(events, j + 1, id) <==> Listed(events, j, id) || events[j].id == id
    {
      ListedNext(events, j, id);
    }
  }

  lemma {:induction false} PassPrefix<M>(o: Outbox<M>, limit: nat, verdict: nat -> Outcome, j: nat)
    requires Idle(o) && j <= |Fetched(o, limit)|
    ensures var events := Fetched(o, limit);
            var o' := Partial(o, limit, j, Answers(events, verdict));
            && o'.batch == events[j..] && o'.unmarked.None?
            && MarkedUpTo(o, o', events, j, verdict)
            && (AllRelayed(verdict) ==> o'.log == o.log + events[..j])
  {
    hide Partial, Fetched, MarkedUpTo, AllRelayed;
    var events := Fetched(o, limit);
    var answer := Answers(events, verdict);
    if j == 0 {
      PassStarts(o, limit, answer);
      MarkedNone(o, Partial(o, limit, 0, answer), events, verdict);
    } else {
      var o1 := Partial(o, limit, j - 1, answer);
      PassPrefix(o, limit, verdict, j - 1);
      assert o1.batch[0] == events[j - 1] && o1.batch[1..] == events[j..];
      assert events[..j] == events[..j - 1] + [events[j - 1]];
      FetchedInRange(o, limit, j - 1);
      MarkedLength(o, o1, events, j - 1, verdict);
      PassAdvances(o, limit, j - 1, answer);
      MarkedNext(o, o1, events, j - 1, verdict);
      if AllRelayed(verdict) {
        RelayedAt(verdict, events[j - 1].id);
      }
    }
  }

  lemma {:induction false} MarkedNone<M>(o: Outbox<M>, o': Outbox<M>, events: seq<Event<M>>, verdict: nat -> Outcome)
    requires o'.rows == o.rows
    ensures MarkedUpTo(o, o', events, 0, verdict)
  {
  }

  lemma {:induction false} MarkedLength<M>(o: Outbox<M>, o': Outbox<M>, events: seq<Event<M>>, j: nat,
        verdict: nat -> Outcome)
    requires MarkedUpTo(o, o', events, j, verdict)
    ensures |o'.rows| == |o.rows|
  {
  }

  lemma {:induction false} RelayedAt(verdict: nat -> Outcome, id: nat)
    requires AllRelayed(verdict)
    ensures verdict(id).Relayed?
  {
  }

  /** A pass marks exactly the relayed rows of its batch. */
  lemma {:induction false} PassEffect<M>(o: Outbox<M>, limit: nat, verdict: nat -> Outcome)
    requires Idle(o)
    ensures var o' := PassBy(o, limit, verdict);
            var events := Fetched(o, limit);
            && Idle(o')
            && MarkedUpTo(o, o', events, |events|, verdict)
            && (AllRelayed(verdict) ==> o'.log == o.log + events)
  {
    var events := Fetched(o, limit);
    PassPrefix(o, limit, verdict, |events|);
    assert events[..|events|] == events;
  }

  lemma {:induction false} IdCount<M>(events: seq<Event<M>>)
    requires OldestFirst(events)
    ensures |IdSet(events)| == |events|
  {
    if events != [] {
      var n := |events| - 1;
      IdCount(events[..n]);
      assert IdSet(events) == IdSet(events[..n]) + {events[n].id} by {
        forall id | id in IdSet(events) ensures id in IdSet(events[..n]) + {events[n].id} {
          var k :| 0 <= k < |events| && events[k].id == id;
          if k < n {
            assert events[..n][k].id == id;
          }
        }
      }
      assert events[n].id !in IdSet(events[..n]);
    }
  }

  lemma {:induction false} SubsetCount(a: set<nat>, b: set<nat>)
    requires a <= b
    ensures |a| <= |b| && |b - a| == |b| - |a|
  {
    assert b == a + (b - a);
  }

  lemma {:induction false} AllUnsent<M>(o: Outbox<M>)
    ensures OldestFirst(UnpublishedEvents(o.rows)) && IdSet(UnpublishedEvents(o.rows)) == UnsentSet(o)
  {
    hide UnpublishedEvents;
    var u := UnpublishedEvents(o.rows);
    UnpublishedExact(o.rows);
    forall id | id in UnsentSet(o) ensures id in IdSet(u) {
      var e := Event(id, o.rows[id].body);
      assert Unsent(e, o.rows);
      var k :| 0 <= k < |u| && u[k] == e;
      assert u[k].id == id;
    }
    forall k | 0 <= k < |u| ensures u[k].id in UnsentSet(o) {
      assert Unsent(u[k], o.rows);
    }
  }

  lemma {:induction false} FrontIds<M>(u: seq<Event<M>>, limit: nat)
    requires OldestFirst(u)
    ensures OldestFirst(FirstOf(u, limit)) && IdSet(FirstOf(u, limit)) <= IdSet(u)
    ensures |IdSet(u)| == |u| && |IdSet(FirstOf(u, limit))| == |FirstOf(u, limit)|
  {
    IdCount(u);
    IdCount(FirstOf(u, limit));
    forall id | id in IdSet(FirstOf(u, limit)) ensures id in IdSet(u) {
      var k :| 0 <= k < |FirstOf(u, limit)| && FirstOf(u, limit)[k].id == id;
      assert u[k].id == id;
    }
  }

  lemma {:induction false} FetchedUnsent<M>(o: Outbox<M>, limit: nat)
    ensures IdSet(Fetched(o, limit)) <= UnsentSet(o)
    ensures |IdSet(Fetched(o, limit))| == limit || IdSet(Fetched(o, limit)) == UnsentSet(o)
  {
    hide UnpublishedEvents, IdSet;
    AllUnsent(o);
    FrontIds(UnpublishedEvents(o.rows), limit);
  }

  lemma {:induction false} UnsentAfterPass<M>(o: Outbox<M>, limit: nat, verdict: nat -> Outcome, poison: set<nat>)
    requires Idle(o) && FailsOn(verdict, poison)
    ensures UnsentSet(PassBy(o, limit, verdict)) == UnsentSet(o) - (IdSet(Fetched(o, limit)) - poison)
  {
    var o' := PassBy(o, limit, verdict);
    var events := Fetched(o, limit);
    PassEffect(o, limit, verdict);
    forall id: nat ensures Listed(events, |events|, id) <==> id in IdSet(events) {
    }
  }

  /** One pass over f unpublished poison rows gets rid of at least `limit - f` of the others, or of all. */
  lemma {:induction false} DrainPass<M>(o: Outbox<M>, limit: nat, verdict: nat -> Outcome, poison: set<nat>)
    requires Idle(o) && FailsOn(verdict, poison)
    requires |UnsentSet(o) * poison| < limit
    ensures var o' := PassBy(o, limit, verdict);
            && UnsentSet(o') * poison == UnsentSet(o) * poison
            && (UnsentSet(o') - poison == {}
                || |UnsentSet(o') - poison| <= |UnsentSet(o) - poison| - (limit - |UnsentSet(o) * poison|))
  {
    UnsentAfterPass(o, limit, verdict, poison);
    FetchedUnsent(o, limit);
    SetDrain(UnsentSet(o), IdSet(Fetched(o, limit)), poison, limit);
  }

  lemma {:induction false} SetDrain(unsent: set<nat>, ids: set<nat>, poison: set<nat>, limit: nat)
    requires ids <= unsent && (|ids| == limit || ids == unsent)
    ensures (unsent - (ids - poison)) * poison == unsent * poison
    ensures var left := (unsent - (ids - poison)) - poison;
            left == {} || |left| <= |unsent - poison| - (limit - |unsent * poison|)
  {
    var left := (unsent - (ids - poison)) - poison;
    if ids == unsent {
      assert left == {};
    } else {
      SubsetCount(ids * poison, unsent * poison);
      DifferenceCount(ids, poison);
      assert left == (unsent - poison) - (ids - poison);
      assert ids - poison <= unsent - poison;
      SubsetCount(ids - poison, unsent - poison);
    }
  }

  lemma {:induction false} DifferenceCount(a: set<nat>, b: set<nat>)
    ensures |a - b| == |a| - |a * b|
  {
    assert a - b == a - a * b;
    SubsetCount(a * b, a);
  }

  /** `passes` rounds that each take away d bring h down to zero. */
  ghost predicate Enough(passes: nat, d: nat, h: nat) {
    h == 0 || (passes > 0 && Enough(passes - 1, d, if h <= d then 0 else h - d))
  }

  lemma {:induction false} EnoughForFewer(passes: nat, d: nat, h: nat, h': nat)
    requires Enough(passes, d, h) && h' <= h
    ensures Enough(passes, d, h')
    decreases passes
  {
    if h' > 0 {
      EnoughForFewer(passes - 1, d, if h <= d then 0 else h - d, if h' <= d then 0 else h' - d);
    }
  }

  lemma {:induction false} ProductEnough(passes: nat, d: nat, h: nat)
    requires d > 0 && passes * d >= h
    ensures Enough(passes, d, h)
    decreases passes
  {
    if h > 0 {
      assert passes > 0;
      assert passes * d == (passes - 1) * d + d;
      ProductEnough(passes - 1, d, if h <= d then 0 else h - d);
    }
  }

  lemma {:induction false} CeilingEnough(passes: nat, d: nat, h: nat)
    requires d > 0 && passes >= (h + d - 1) / d
    ensures Enough(passes, d, h)
  {
    var q := (h + d - 1) / d;
    assert q * d + (h + d - 1) % d == h + d - 1;
    assert passes * d == q * d + (passes - q) * d;
    ProductEnough(passes, d, h);
  }

  /** One pass of a drain: still idle, the same failing rows, and enough passes left for the others. */
  lemma {:induction false} DrainStep<M>(o: Outbox<M>, limit: nat, verdict: nat -> Outcome, poison: set<nat>,
        passes: nat)
    requires Idle(o) && FailsOn(verdict, poison) && |UnsentSet(o) * poison| < limit && passes > 0
    requires Enough(passes, limit - |UnsentSet(o) * poison|, |UnsentSet(o) - poison|)
    ensures var o' := PassBy(o, limit, verdict);
            && Idle(o') && UnsentSet(o') * poison == UnsentSet(o) * poison
            && Enough(passes - 1, limit - |UnsentSet(o) * poison|, |UnsentSet(o') - poison|)
  {
    hide UnsentSet, FailsOn, PassBy;
    var o' := PassBy(o, limit, verdict);
    var d, h, h' := limit - |UnsentSet(o) * poison|, |UnsentSet(o) - poison|, |UnsentSet(o') - poison|;
    PassIsIdle(o, limit, verdict);
    DrainPass(o, limit, verdict, poison);
    if UnsentSet(o') - poison != {} {
      EnoughForFewer(passes - 1, d, if h <= d then 0 else h - d, h');
    }
  }

  lemma {:induction false} PassIsIdle<M>(o: Outbox<M>, limit: nat, verdict: nat -> Outcome)
    requires Idle(o)
    ensures Idle(PassBy(o, limit, verdict))
  {
    hide PassBy, MarkedUpTo, Fetched;
    PassEffect(o, limit, verdict);
  }

  lemma {:induction false} DrainPasses<M>(o: Outbox<M>, limit: nat, verdicts: seq<nat -> Outcome>, poison: set<nat>)
    requires Idle(o)
    requires forall k :: 0 <= k < |verdicts| ==> FailsOn(verdicts[k], poison)
    requires |UnsentSet(o) * poison| < limit
    requires Enough(|verdicts|, limit - |UnsentSet(o) * poison|, |UnsentSet(o) - poison|)
    ensures UnsentSet(Passes(o, limit, verdicts)) - poison == {}
    ensures UnsentSet(Passes(o, limit, verdicts)) * poison == UnsentSet(o) * poison
    decreases |verdicts|
  {
    hide PassBy, UnsentSet, FailsOn, Passes;
    if verdicts == [] {
      NoPasses(o, limit);
    } else {
      DrainStep(o, limit, verdicts[0], poison, |verdicts|);
      DrainPasses(PassBy(o, limit, verdicts[0]), limit, verdicts[1..], poison);
      PassesStep(o, limit, verdicts);
    }
  }

  /** A pass changes nothing of a row but its status, and that only to PUBLISHED. */
  ghost predicate OnlyPublishes<M>(o: Outbox<M>, o': Outbox<M>) {
    && |o'.rows| == |o.rows|
    && forall id :: 0 <= id < |o.rows| ==> o'.rows[id] == o.rows[id] || o'.rows[id] == o.rows[id].(status := Published)
  }

  lemma {:induction false} PassOnlyPublishes<M>(o: Outbox<M>, limit: nat, verdict: nat -> Outcome)
    requires Idle(o)
    ensures Idle(PassBy(o, limit, verdict)) && OnlyPublishes(o, PassBy(o, limit, verdict))
  {
    hide PassBy, Fetched, Listed;
    PassEffect(o, limit, verdict);
  }

  lemma {:induction false} PassesOnlyPublish<M>(o: Outbox<M>, limit: nat, verdicts: seq<nat -> Outcome>)
    requires Idle(o)
    ensures OnlyPublishes(o, Passes(o, limit, verdicts))
    decreases |verdicts|
  {
    hide PassBy;
    if verdicts != [] {
      var o' := PassBy(o, limit, verdicts[0]);
      PassOnlyPublishes(o, limit, verdicts[0]);
      PassesOnlyPublish(o', limit, verdicts[1..]);
      PassesStep(o, limit, verdicts);
    }
  }

  lemma {:induction false} SameRows<M>(o: Outbox<M>, o': Outbox<M>)
    requires OnlyPublishes(o, o')
    ensures |o'.rows| == |o.rows| && forall id :: id in UnsentSet(o) ==> id < |o.rows|
  {
  }

  lemma {:induction false} LeftIsPublished<M>(o: Outbox<M>, o': Outbox<M>, id: nat)
    requires OnlyPublishes(o, o') && id in UnsentSet(o) && id !in UnsentSet(o')
    ensures o'.rows[id] == o.rows[id].(status := Published)
  {
  }

  /** With batch size b and f < b rows that always fail, all h other unpublished rows are PUBLISHED
      after any ceil(h / (b - f)) passes, and only the failing ones are left. */
  lemma {:induction false} DrainBound<M>(o: Outbox<M>, limit: nat, verdicts: seq<nat -> Outcome>, poison: set<nat>)
    requires Idle(o)
    requires forall k :: 0 <= k < |verdicts| ==> FailsOn(verdicts[k], poison)
    requires |UnsentSet(o) * poison| < limit
    requires var d := limit - |UnsentSet(o) * poison|; |verdicts| >= (|UnsentSet(o) - poison| + d - 1) / d
    ensures var o' := Passes(o, limit, verdicts);
            && UnsentSet(o') == UnsentSet(o) * poison && |o'.rows| == |o.rows|
            && forall id :: id in UnsentSet(o) - poison ==> o'.rows[id] == o.rows[id].(status := Published)
  {
    hide Passes, OnlyPublishes, UnsentSet;
    CeilingEnough(|verdicts|, limit - |UnsentSet(o) * poison|, |UnsentSet(o) - poison|);
    DrainPasses(o, limit, verdicts, poison);
    var left := UnsentSet(Passes(o, limit, verdicts));
    assert left == (left - poison) + (left * poison);
    PassesOnlyPublish(o, limit, verdicts);
    SameRows(o, Passes(o, limit, verdicts));
    forall id | id in UnsentSet(o) - poison
      ensures Passes(o, limit, verdicts).rows[id] == o.rows[id].(status := Published)
    {
      LeftIsPublished(o, Passes(o, limit, verdicts), id);
    }
  }

  lemma {:induction false} SameOldestFirst<M>(a: seq<Event<M>>, b: seq<Event<M>>)
    requires OldestFirst(a) && OldestFirst(b)
    requires forall e :: e in a <==> e in b
    ensures a == b
  {
    if |a| > 0 || |b| > 0 {
      assert a != [] ==> a[0] in b;
      assert b != [] ==> b[0] in a;
      assert a[0] == b[0];
      forall e ensures e in a[1..] <==> e in b[1..] {
        if e in a[1..] {
          assert e in a && e.id != a[0].id;
        }
        if e in b[1..] {
          assert e in b && e.id != b[0].id;
        }
      }
      SameOldestFirst(a[1..], b[1..]);
    }
  }

  lemma {:induction false} NotListedBehind<M>(u: seq<Event<M>>, n: nat, k: nat)
    requires OldestFirst(u) && n <= k < |u|
    ensures !Listed(u[..n], n, u[k].id)
  {
  }

  /** What a clean pass has handled is no longer unpublished. */
  lemma {:induction false} HandledNotUnsent<M>(o: Outbox<M>, o': Outbox<M>, u: seq<Event<M>>, n: nat,
        verdict: nat -> Outcome, j: nat)
    requires j < n <= |u| && AllRelayed(verdict) && MarkedUpTo(o, o', u[..n], n, verdict)
    ensures !Unsent(u[j], o'.rows)
  {
    assert u[..n][j].id == u[j].id;
    assert Listed(u[..n], n, u[j].id);
  }

  lemma {:induction false} UnsentBehind<M>(o: Outbox<M>, o': Outbox<M>, n: nat, verdict: nat -> Outcome, e: Event<M>)
    requires n <= |UnpublishedEvents(o.rows)|
    requires AllRelayed(verdict) && MarkedUpTo(o, o', UnpublishedEvents(o.rows)[..n], n, verdict)
    ensures Unsent(e, o'.rows) <==> e in UnpublishedEvents(o.rows)[n..]
  {
    hide UnpublishedEvents;
    var u := UnpublishedEvents(o.rows);
    UnpublishedExact(o.rows);
    if e in u[n..] {
      var k :| n <= k < |u| && u[k] == e;
      assert Unsent(u[k], o.rows);
      NotListedBehind(u, n, k);
    }
    forall j | 0 <= j < n ensures !Unsent(u[j], o'.rows) {
      HandledNotUnsent(o, o', u, n, verdict, j);
    }
    if Unsent(e, o'.rows) {
      assert Unsent(e, o.rows);
      var k :| 0 <= k < |u| && u[k] == e;
      assert u[n..][k - n] == e;
    }
  }

  /** A pass without failures leaves exactly the rows behind its batch. */
  lemma {:induction false} CleanPass<M>(o: Outbox<M>, limit: nat, verdict: nat -> Outcome)
    requires Idle(o) && AllRelayed(verdict)
    ensures UnpublishedEvents(PassBy(o, limit, verdict).rows)
         == UnpublishedEvents(o.rows)[|Fetched(o, limit)|..]
  {
    var o' := PassBy(o, limit, verdict);
    var u := UnpublishedEvents(o.rows);
    var n := |Fetched(o, limit)|;
    PassEffect(o, limit, verdict);
    assert Fetched(o, limit) == u[..n];
    UnpublishedExact(o.rows);
    UnpublishedExact(o'.rows);
    forall e ensures e in u[n..] <==> e in UnpublishedEvents(o'.rows) {
      UnsentBehind(o, o', n, verdict, e);
      if e in UnpublishedEvents(o'.rows) {
        var k :| 0 <= k < |UnpublishedEvents(o'.rows)| && UnpublishedEvents(o'.rows)[k] == e;
        assert Unsent(UnpublishedEvents(o'.rows)[k], o'.rows);
      }
    }
    SameOldestFirst(u[n..], UnpublishedEvents(o'.rows));
  }

  /** n times k. */
  function Repeat(n: nat, k: nat): nat {
    if n == 0 then 0 else k + Repeat(n - 1, k)
  }

  lemma {:induction false} FirstOfSplit<T>(s: seq<T>, a: nat, b: nat)
    ensures FirstOf(s, a + b) == FirstOf(s, a) + FirstOf(s[|FirstOf(s, a)|..], b)
  {
  }

  lemma {:induction false} AppendTwice<T>(a: seq<T>, b: seq<T>, c: seq<T>)
    ensures a + b + c == a + (b + c)
  {
  }

  /** When nothing fails, what the broker receives is exactly the outbox in created_at order. */
  lemma {:induction false} CleanDrainInOrder<M>(o: Outbox<M>, limit: nat, verdicts: seq<nat -> Outcome>, budget: nat)
    requires Idle(o) && budget == Repeat(|verdicts|, limit)
    requires forall k :: 0 <= k < |verdicts| ==> AllRelayed(verdicts[k])
    ensures Passes(o, limit, verdicts).log == o.log + FirstOf(UnpublishedEvents(o.rows), budget)
    decreases |verdicts|
  {
    hide PassBy, UnpublishedEvents, AllRelayed, MarkedUpTo;
    var u := UnpublishedEvents(o.rows);
    if verdicts == [] {
      assert FirstOf(u, budget) == [];
    } else {
      var verdict, rest := verdicts[0], verdicts[1..];
      var o' := PassBy(o, limit, verdict);
      PassEffect(o, limit, verdict);
      CleanPass(o, limit, verdict);
      CleanDrainInOrder(o', limit, rest, budget - limit);
      PassesStep(o, limit, verdicts);
      FirstOfSplit(u, limit, budget - limit);
      AppendTwice(o.log, FirstOf(u, limit), FirstOf(u[|FirstOf(u, limit)|..], budget - limit));
    }
  }
}
