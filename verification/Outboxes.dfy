/** A transactional outbox table together with the one relayer that drains it.
    `M` is what a row publishes: its event name and payload.  The last four fields are history. */
module Outboxes {
  import opened Events

  datatype Status = Unpublished | Published | Cancelled

  datatype Row<M> = Row(body: M, status: Status)

  /** A row as the relayer fetched it: primary key and a copy of its content. */
  datatype Event<M> = Event(id: nat, body: M)

  datatype Outbox<M> = Outbox(
    rows: seq<Row<M>>,             // in created_at order
    batch: seq<Event<M>>,          // fetched, not yet tried
    unmarked: Option<Event<M>>,    // published, status not yet updated
    log: seq<Event<M>>,            // every publish the broker accepted, in order
    failedMarks: multiset<nat>,    // publishes whose status update failed
    marks: multiset<nat>,          // publishes whose status update succeeded
    cancels: set<nat>)             // rows ever cancelled

  /** One step of the relayer loop; `ok` is what the broker or the database answered. */
  datatype RelayStep = Fetch(limit: nat) | Publish(ok: bool) | Mark(ok: bool) | Crash

  /** Everything that can happen to the outbox. */
  datatype Step<M> = Insert(body: M) | Cancel(ids: set<nat>) | Relay(step: RelayStep)

  function Empty<M>(): Outbox<M> {
    Outbox([], [], None, [], multiset{}, multiset{}, {})
  }

  /** Rows still to publish, oldest first. */
  function UnpublishedEvents<M>(rows: seq<Row<M>>): seq<Event<M>> {
    if rows == [] then [] else
      var n := |rows| - 1;
      UnpublishedEvents(rows[..n]) + if rows[n].status == Unpublished then [Event(n, rows[n].body)] else []
  }

  function FirstOf<T>(s: seq<T>, limit: nat): seq<T> {
    if limit < |s| then s[..limit] else s
  }

  function InsertRow<M>(o: Outbox<M>, body: M): Outbox<M> {
    o.(rows := o.rows + [Row(body, Unpublished)])
  }

  /** The status update has no guard: it also overwrites PUBLISHED. */
  function CancelRows<M>(o: Outbox<M>, ids: set<nat>): Outbox<M> {
    o.(rows := seq(|o.rows|, i requires 0 <= i < |o.rows| => if i in ids then o.rows[i].(status := Cancelled)
         else o.rows[i]),
       cancels := o.cancels + set i | i in ids && i < |o.rows|)
  }

  /** A step that is not possible in the current state changes nothing. */
  function RelayNext<M>(o: Outbox<M>, step: RelayStep): Outbox<M> {
    match step
    case Fetch(limit) =>
      if o.batch == [] && o.unmarked.None? then
        o.(batch := FirstOf(UnpublishedEvents(o.rows), limit))
      else o
    case Publish(ok) =>
      if o.batch == [] || o.unmarked.Some? then o
      else if ok then
        o.(batch := o.batch[1..], unmarked := Some(o.batch[0]), log := o.log + [o.batch[0]])
      else o.(batch := o.batch[1..])
    case Mark(ok) =>
      if o.unmarked.None? then o
      else
        var id := o.unmarked.value.id;
        if ok && id < |o.rows| then
          o.(unmarked := None, rows := o.rows[id := o.rows[id].(status := Published)],
             marks := o.marks + multiset{id})
        else o.(unmarked := None, failedMarks := o.failedMarks + multiset{id})
    case Crash =>
      o.(batch := [], unmarked := None,
         failedMarks := o.failedMarks + if o.unmarked.Some? then multiset{o.unmarked.value.id} else multiset{})
  }

  function Next<M>(o: Outbox<M>, step: Step<M>): Outbox<M> {
    match step
    case Insert(body) => InsertRow(o, body)
    case Cancel(ids) => CancelRows(o, ids)
    case Relay(r) => RelayNext(o, r)
  }

  function Run<M>(o: Outbox<M>, steps: seq<Step<M>>): Outbox<M> {
    if steps == [] then o else Next(Run(o, steps[..|steps| - 1]), steps[|steps| - 1])
  }

  /** How often row `id` has been published. */
  function Times<M>(log: seq<Event<M>>, id: nat): nat {
    if log == [] then 0 else
      var n := |log| - 1;
      Times(log[..n], id) + if log[n].id == id then 1 else 0
  }

  function Pending<M>(o: Outbox<M>, id: nat): nat {
    if o.unmarked.Some? && o.unmarked.value.id == id then 1 else 0
  }

  // ---------------------------------------------------------------- invariant

  ghost predicate CopyOf<M>(e: Event<M>, rows: seq<Row<M>>) {
    e.id < |rows| && rows[e.id].body == e.body
  }

  /** What the relayer holds are copies of distinct rows, none of them marked so far. */
  ghost predicate FetchedValid<M>(o: Outbox<M>) {
    && (forall k :: 0 <= k < |o.batch| ==> CopyOf(o.batch[k], o.rows) && o.batch[k].id !in o.marks)
    && OldestFirst(o.batch)
    && (o.unmarked.Some? ==>
          && CopyOf(o.unmarked.value, o.rows)
          && o.unmarked.value.id !in o.marks
          && forall k :: 0 <= k < |o.batch| ==> o.unmarked.value.id < o.batch[k].id)
  }

  ghost predicate LogValid<M>(o: Outbox<M>) {
    forall k :: 0 <= k < |o.log| ==> CopyOf(o.log[k], o.rows)
  }

  ghost predicate CountsValid<M>(o: Outbox<M>) {
    forall id: nat :: CountHolds(o, id)
  }

  ghost predicate StatusExplained<M>(o: Outbox<M>, id: nat)
    requires id < |o.rows|
  {
    match o.rows[id].status
    case Unpublished => id !in o.marks && id !in o.cancels
    case Published => id in o.marks
    case Cancelled => id in o.cancels
  }

  ghost predicate StatusValid<M>(o: Outbox<M>) {
    && (forall id :: id in o.marks ==> id < |o.rows|)
    && (forall id :: id in o.cancels ==> id < |o.rows|)
    && forall id :: 0 <= id < |o.rows| ==> StatusExplained(o, id)
  }

  ghost predicate Valid<M>(o: Outbox<M>) {
    FetchedValid(o) && LogValid(o) && CountsValid(o) && StatusValid(o)
  }

  ghost predicate Unsent<M>(e: Event<M>, rows: seq<Row<M>>) {
    CopyOf(e, rows) && rows[e.id].status == Unpublished
  }

  ghost predicate OldestFirst<M>(events: seq<Event<M>>) {
    forall j, k :: 0 <= j < k < |events| ==> events[j].id < events[k].id
  }

  /** Oldest first, exactly the unpublished rows, each once. */
  lemma {:induction false} UnpublishedExact<M>(rows: seq<Row<M>>)
    ensures forall k :: 0 <= k < |UnpublishedEvents(rows)| ==> Unsent(UnpublishedEvents(rows)[k], rows)
    ensures OldestFirst(UnpublishedEvents(rows))
    ensures forall e :: Unsent(e, rows) ==> e in UnpublishedEvents(rows)
  {
    if rows != [] {
      var n := |rows| - 1;
      var v := UnpublishedEvents(rows[..n]);
      UnpublishedExact(rows[..n]);
      forall k | 0 <= k < |v| ensures Unsent(v[k], rows) && v[k].id < n {
        assert Unsent(v[k], rows[..n]);
      }
      forall e | Unsent(e, rows) ensures e in UnpublishedEvents(rows) {
        if e.id < n {
          assert Unsent(e, rows[..n]);
        }
      }
    }
  }

  lemma {:induction false} FetchKeepsFetched<M>(o: Outbox<M>, limit: nat)
    requires Valid(o)
    ensures FetchedValid(RelayNext(o, Fetch(limit)))
  {
    UnpublishedExact(o.rows);
    var u := UnpublishedEvents(o.rows);
    forall k | 0 <= k < |u| ensures u[k].id !in o.marks {
      assert Unsent(u[k], o.rows);
      assert StatusExplained(o, u[k].id);
    }
  }

  lemma {:induction false} RowsKeepFetched<M>(o: Outbox<M>, step: Step<M>)
    requires Valid(o) && (step.Insert? || step.Cancel?)
    ensures FetchedValid(Next(o, step))
  {
    var o' := Next(o, step);
    forall k | 0 <= k < |o.batch| ensures CopyOf(o.batch[k], o'.rows) {
      assert CopyOf(o.batch[k], o.rows);
    }
  }

  lemma {:induction false} RelayKeepsFetched<M>(o: Outbox<M>, step: RelayStep)
    requires Valid(o) && !step.Fetch?
    ensures FetchedValid(RelayNext(o, step))
  {
    var o' := RelayNext(o, step);
    if o.unmarked.Some? && step == Mark(true) {
      forall k | 0 <= k < |o.batch| ensures CopyOf(o.batch[k], o'.rows) && o.batch[k].id !in o'.marks {
        assert CopyOf(o.batch[k], o.rows);
      }
    } else if o'.batch != o.batch {
      forall k | 0 <= k < |o'.batch| ensures CopyOf(o'.batch[k], o'.rows) && o'.batch[k].id !in o'.marks {
        assert o'.batch[k] == o.batch[k + 1];
        assert CopyOf(o.batch[k + 1], o.rows);
      }
      forall j, k | 0 <= j < k < |o'.batch| ensures o'.batch[j].id < o'.batch[k].id {
        assert o.batch[j + 1].id < o.batch[k + 1].id;
      }
      if o'.unmarked.Some? {
        assert CopyOf(o.batch[0], o.rows);
      }
    }
  }

  lemma {:induction false} NextKeepsLog<M>(o: Outbox<M>, step: Step<M>)
    requires Valid(o)
    ensures LogValid(Next(o, step))
  {
    var o' := Next(o, step);
    forall k | 0 <= k < |o'.log| ensures CopyOf(o'.log[k], o'.rows) {
      if k < |o.log| {
        assert CopyOf(o.log[k], o.rows);
      } else {
        assert CopyOf(o.batch[0], o.rows);
      }
    }
  }

  ghost predicate CountHolds<M>(o: Outbox<M>, id: nat) {
    Times(o.log, id) == o.failedMarks[id] + o.marks[id] + Pending(o, id) && o.marks[id] <= 1
  }

  /** What the relayer does to the log: nothing, or it appends the event at the front of the batch. */
  lemma {:induction false} RelayLog<M>(o: Outbox<M>, step: RelayStep)
    ensures var o' := RelayNext(o, step);
            o'.log == o.log || (o.batch != [] && o'.log == o.log + [o.batch[0]])
  {
  }

  lemma {:induction false} TimesAppended<M>(log: seq<Event<M>>, e: Event<M>, id: nat)
    ensures Times(log + [e], id) == Times(log, id) + if e.id == id then 1 else 0
  {
    assert (log + [e])[..|log|] == log;
  }

  lemma {:induction false} RelayKeepsCount<M>(o: Outbox<M>, step: RelayStep, id: nat)
    requires CountHolds(o, id)
    requires o.unmarked.Some? ==> o.unmarked.value.id < |o.rows| && o.marks[o.unmarked.value.id] == 0
    ensures CountHolds(RelayNext(o, step), id)
  {
    hide Times;
    if step == Publish(true) && o.batch != [] {
      TimesAppended(o.log, o.batch[0], id);
    }
  }

  lemma {:induction false} NextKeepsCounts<M>(o: Outbox<M>, step: Step<M>)
    requires Valid(o)
    ensures CountsValid(Next(o, step))
  {
    hide Times, RelayNext;
    forall id: nat ensures CountHolds(Next(o, step), id) {
      assert CountHolds(o, id);
      if step.Relay? {
        assert o.unmarked.Some? ==> CopyOf(o.unmarked.value, o.rows);
        RelayKeepsCount(o, step.step, id);
      }
    }
  }

  lemma {:induction false} RelayKeepsStatus<M>(o: Outbox<M>, step: RelayStep)
    requires StatusValid(o)
    ensures StatusValid(RelayNext(o, step))
  {
    var o' := RelayNext(o, step);
    forall id | 0 <= id < |o'.rows| ensures StatusExplained(o', id) {
      assert StatusExplained(o, id);
    }
  }

  lemma {:induction false} RowsKeepStatus<M>(o: Outbox<M>, step: Step<M>)
    requires StatusValid(o) && !step.Relay?
    ensures StatusValid(Next(o, step))
  {
    var o' := Next(o, step);
    forall id | 0 <= id < |o'.rows| ensures StatusExplained(o', id) {
      if id < |o.rows| {
        assert StatusExplained(o, id);
      }
    }
  }

  /** The invariant of the outbox survives every step, whatever the broker and the database answer. */
  lemma {:induction false} NextKeepsValid<M>(o: Outbox<M>, step: Step<M>)
    requires Valid(o)
    ensures Valid(Next(o, step))
  {
    hide FetchedValid, LogValid, CountsValid, StatusValid, RelayNext;
    match step {
      case Relay(r) => if r.Fetch? { FetchKeepsFetched(o, r.limit); } else { RelayKeepsFetched(o, r); }
      case _ => RowsKeepFetched(o, step);
    }
    NextKeepsLog(o, step);
    NextKeepsCounts(o, step);
    if step.Relay? { RelayKeepsStatus(o, step.step); } else { RowsKeepStatus(o, step); }
  }

  lemma {:induction false} RunKeepsValid<M>(o: Outbox<M>, steps: seq<Step<M>>)
    requires Valid(o)
    ensures Valid(Run(o, steps))
  {
    if steps != [] {
      RunKeepsValid(o, steps[..|steps| - 1]);
      NextKeepsValid(Run(o, steps[..|steps| - 1]), steps[|steps| - 1]);
    }
  }

  // ---------------------------------------------------------------- results

  ghost predicate Logged<M>(o: Outbox<M>, id: nat) {
    exists k :: 0 <= k < |o.log| && o.log[k].id == id
  }

  ghost predicate InBatch<M>(o: Outbox<M>, id: nat) {
    exists k :: 0 <= k < |o.batch| && o.batch[k].id == id
  }

  lemma {:induction false} TimesLogged<M>(log: seq<Event<M>>, id: nat)
    ensures Times(log, id) > 0 <==> exists k :: 0 <= k < |log| && log[k].id == id
  {
    if log != [] {
      var n := |log| - 1;
      TimesLogged(log[..n], id);
      if Times(log[..n], id) > 0 {
        var k :| 0 <= k < n && log[..n][k].id == id;
        assert log[k].id == id;
      }
      if k :| 0 <= k < |log| && log[k].id == id {
        if k < n {
          assert log[..n][k].id == id;
        }
      }
    }
  }

  /** Over every run from an empty outbox: what was published is a committed row, and a row that was
      never cancelled has been published once per failed status update, plus once if it is PUBLISHED
      (plus the publish whose status update is still to come). */
  lemma {:induction false} PublishCountExact<M>(steps: seq<Step<M>>, id: nat)
    ensures var o := Run(Empty<M>(), steps);
            && (forall k :: 0 <= k < |o.log| ==> CopyOf(o.log[k], o.rows))
            && (id < |o.rows| && id !in o.cancels ==>
                  Times(o.log, id) == o.failedMarks[id] + Pending(o, id)
                                      + if o.rows[id].status == Published then 1 else 0)
  {
    RunKeepsValid(Empty<M>(), steps);
    var o := Run(Empty<M>(), steps);
    if id < |o.rows| {
      assert StatusExplained(o, id);
      assert CountHolds(o, id);
    }
  }

  /** What later states of the same outbox keep of row `id`. */
  ghost predicate Keeps<M>(o: Outbox<M>, o': Outbox<M>, id: nat) {
    && id < |o.rows| <= |o'.rows|
    && o'.rows[id].body == o.rows[id].body
    && (o.rows[id].status != Unpublished ==> o'.rows[id].status != Unpublished)
    && o.log <= o'.log
  }

  lemma {:induction false} NextKeepsRow<M>(o: Outbox<M>, step: Step<M>, id: nat)
    requires id < |o.rows|
    ensures Keeps(o, Next(o, step), id)
  {
  }

  /** A status update overwrites whatever is there, and nothing else changes a status. */
  lemma {:induction false} StatusExactly<M>(o: Outbox<M>, step: Step<M>, id: nat)
    requires id < |o.rows|
    ensures |Next(o, step).rows| == |o.rows| + if step.Insert? then 1 else 0
    ensures Next(o, step).rows[id].status
         == if step.Cancel? && id in step.ids then Cancelled
            else if step == Relay(Mark(true)) && o.unmarked.Some? && o.unmarked.value.id == id then Published
            else o.rows[id].status
    ensures step.Insert? ==> Next(o, step).rows[|o.rows|] == Row(step.body, Unpublished)
  {
    hide UnpublishedEvents;
  }

  /** A row keeps its content, a row that has left UNPUBLISHED never returns to it, and what the
      broker has accepted stays accepted. */
  lemma {:induction false} NeverReentered<M>(o: Outbox<M>, steps: seq<Step<M>>, id: nat)
    requires id < |o.rows|
    ensures Keeps(o, Run(o, steps), id)
  {
    if steps != [] {
      var init := steps[..|steps| - 1];
      NeverReentered(o, init, id);
      NextKeepsRow(Run(o, init), steps[|steps| - 1], id);
    }
  }

  lemma {:induction false} PublishedIsLogged<M>(o: Outbox<M>, id: nat)
    requires Valid(o) && id < |o.rows| && o.rows[id].status == Published
    ensures Logged(o, id)
  {
    assert StatusExplained(o, id);
    assert CountHolds(o, id);
    TimesLogged(o.log, id);
  }

  /** No publish and no mark has failed so far: the log is the front of the rows, in order. */
  ghost predicate Smooth<M>(o: Outbox<M>) {
    var marked := |o.log| - if o.unmarked.Some? then 1 else 0;
    && 0 <= marked && |o.log| + |o.batch| <= |o.rows|
    && (forall k :: 0 <= k < |o.log| ==> o.log[k] == Event(k, o.rows[k].body))
    && (forall k :: 0 <= k < |o.batch| ==> o.batch[k] == Event(|o.log| + k, o.rows[|o.log| + k].body))
    && (o.unmarked.Some? ==> o.unmarked.value == o.log[|o.log| - 1])
    && (forall i :: 0 <= i < |o.rows| ==> o.rows[i].status == if i < marked then Published else Unpublished)
  }

  predicate Succeeds(step: RelayStep) {
    step != Publish(false) && step != Mark(false) && step != Crash
  }

  lemma {:induction false} UnpublishedAppended<M>(rows: seq<Row<M>>, row: Row<M>)
    ensures UnpublishedEvents(rows + [row])
         == UnpublishedEvents(rows) + if row.status == Unpublished then [Event(|rows|, row.body)] else []
  {
    assert (rows + [row])[..|rows|] == rows;
  }

  lemma {:induction false} UnpublishedTail<M>(rows: seq<Row<M>>, n: nat)
    requires n <= |rows|
    requires forall i :: 0 <= i < |rows| ==> rows[i].status == if i < n then Published else Unpublished
    ensures |UnpublishedEvents(rows)| == |rows| - n
    ensures forall k :: 0 <= k < |rows| - n ==> UnpublishedEvents(rows)[k] == Event(n + k, rows[n + k].body)
  {
    if rows != [] {
      var last := |rows| - 1;
      var front := rows[..last];
      hide UnpublishedEvents;
      assert rows == front + [rows[last]];
      UnpublishedAppended(front, rows[last]);
      UnpublishedTail(front, if n <= last then n else last);
    }
  }

  lemma {:induction false} FetchStaysSmooth<M>(o: Outbox<M>, limit: nat)
    requires Smooth(o)
    ensures Smooth(RelayNext(o, Fetch(limit)))
  {
    hide UnpublishedEvents;
    if o.batch == [] && o.unmarked.None? {
      UnpublishedTail(o.rows, |o.log|);
    }
  }

  lemma {:induction false} PublishStaysSmooth<M>(o: Outbox<M>)
    requires Smooth(o)
    ensures Smooth(RelayNext(o, Publish(true)))
  {
  }

  lemma {:induction false} MarkStaysSmooth<M>(o: Outbox<M>)
    requires Smooth(o)
    ensures Smooth(RelayNext(o, Mark(true)))
  {
  }

  /** As long as nothing fails, the relayer publishes the rows in their order, each once. */
  lemma {:induction false} StaysSmooth<M>(o: Outbox<M>, step: Step<M>)
    requires Smooth(o) && (step.Insert? || (step.Relay? && Succeeds(step.step)))
    ensures Smooth(Next(o, step))
  {
    hide RelayNext;
    if step.Relay? {
      match step.step
      case Fetch(limit) => FetchStaysSmooth(o, limit);
      case Publish(_) => PublishStaysSmooth(o);
      case Mark(_) => MarkStaysSmooth(o);
      case Crash =>
    }
  }

  ghost predicate OutOfReach<M>(o: Outbox<M>, id: nat) {
    id < |o.rows| && o.rows[id].status != Unpublished && !InBatch(o, id) && !Logged(o, id)
  }

  lemma {:induction false} RowsKeepOutOfReach<M>(o: Outbox<M>, step: Step<M>, id: nat)
    requires !step.Relay? && OutOfReach(o, id)
    ensures OutOfReach(Next(o, step), id)
  {
    hide UnpublishedEvents;
  }

  lemma {:induction false} FetchKeepsOutOfReach<M>(o: Outbox<M>, limit: nat, id: nat)
    requires OutOfReach(o, id)
    ensures OutOfReach(RelayNext(o, Fetch(limit)), id)
  {
    hide UnpublishedEvents;
    UnpublishedExact(o.rows);
    var u := UnpublishedEvents(o.rows);
    forall k | 0 <= k < |u| ensures u[k].id != id {
      assert Unsent(u[k], o.rows);
    }
  }

  lemma {:induction false} RelayKeepsOutOfReach<M>(o: Outbox<M>, step: RelayStep, id: nat)
    requires !step.Fetch? && OutOfReach(o, id)
    ensures OutOfReach(RelayNext(o, step), id)
  {
    var o' := RelayNext(o, step);
    assert o'.batch == o.batch || o'.batch == [] || (o.batch != [] && o'.batch == o.batch[1..]);
    forall k | 0 <= k < |o'.batch| ensures o'.batch[k].id != id {
      assert o'.batch[k] == if o'.batch == o.batch then o.batch[k] else o.batch[k + 1];
    }
    forall k | 0 <= k < |o'.log| ensures o'.log[k].id != id {
      assert o'.log[k] == if k < |o.log| then o.log[k] else o.batch[0];
    }
  }

  lemma {:induction false} OutOfReachStays<M>(o: Outbox<M>, step: Step<M>, id: nat)
    requires OutOfReach(o, id)
    ensures OutOfReach(Next(o, step), id)
  {
    hide OutOfReach, RelayNext;
    if !step.Relay? {
      RowsKeepOutOfReach(o, step, id);
    } else if step.step.Fetch? {
      FetchKeepsOutOfReach(o, step.step.limit, id);
    } else {
      RelayKeepsOutOfReach(o, step.step, id);
    }
  }

  lemma {:induction false} OutOfReachForever<M>(o: Outbox<M>, steps: seq<Step<M>>, id: nat)
    requires Valid(o) && OutOfReach(o, id)
    ensures OutOfReach(Run(o, steps), id)
  {
    if steps != [] {
      var init := steps[..|steps| - 1];
      OutOfReachForever(o, init, id);
      RunKeepsValid(o, init);
      OutOfReachStays(Run(o, init), steps[|steps| - 1], id);
    }
  }

  /** The run that gives up on everything in front of the k-th fetched event and publishes that one. */
  function Overtake<M>(pending: bool, k: nat): seq<Step<M>> {
    (if pending then [Relay(Mark(true))] else []) + seq(k, i => Relay(Publish(false))) + [Relay(Publish(true))]
  }

  lemma {:induction false} SkipsRun<M>(o: Outbox<M>, k: nat)
    requires k <= |o.batch| && o.unmarked.None?
    ensures Run(o, seq(k, i => Relay(Publish(false)))) == o.(batch := o.batch[k..])
  {
    var steps: seq<Step<M>> := seq(k, i => Relay(Publish(false)));
    if k > 0 {
      assert steps[..k - 1] == seq(k - 1, i => Relay(Publish(false)));
      SkipsRun(o, k - 1);
      assert o.batch[k - 1..][1..] == o.batch[k..];
    } else {
      assert steps == [];
    }
  }

  lemma {:induction false} RunConcat<M>(o: Outbox<M>, a: seq<Step<M>>, b: seq<Step<M>>)
    ensures Run(o, a + b) == Run(Run(o, a), b)
  {
    if b == [] {
      assert a + b == a;
    } else {
      var n := |b| - 1;
      RunConcat(o, a, b[..n]);
      assert (a + b)[..|a + b| - 1] == a + b[..n];
    }
  }

  lemma {:induction false} PublishFront<M>(o: Outbox<M>)
    requires o.batch != [] && o.unmarked.None?
    ensures Logged(Run(o, [Relay(Publish(true))]), o.batch[0].id)
  {
    var steps: seq<Step<M>> := [Relay(Publish(true))];
    assert steps[..0] == [];
    var o' := Next(o, steps[0]);
    assert Run(o, steps) == o';
    assert o'.log[|o.log|].id == o.batch[0].id;
  }

  lemma {:induction false} MarkFirst<M>(o: Outbox<M>)
    requires o.unmarked.Some?
    ensures var o1 := Run(o, [Relay(Mark(true))]); o1.batch == o.batch && o1.unmarked.None?
  {
    var steps: seq<Step<M>> := [Relay(Mark(true))];
    assert steps[..0] == [];
    assert Run(o, steps) == Next(o, steps[0]);
  }

  lemma {:induction false} FetchedCanBePublished<M>(o: Outbox<M>, k: nat)
    requires k < |o.batch|
    ensures Logged(Run(o, Overtake(o.unmarked.Some?, k)), o.batch[k].id)
  {
    var first: seq<Step<M>> := if o.unmarked.Some? then [Relay(Mark(true))] else [];
    var skips: seq<Step<M>> := seq(k, i => Relay(Publish(false)));
    var last: seq<Step<M>> := [Relay(Publish(true))];
    if o.unmarked.Some? {
      MarkFirst(o);
    }
    var o1 := Run(o, first);
    SkipsRun(o1, k);
    PublishFront(Run(o1, skips));
    RunConcat(o, first, skips);
    RunConcat(o, first + skips, last);
  }

  /** A cancelled row can still reach the broker exactly while it is in the relayer's current batch, unless it
      has done so already: a cancel that commits before the fetch, or after a failed publish has dropped the
      row from the batch, beats the relayer in every run. */
  lemma {:induction false} CancelBeatsRelayer<M>(o: Outbox<M>, id: nat)
    requires Valid(o) && id < |o.rows| && o.rows[id].status == Cancelled
    ensures (forall steps: seq<Step<M>> :: !Logged(Run(o, steps), id)) <==> !InBatch(o, id) && !Logged(o, id)
  {
    if !InBatch(o, id) && !Logged(o, id) {
      forall steps ensures !Logged(Run(o, steps), id) {
        OutOfReachForever(o, steps, id);
      }
    } else if Logged(o, id) {
      var none: seq<Step<M>> := [];
      assert Run(o, none) == o;
      assert Logged(Run(o, none), id);
      assert exists steps: seq<Step<M>> :: Logged(Run(o, steps), id);
    } else {
      var k :| 0 <= k < |o.batch| && o.batch[k].id == id;
      FetchedCanBePublished(o, k);
      var run: seq<Step<M>> := Overtake(o.unmarked.Some?, k);
      assert Logged(Run(o, run), id);
      assert exists steps: seq<Step<M>> :: Logged(Run(o, steps), id);
    }
  }
}
