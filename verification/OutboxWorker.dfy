/** The payment outbox worker (outbox-workers/payment-outbox-worker/src/index.ts).  Rows are
    numbered in the order of their insertion; the message channel is the log of published rows. */
module OutboxWorker {
  import opened Prelude

  /** jsonb payloads: a payment outcome, or some other document. */
  datatype Payload =
    | PaymentOutcome(membershipId: Id, paymentId: Id, userId: Id, occurredAt: int)
    | OtherDocument(text: string)

  datatype RowStatus = PENDING | PROCESSED

  datatype Row = Row(eventName: string, payload: Payload, status: RowStatus)

  /** EventSchemas: the known event names and what each schema accepts. */
  type Schemas = map<string, Payload -> bool>

  const PENDING_FETCH_LIMIT := 20

  /** The row names a known event and its payload parses. */
  predicate Good(schemas: Schemas, r: Row) {
    r.eventName in schemas && schemas[r.eventName](r.payload)
  }

  ghost function PendingRows(rows: seq<Row>): set<nat> {
    set i: nat | i < |rows| && rows[i].status == PENDING
  }

  function Mark(rows: seq<Row>, i: nat): (r: seq<Row>)
    requires i < |rows|
    ensures |r| == |rows|
  {
    rows[i := rows[i].(status := PROCESSED)]
  }

  // ---- interleaved ticks and crashes ----

  /** A tick in progress: the fetched rows still to be handled, and whether the first of them has
      been published but not yet marked. */
  datatype Tick = Tick(batch: seq<nat>, sent: bool)

  datatype State = State(rows: seq<Row>, ticks: map<nat, Tick>, published: set<nat>)

  datatype Step =
    | Insert(row: Row)                    // the payments service commits a row
    | Fetch(tick: nat, batch: seq<nat>)   // a timer tick selects at most 20 pending rows
    | Discard(tick: nat)                  // an unknown event or an invalid payload is marked processed
    | Publish(tick: nat)
    | MarkSent(tick: nat)
    | SkipRow(tick: nat)                  // publishing or marking throws inside the row's try block
    | EndTick(tick: nat)                  // the batch is done, or another statement throws
    | Crash                               // the process stops; all ticks in progress are lost

  predicate IsFetch(rows: seq<Row>, batch: seq<nat>) {
    && |batch| <= PENDING_FETCH_LIMIT
    && (forall k :: 0 <= k < |batch| ==> batch[k] < |rows| && rows[batch[k]].status == PENDING)
    && (forall j, k :: 0 <= j < k < |batch| ==> batch[j] != batch[k])
  }

  predicate Enabled(schemas: Schemas, s: State, step: Step) {
    match step
    case Insert(row) => row.status == PENDING
    case Fetch(t, batch) => t !in s.ticks && IsFetch(s.rows, batch)
    case Discard(t) => AtRow(s, t) && !s.ticks[t].sent && !Good(schemas, HeadRow(s, t))
    case Publish(t) => AtRow(s, t) && !s.ticks[t].sent && Good(schemas, HeadRow(s, t))
    case MarkSent(t) => AtRow(s, t) && s.ticks[t].sent
    case SkipRow(t) => AtRow(s, t) && Good(schemas, HeadRow(s, t))
    case EndTick(t) => t in s.ticks
    case Crash => true
  }

  /** Tick t has a row to handle. */
  predicate AtRow(s: State, t: nat) {
    t in s.ticks && s.ticks[t].batch != [] && s.ticks[t].batch[0] < |s.rows|
  }

  function HeadRow(s: State, t: nat): Row
    requires AtRow(s, t)
  {
    s.rows[s.ticks[t].batch[0]]
  }

  function NextRow(s: State, t: nat): map<nat, Tick>
    requires AtRow(s, t)
  {
    s.ticks[t := Tick(s.ticks[t].batch[1..], false)]
  }

  function Do(schemas: Schemas, s: State, step: Step): State
    requires Enabled(schemas, s, step)
  {
    match step
    case Insert(row) => s.(rows := s.rows + [row])
    case Fetch(t, batch) => s.(ticks := s.ticks[t := Tick(batch, false)])
    case Discard(t) => s.(rows := Mark(s.rows, s.ticks[t].batch[0]), ticks := NextRow(s, t))
    case Publish(t) =>
      s.(published := s.published + {s.ticks[t].batch[0]}, ticks := s.ticks[t := s.ticks[t].(sent := true)])
    case MarkSent(t) => s.(rows := Mark(s.rows, s.ticks[t].batch[0]), ticks := NextRow(s, t))
    case SkipRow(t) => s.(ticks := NextRow(s, t))
    case EndTick(t) => s.(ticks := s.ticks - {t})
    case Crash => s.(ticks := map[])
  }

  ghost predicate TickOk(s: State, t: Tick) {
    && (forall k :: 0 <= k < |t.batch| ==> t.batch[k] < |s.rows|)
    && (t.sent ==> t.batch != [] && t.batch[0] in s.published)
  }

  /** Only good rows are ever published, and a processed row is a published one exactly when it is
      good. */
  ghost predicate Inv(schemas: Schemas, s: State) {
    && (forall t :: t in s.ticks ==> TickOk(s, s.ticks[t]))
    && (forall i :: i in s.published ==> i < |s.rows| && Good(schemas, s.rows[i]))
    && (forall i: nat :: i < |s.rows| && s.rows[i].status == PROCESSED ==>
          (Good(schemas, s.rows[i]) <==> i in s.published))
  }

  lemma StepKeeps(schemas: Schemas, s: State, step: Step)
    requires Inv(schemas, s) && Enabled(schemas, s, step)
    ensures Inv(schemas, Do(schemas, s, step))
    ensures s.published <= Do(schemas, s, step).published
  {
  }

  ghost predicate Runs(schemas: Schemas, s: State, steps: seq<Step>)
    decreases |steps|
  {
    steps == [] || (Enabled(schemas, s, steps[0]) && Runs(schemas, Do(schemas, s, steps[0]), steps[1..]))
  }

  ghost function Run(schemas: Schemas, s: State, steps: seq<Step>): State
    requires Runs(schemas, s, steps)
    decreases |steps|
  {
    if steps == [] then s else Run(schemas, Do(schemas, s, steps[0]), steps[1..])
  }

  /** At-least-once delivery: under any interleaving of ticks, failures and crashes, every processed
      row with a known name and a valid payload has been published, and no other row ever has. */
  lemma {:induction false} RunDelivers(schemas: Schemas, s: State, steps: seq<Step>)
    requires Inv(schemas, s) && Runs(schemas, s, steps)
    ensures
      var t := Run(schemas, s, steps);
      && Inv(schemas, t) && s.published <= t.published
      && forall i: nat :: i < |t.rows| ==>
           && (i in t.published ==> Good(schemas, t.rows[i]))
           && (t.rows[i].status == PROCESSED && Good(schemas, t.rows[i]) ==> i in t.published)
    decreases |steps|
  {
    if steps != [] {
      StepKeeps(schemas, s, steps[0]);
      RunDelivers(schemas, Do(schemas, s, steps[0]), steps[1..]);
    }
  }

  // ---- one tick ----

  /** What happens while one row is handled: nothing fails, publishing throws, or marking throws. */
  datatype Fate = Fine | PublishThrows | UpdateThrows

  ghost predicate InRange(rows: seq<Row>, batch: seq<nat>) {
    forall k :: 0 <= k < |batch| ==> batch[k] < |rows|
  }

  /** The rows after a tick over this batch, and the rows that it published, in order.  A failure on
      a good row is caught and the loop goes on; a failure to mark any other row ends the tick. */
  function TickEffect(schemas: Schemas, rows: seq<Row>, batch: seq<nat>, fates: seq<Fate>): (seq<Row>, seq<nat>)
    requires InRange(rows, batch) && |fates| == |batch|
    decreases |batch|
  {
    if batch == [] then (rows, [])
    else
      var id, good := batch[0], Good(schemas, rows[batch[0]]);
      if !good && fates[0] == UpdateThrows then (rows, [])
      else
        var marked := if fates[0] == Fine || !good then Mark(rows, id) else rows;
        var (after, sent) := TickEffect(schemas, marked, batch[1..], fates[1..]);
        (after, if good && fates[0] != PublishThrows then [id] + sent else sent)
  }

  class PaymentOutboxWorker {
    const schemas: Schemas
    var rows: seq<Row>
    var published: seq<nat>

    constructor (schemas: Schemas, rows: seq<Row>)
      ensures this.schemas == schemas && this.rows == rows && published == []
    {
      this.schemas, this.rows, published := schemas, rows, [];
    }

    /** The body of the timer: batch is what the query for pending rows returns. */
    method PollOnce(batch: seq<nat>, fates: seq<Fate>)
      requires IsFetch(rows, batch) && |fates| == |batch|
      modifies this`rows, this`published
      ensures (rows, published) ==
                (TickEffect(schemas, old(rows), batch, fates).0,
                 old(published) + TickEffect(schemas, old(rows), batch, fates).1)
    {
      hide Good, TickEffect, Continues;
      ghost var effect := TickEffect(schemas, rows, batch, fates);
      assert batch[0..] == batch && fates[0..] == fates;
      NothingYet(schemas, rows, published, batch, fates);
      for k := 0 to |batch|
        invariant |rows| == |old(rows)|
        invariant Continues(schemas, rows, published, batch[k..], fates[k..], effect.0, old(published) + effect.1)
      {
        var id, row := batch[k], rows[batch[k]];
        assert batch[k..][1..] == batch[k + 1..] && fates[k..][1..] == fates[k + 1..];
        KnownAndValid(schemas, row);
        OneRow(schemas, rows, published, batch[k..], fates[k..], effect.0, old(published) + effect.1);
        if row.eventName !in schemas {
          if fates[k] == UpdateThrows {
            return;
          }
          rows := Mark(rows, id);
          continue;
        }
        if !schemas[row.eventName](row.payload) {
          if fates[k] == UpdateThrows {
            return;
          }
          rows := Mark(rows, id);
          continue;
        }
        if fates[k] != PublishThrows {
          published := published + [id];
          if fates[k] != UpdateThrows {
            rows := Mark(rows, id);
          }
        }
      }
      NothingLeft(schemas, rows, published, effect.0, old(published) + effect.1);
    }
  }

  lemma KnownAndValid(schemas: Schemas, row: Row)
    ensures Good(schemas, row) <==> row.eventName in schemas && schemas[row.eventName](row.payload)
  {
  }

  /** Handling the rest of a batch from here leads to these rows and messages. */
  ghost predicate Continues(schemas: Schemas, rows: seq<Row>, published: seq<nat>, batch: seq<nat>, fates: seq<Fate>,
                            finalRows: seq<Row>, finalPublished: seq<nat>)
    requires InRange(rows, batch) && |fates| == |batch|
  {
    var (after, sent) := TickEffect(schemas, rows, batch, fates);
    finalRows == after && finalPublished == published + sent
  }

  lemma NothingYet(schemas: Schemas, rows: seq<Row>, published: seq<nat>, batch: seq<nat>, fates: seq<Fate>)
    requires InRange(rows, batch) && |fates| == |batch|
    ensures
      var (after, sent) := TickEffect(schemas, rows, batch, fates);
      Continues(schemas, rows, published, batch, fates, after, published + sent)
  {
  }

  lemma NothingLeft(schemas: Schemas, rows: seq<Row>, published: seq<nat>, finalRows: seq<Row>,
                    finalPublished: seq<nat>)
    requires Continues(schemas, rows, published, [], [], finalRows, finalPublished)
    ensures rows == finalRows && published == finalPublished
  {
  }

  /** Handling one row either ends the tick or leads to where the rest of the batch goes on. */
  lemma OneRow(schemas: Schemas, rows: seq<Row>, published: seq<nat>, batch: seq<nat>, fates: seq<Fate>,
               finalRows: seq<Row>, finalPublished: seq<nat>)
    requires InRange(rows, batch) && |fates| == |batch| && batch != []
    requires Continues(schemas, rows, published, batch, fates, finalRows, finalPublished)
    ensures
      var good, marked := Good(schemas, rows[batch[0]]), Mark(rows, batch[0]);
      if !good && fates[0] == UpdateThrows then rows == finalRows && published == finalPublished
      else Continues(schemas, if fates[0] == Fine || !good then marked else rows,
                     if good && fates[0] != PublishThrows then published + [batch[0]] else published,
                     batch[1..], fates[1..], finalRows, finalPublished)
  {
    hide Good;
  }

  /** The steps of a tick that meets these fates. */
  function TickSteps(schemas: Schemas, rows: seq<Row>, t: nat, batch: seq<nat>, fates: seq<Fate>): seq<Step>
    requires InRange(rows, batch) && |fates| == |batch|
    decreases |batch|
  {
    if batch == [] then [EndTick(t)]
    else
      var id, good := batch[0], Good(schemas, rows[batch[0]]);
      var marked := Mark(rows, id);
      if !good && fates[0] == UpdateThrows then [EndTick(t)]
      else if !good then [Discard(t)] + TickSteps(schemas, marked, t, batch[1..], fates[1..])
      else match fates[0]
        case Fine => [Publish(t), MarkSent(t)] + TickSteps(schemas, marked, t, batch[1..], fates[1..])
        case PublishThrows => [SkipRow(t)] + TickSteps(schemas, rows, t, batch[1..], fates[1..])
        case UpdateThrows => [Publish(t), SkipRow(t)] + TickSteps(schemas, rows, t, batch[1..], fates[1..])
  }

  /** The set of published rows after a tick. */
  function AlsoSent(published: set<nat>, sent: seq<nat>): set<nat> {
    published + set i | i in sent
  }

  lemma RunStep(schemas: Schemas, s: State, step: Step, rest: seq<Step>)
    requires Enabled(schemas, s, step) && Runs(schemas, Do(schemas, s, step), rest)
    ensures Runs(schemas, s, [step] + rest)
    ensures Run(schemas, s, [step] + rest) == Run(schemas, Do(schemas, s, step), rest)
  {
    assert ([step] + rest)[1..] == rest;
  }

  /** PollOnce is a run of the interleaving model, whatever fails on the way: its steps are enabled
      one after the other, and they leave the rows and publish the messages that PollOnce does. */
  lemma {:induction false} TickIsARun(schemas: Schemas, s: State, t: nat, batch: seq<nat>, fates: seq<Fate>)
    requires t in s.ticks && s.ticks[t] == Tick(batch, false)
    requires InRange(s.rows, batch) && |fates| == |batch|
    ensures
      var steps := TickSteps(schemas, s.rows, t, batch, fates);
      var (rows, sent) := TickEffect(schemas, s.rows, batch, fates);
      Runs(schemas, s, steps) && Run(schemas, s, steps) == State(rows, s.ticks - {t}, AlsoSent(s.published, sent))
    decreases |batch|
  {
    hide Runs, Run, Good, Mark;
    if batch == [] || (!Good(schemas, s.rows[batch[0]]) && fates[0] == UpdateThrows) {
      EndsTick(schemas, s, t);
    } else if Good(schemas, s.rows[batch[0]]) && fates[0] != PublishThrows {
      PublishedRow(schemas, s, t, batch, fates[0] == Fine);
      var second := if fates[0] == Fine then MarkSent(t) else SkipRow(t);
      var u := Do(schemas, s, Publish(t));
      var v := Do(schemas, u, second);
      var rest := TickSteps(schemas, v.rows, t, batch[1..], fates[1..]);
      TickIsARun(schemas, v, t, batch[1..], fates[1..]);
      RunStep(schemas, u, second, rest);
      RunStep(schemas, s, Publish(t), [second] + rest);
      assert TickSteps(schemas, s.rows, t, batch, fates) == [Publish(t)] + ([second] + rest);
      assert v.ticks - {t} == s.ticks - {t};
    } else {
      var first := if Good(schemas, s.rows[batch[0]]) then SkipRow(t) else Discard(t);
      var u := Do(schemas, s, first);
      var rest := TickSteps(schemas, u.rows, t, batch[1..], fates[1..]);
      TickIsARun(schemas, u, t, batch[1..], fates[1..]);
      RunStep(schemas, s, first, rest);
      assert TickSteps(schemas, s.rows, t, batch, fates) == [first] + rest;
      assert u.ticks - {t} == s.ticks - {t};
    }
  }

  /** A row that is published, and then marked or not. */
  lemma PublishedRow(schemas: Schemas, s: State, t: nat, batch: seq<nat>, marked: bool)
    requires t in s.ticks && s.ticks[t] == Tick(batch, false) && InRange(s.rows, batch) && batch != []
    requires Good(schemas, s.rows[batch[0]])
    ensures Enabled(schemas, s, Publish(t))
    ensures
      var second, u := if marked then MarkSent(t) else SkipRow(t), Do(schemas, s, Publish(t));
      Enabled(schemas, u, second) &&
      Do(schemas, u, second) == State(if marked then Mark(s.rows, batch[0]) else s.rows,
                                      s.ticks[t := Tick(batch[1..], false)], s.published + {batch[0]})
  {
    hide Good, Mark;
    var u := Do(schemas, s, Publish(t));
    assert u == State(s.rows, s.ticks[t := Tick(batch, true)], s.published + {batch[0]});
    assert u.ticks[t := Tick(batch[1..], false)] == s.ticks[t := Tick(batch[1..], false)];
  }

  lemma EndsTick(schemas: Schemas, s: State, t: nat)
    requires t in s.ticks
    ensures Runs(schemas, s, [EndTick(t)])
    ensures Run(schemas, s, [EndTick(t)]) == State(s.rows, s.ticks - {t}, AlsoSent(s.published, []))
  {
    assert Runs(schemas, Do(schemas, s, EndTick(t)), []);
    RunStep(schemas, s, EndTick(t), []);
  }

  // ---- which rows a tick publishes and marks ----

  /** Row number k of the batch is handled: no row up to it ends the tick. */
  predicate IsHandled(schemas: Schemas, rows: seq<Row>, batch: seq<nat>, fates: seq<Fate>, k: nat)
    requires InRange(rows, batch) && |fates| == |batch|
  {
    k < |batch| && forall j :: 0 <= j <= k ==> Good(schemas, rows[batch[j]]) || fates[j] != UpdateThrows
  }

  predicate Different(batch: seq<nat>) {
    forall j, k :: 0 <= j < k < |batch| ==> batch[j] != batch[k]
  }

  /** What happens to row number k of the batch. */
  ghost predicate RowDone(schemas: Schemas, rows: seq<Row>, batch: seq<nat>, fates: seq<Fate>, k: nat,
                          after: seq<Row>, sent: seq<nat>)
    requires InRange(rows, batch) && |fates| == |batch| && |after| == |rows| && k < |batch|
  {
    var handled, good := IsHandled(schemas, rows, batch, fates, k), Good(schemas, rows[batch[k]]);
    && (batch[k] in sent <==> handled && good && fates[k] != PublishThrows)
    && after[batch[k]] ==
         if handled && (good ==> fates[k] == Fine) then rows[batch[k]].(status := PROCESSED) else rows[batch[k]]
  }

  ghost predicate OthersLeft(rows: seq<Row>, batch: seq<nat>, after: seq<Row>, sent: seq<nat>)
    requires |after| == |rows|
  {
    (forall i: nat :: i < |rows| && i !in batch ==> after[i] == rows[i]) && (forall i :: i in sent ==> i in batch)
  }

  /** Row number k of the batch, when the first row has been handled and the rest has been done. */
  lemma RowDoneNext(schemas: Schemas, rows: seq<Row>, batch: seq<nat>, fates: seq<Fate>, k: nat,
                    next: seq<Row>, after: seq<Row>, restSent: seq<nat>, sent: seq<nat>)
    requires InRange(rows, batch) && |fates| == |batch| && Different(batch) && 0 < k < |batch|
    requires Good(schemas, rows[batch[0]]) || fates[0] != UpdateThrows
    requires |next| == |rows| == |after| && (next == rows || next == Mark(rows, batch[0]))
    requires RowDone(schemas, next, batch[1..], fates[1..], k - 1, after, restSent)
    requires sent == restSent || sent == [batch[0]] + restSent
    ensures RowDone(schemas, rows, batch, fates, k, after, sent)
  {
    assert next[batch[k]] == rows[batch[k]];
    forall j | 0 <= j < |batch|
      ensures Good(schemas, next[batch[j]]) == Good(schemas, rows[batch[j]])
    {
      MarkedGood(schemas, rows[batch[j]]);
    }
    hide Good, Mark;
    HandledNext(schemas, rows, batch, fates, k, next);
  }

  lemma HandledNext(schemas: Schemas, rows: seq<Row>, batch: seq<nat>, fates: seq<Fate>, k: nat, next: seq<Row>)
    requires InRange(rows, batch) && |fates| == |batch| && 0 < k < |batch| && |next| == |rows|
    requires Good(schemas, rows[batch[0]]) || fates[0] != UpdateThrows
    requires forall j :: 0 <= j < |batch| ==> Good(schemas, next[batch[j]]) == Good(schemas, rows[batch[j]])
    ensures IsHandled(schemas, next, batch[1..], fates[1..], k - 1) <==> IsHandled(schemas, rows, batch, fates, k)
  {
    hide Good;
    if IsHandled(schemas, next, batch[1..], fates[1..], k - 1) {
      forall j | 0 <= j <= k
        ensures Good(schemas, rows[batch[j]]) || fates[j] != UpdateThrows
      {
        assert j > 0 ==> batch[1..][j - 1] == batch[j] && fates[1..][j - 1] == fates[j];
      }
    }
  }

  /** Whatever throws, a tick publishes exactly the good rows that it handles and whose publication does not
      throw, and marks exactly the rows that it handles and that are not good or meet no failure. */
  lemma {:induction false} TickDoes(schemas: Schemas, rows: seq<Row>, batch: seq<nat>, fates: seq<Fate>)
    requires InRange(rows, batch) && |fates| == |batch| && Different(batch)
    ensures
      var (after, sent) := TickEffect(schemas, rows, batch, fates);
      && |after| == |rows| && OthersLeft(rows, batch, after, sent)
      && forall k: nat :: k < |batch| ==> RowDone(schemas, rows, batch, fates, k, after, sent)
    decreases |batch|
  {
    TickUnfolds(schemas, rows, batch, fates);
    hide Good, RowDone, TickEffect, OthersLeft, Mark, Different;
    if batch == [] {
      assert OthersLeft(rows, batch, rows, []) by { NothingDone(rows, batch); }
    } else if !Good(schemas, rows[batch[0]]) && fates[0] == UpdateThrows {
      forall k: nat | k < |batch|
        ensures RowDone(schemas, rows, batch, fates, k, rows, [])
      {
        EndedRow(schemas, rows, batch, fates, k);
      }
      NothingDone(rows, batch);
    } else {
      var good, rest := Good(schemas, rows[batch[0]]), batch[1..];
      var next := if fates[0] == Fine || !good then Mark(rows, batch[0]) else rows;
      RestDiffers(batch);
      TickDoes(schemas, next, rest, fates[1..]);
      var (after, restSent) := TickEffect(schemas, next, rest, fates[1..]);
      var sent := if good && fates[0] != PublishThrows then [batch[0]] + restSent else restSent;
      OthersNext(rows, next, batch, after, restSent, sent);
      FirstRow(schemas, rows, batch, fates, after, sent);
      forall k: nat | 0 < k < |batch|
        ensures RowDone(schemas, rows, batch, fates, k, after, sent)
      {
        RowDoneNext(schemas, rows, batch, fates, k, next, after, restSent, sent);
      }
    }
  }

  lemma TickUnfolds(schemas: Schemas, rows: seq<Row>, batch: seq<nat>, fates: seq<Fate>)
    requires InRange(rows, batch) && |fates| == |batch|
    ensures batch == [] ==> TickEffect(schemas, rows, batch, fates) == (rows, [])
    ensures batch != [] ==>
              var good := Good(schemas, rows[batch[0]]);
              if !good && fates[0] == UpdateThrows then TickEffect(schemas, rows, batch, fates) == (rows, [])
              else
                var next := if fates[0] == Fine || !good then Mark(rows, batch[0]) else rows;
                var (after, restSent) := TickEffect(schemas, next, batch[1..], fates[1..]);
                TickEffect(schemas, rows, batch, fates) ==
                  (after, if good && fates[0] != PublishThrows then [batch[0]] + restSent else restSent)
  {
    hide Good, Mark;
  }

  lemma NothingDone(rows: seq<Row>, batch: seq<nat>)
    ensures OthersLeft(rows, batch, rows, [])
  {
  }

  lemma RestDiffers(batch: seq<nat>)
    requires batch != [] && Different(batch)
    ensures Different(batch[1..]) && batch[0] !in batch[1..]
  {
  }

  lemma OthersNext(rows: seq<Row>, next: seq<Row>, batch: seq<nat>, after: seq<Row>, restSent: seq<nat>, sent: seq<nat>)
    requires InRange(rows, batch) && batch != [] && batch[0] !in batch[1..]
    requires |next| == |rows| == |after| && (next == rows || next == Mark(rows, batch[0]))
    requires OthersLeft(next, batch[1..], after, restSent)
    requires sent == restSent || sent == [batch[0]] + restSent
    ensures OthersLeft(rows, batch, after, sent)
    ensures batch[0] !in restSent && after[batch[0]] == next[batch[0]]
  {
    assert forall i :: i in batch <==> i == batch[0] || i in batch[1..];
  }

  lemma EndedRow(schemas: Schemas, rows: seq<Row>, batch: seq<nat>, fates: seq<Fate>, k: nat)
    requires InRange(rows, batch) && |fates| == |batch| && k < |batch|
    requires !Good(schemas, rows[batch[0]]) && fates[0] == UpdateThrows
    ensures RowDone(schemas, rows, batch, fates, k, rows, [])
  {
  }

  lemma FirstRow(schemas: Schemas, rows: seq<Row>, batch: seq<nat>, fates: seq<Fate>, after: seq<Row>, sent: seq<nat>)
    requires InRange(rows, batch) && |fates| == |batch| && batch != [] && |after| == |rows|
    requires Good(schemas, rows[batch[0]]) || fates[0] != UpdateThrows
    requires batch[0] in sent <==> Good(schemas, rows[batch[0]]) && fates[0] != PublishThrows
    requires after[batch[0]] ==
               (if fates[0] == Fine || !Good(schemas, rows[batch[0]]) then Mark(rows, batch[0]) else rows)[batch[0]]
    ensures RowDone(schemas, rows, batch, fates, 0, after, sent)
  {
    hide Good;
  }

  lemma MarkedGood(schemas: Schemas, row: Row)
    ensures Good(schemas, row.(status := PROCESSED)) == Good(schemas, row)
  {
  }

  // ---- one tick without failures ----

  /** The rows when the whole batch is marked. */
  function AfterTick(rows: seq<Row>, batch: seq<nat>): (r: seq<Row>)
    ensures |r| == |rows|
  {
    seq(|rows|, i requires 0 <= i < |rows| => if i in batch then rows[i].(status := PROCESSED) else rows[i])
  }

  /** When nothing fails, the whole batch is marked, and exactly its good rows are published. */
  lemma {:induction false} FailureFreeTick(schemas: Schemas, rows: seq<Row>, batch: seq<nat>, fates: seq<Fate>)
    requires InRange(rows, batch) && |fates| == |batch| && forall k :: 0 <= k < |fates| ==> fates[k] == Fine
    ensures
      var (after, sent) := TickEffect(schemas, rows, batch, fates);
      && after == AfterTick(rows, batch)
      && (forall i :: i in sent <==> i in batch && Good(schemas, rows[i]))
    decreases |batch|
  {
    if batch == [] {
      assert AfterTick(rows, batch) == rows;
    } else {
      var marked := Mark(rows, batch[0]);
      FailureFreeTick(schemas, marked, batch[1..], fates[1..]);
      assert forall i: nat :: i < |rows| ==> Good(schemas, marked[i]) == Good(schemas, rows[i]);
      assert forall i: nat :: i in batch <==> i == batch[0] || i in batch[1..];
      assert AfterTick(marked, batch[1..]) == AfterTick(rows, batch);
    }
  }

  // ---- draining ----

  /** The query found as many pending rows as it may return. */
  ghost predicate FullFetch(rows: seq<Row>, batch: seq<nat>) {
    var pending := |PendingRows(rows)|;
    IsFetch(rows, batch) && |batch| == if pending < PENDING_FETCH_LIMIT then pending else PENDING_FETCH_LIMIT
  }

  /** The rows after a tick over this batch in which nothing fails. */
  function AfterPoll(schemas: Schemas, rows: seq<Row>, batch: seq<nat>): (r: seq<Row>)
    requires InRange(rows, batch)
  {
    TickEffect(schemas, rows, batch, seq(|batch|, _ => Fine)).0
  }

  /** A failure-free tick leaves as many pending rows fewer as it fetched. */
  lemma TickDrains(schemas: Schemas, rows: seq<Row>, batch: seq<nat>)
    requires IsFetch(rows, batch)
    ensures |PendingRows(AfterPoll(schemas, rows, batch))| == |PendingRows(rows)| - |batch|
  {
    hide TickEffect, Good;
    FailureFreeTick(schemas, rows, batch, seq(|batch|, _ => Fine));
    var fetched := set i: nat | i < |rows| && i in batch;
    assert PendingRows(AfterTick(rows, batch)) == PendingRows(rows) - fetched;
    assert fetched <= PendingRows(rows);
    DistinctCount(|rows|, batch);
  }

  lemma {:induction false} DistinctCount(n: nat, batch: seq<nat>)
    requires forall k :: 0 <= k < |batch| ==> batch[k] < n
    requires forall j, k :: 0 <= j < k < |batch| ==> batch[j] != batch[k]
    ensures |set i: nat | i < n && i in batch| == |batch|
  {
    if batch == [] {
      assert (set i: nat | i < n && i in batch) == {};
    } else {
      var m := |batch| - 1;
      DistinctCount(n, batch[..m]);
      assert batch == batch[..m] + [batch[m]];
      assert (set i: nat | i < n && i in batch) == (set i: nat | i < n && i in batch[..m]) + {batch[m]};
    }
  }

  /** Calls of PollOnce one after the other, in which nothing fails and each query returns all it may. */
  ghost predicate FullPolls(schemas: Schemas, rows: seq<Row>, batches: seq<seq<nat>>)
    decreases |batches|
  {
    batches == [] ||
    (FullFetch(rows, batches[0]) && FullPolls(schemas, AfterPoll(schemas, rows, batches[0]), batches[1..]))
  }

  ghost function AfterPolls(schemas: Schemas, rows: seq<Row>, batches: seq<seq<nat>>): seq<Row>
    requires FullPolls(schemas, rows, batches)
    decreases |batches|
  {
    if batches == [] then rows else AfterPolls(schemas, AfterPoll(schemas, rows, batches[0]), batches[1..])
  }

  /** k such calls take 20 k rows off, so they drain n rows exactly when k is at least n/20 rounded
      up. */
  lemma {:induction false} TicksDrain(schemas: Schemas, rows: seq<Row>, batches: seq<seq<nat>>)
    requires FullPolls(schemas, rows, batches)
    ensures
      var n, left := |PendingRows(rows)|, |PendingRows(AfterPolls(schemas, rows, batches))|;
      && left == (if n <= 20 * |batches| then 0 else n - 20 * |batches|)
      && (left == 0 <==> |batches| >= (n + 19) / 20)
    decreases |batches|
  {
    hide AfterPoll;
    if batches != [] {
      TickDrains(schemas, rows, batches[0]);
      TicksDrain(schemas, AfterPoll(schemas, rows, batches[0]), batches[1..]);
    }
  }
}
