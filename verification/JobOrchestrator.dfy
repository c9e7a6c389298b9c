/** The job worker: every message handler as a sequence of atomic steps over job rows and a log of
    published events, and what holds however the handlers interleave. */
module JobOrchestrator {
  import opened Wrappers

  type JobId = string
  type MessageId = nat

  /*** Rows and events ***/

  datatype RowStatus = Requested | Processing | Completed | Failed

  datatype TerminalReason = MaxAttempts

  datatype Row = Row(status: RowStatus, attempt: nat, isTerminal: bool, terminalReason: Option<TerminalReason>)

  datatype JobState = EnqueuedOrPending | Started | Retrying | Succeeded | FailedFinal

  datatype Event =
    | Status(job: JobId, state: JobState, attempt: nat)
    | JobResult(job: JobId, completed: bool, attempt: nat)
    | DeadJob(job: JobId, message: MessageId)
    | DeadMessage(message: MessageId)

  predicate IsTerminalEvent(e: Event) {
    e.Status? && (e.state.Succeeded? || e.state.FailedFinal?)
  }

  // The statements on one row; an update of a missing row does nothing.
  datatype RowChange = Keep | Insert | MarkProcessing(attempt: nat) | MarkCompleted | MarkRetrying | MarkTerminal

  function Changed(rows: map<JobId, Row>, job: JobId, change: RowChange): map<JobId, Row> {
    if change.Keep? then rows
    else if change.Insert? then if job in rows then rows else rows[job := Row(Requested, 0, false, None)]
    else if job !in rows then rows
    else
      var row := rows[job];
      match change
      case MarkProcessing(attempt) => rows[job := row.(status := Processing, attempt := attempt)]
      case MarkCompleted => rows[job := row.(status := Completed, isTerminal := true, terminalReason := None)]
      case MarkRetrying => rows[job := row.(status := Failed, isTerminal := false, terminalReason := None)]
      case MarkTerminal => rows[job := row.(status := Failed, isTerminal := true, terminalReason := Some(MaxAttempts))]
  }

  /*** One handler ***/

  datatype Content = OtherSubject | BadEnvelope | BadPayload | Valid(job: JobId)

  datatype Outcome = Ignored | Discarded | Duplicate | Done | GaveUp

  datatype Phase =
    | Waiting
    | AtStart
    | EmitEnqueued
    | DoMarkProcessing
    | EmitStarted
    | RunJob
    | DoMarkCompleted
    | EmitCompleted
    | EmitSucceeded
    | DoMarkTerminal
    | EmitFailed
    | EmitFailedFinal
    | EmitDeadJob
    | DoMarkRetrying
    | EmitRetrying
    | EmitDeadMessage
    | Nak
    | Ack(outcome: Outcome)
    | Acked(outcome: Outcome)

  // deliveries counts the times the consumer handed the message out.
  datatype Handler = Handler(content: Content, deliveries: nat, phase: Phase)

  datatype Effect = Effect(handler: Handler, change: RowChange, events: seq<Event>, runs: bool)

  function Go(h: Handler, phase: Phase): Effect {
    Effect(h.(phase := phase), Keep, [], false)
  }

  function Say(h: Handler, e: Event, phase: Phase): Effect {
    Effect(h.(phase := phase), Keep, [e], false)
  }

  function Mark(h: Handler, change: RowChange, phase: Phase): Effect {
    Effect(h.(phase := phase), change, [], false)
  }

  // The next atomic step of a message's handler. rowExists is what an insert would run into, and
  // runSucceeds is the outcome of the worker if the step runs it.
  function Act(h: Handler, id: MessageId, rowExists: bool, runSucceeds: bool, maxAttempts: int): Effect {
    var n := h.deliveries;
    match h.phase
    case Waiting => Effect(h.(deliveries := n + 1, phase := AtStart), Keep, [], false)
    case AtStart =>
      (match h.content
       case OtherSubject => Go(h, Ack(Ignored))
       case BadEnvelope => Go(h, if n >= maxAttempts then EmitDeadMessage else Nak)
       case BadPayload => Go(h, EmitDeadMessage)
       case Valid(job) =>
         if n != 1 then Go(h, DoMarkProcessing)
         else if rowExists then Go(h, Ack(Duplicate))
         else Mark(h, Insert, EmitEnqueued))
    case EmitDeadMessage => Say(h, DeadMessage(id), Ack(Discarded))
    case Nak => Go(h, Waiting)
    case Ack(outcome) => Go(h, Acked(outcome))
    case Acked(_) => Go(h, h.phase)
    case _ =>
      if !h.content.Valid? then Go(h, h.phase)
      else
        var job := h.content.job;
        match h.phase
        case EmitEnqueued => Say(h, Status(job, EnqueuedOrPending, 0), DoMarkProcessing)
        case DoMarkProcessing => Mark(h, MarkProcessing(n), EmitStarted)
        case EmitStarted => Say(h, Status(job, Started, n), RunJob)
        case RunJob =>
          Effect(h.(phase := if runSucceeds then DoMarkCompleted
                             else if n >= maxAttempts then DoMarkTerminal
                             else DoMarkRetrying), Keep, [], true)
        case DoMarkCompleted => Mark(h, MarkCompleted, EmitCompleted)
        case EmitCompleted => Say(h, JobResult(job, true, n), EmitSucceeded)
        case EmitSucceeded => Say(h, Status(job, Succeeded, n), Ack(Done))
        case DoMarkTerminal => Mark(h, MarkTerminal, EmitFailed)
        case EmitFailed => Say(h, JobResult(job, false, n), EmitFailedFinal)
        case EmitFailedFinal => Say(h, Status(job, FailedFinal, n), EmitDeadJob)
        case EmitDeadJob => Say(h, DeadJob(job, id), Ack(GaveUp))
        case DoMarkRetrying => Mark(h, MarkRetrying, EmitRetrying)
        case _ => Say(h, Status(job, Retrying, n), Nak)
  }

  /*** All handlers ***/

  datatype World = World(handlers: map<MessageId, Handler>, rows: map<JobId, Row>, log: seq<Event>,
                         runs: seq<(MessageId, JobId)>)

  function RowExists(w: World, h: Handler): bool {
    h.content.Valid? && h.content.job in w.rows
  }

  function Next(w: World, id: MessageId, runSucceeds: bool, maxAttempts: int): World {
    if id !in w.handlers then w
    else
      var h := w.handlers[id];
      var e := Act(h, id, RowExists(w, h), runSucceeds, maxAttempts);
      World(w.handlers[id := e.handler],
            if h.content.Valid? then Changed(w.rows, h.content.job, e.change) else w.rows,
            w.log + e.events,
            if e.runs && h.content.Valid? then w.runs + [(id, h.content.job)] else w.runs)
  }

  // A valid message that inserted its job's row.
  predicate Owns(h: Handler) {
    && h.content.Valid?
    && match h.phase
       case Waiting => h.deliveries >= 1
       case AtStart => h.deliveries > 1
       case Ack(outcome) => !outcome.Duplicate?
       case Acked(outcome) => !outcome.Duplicate?
       case _ => true
  }

  predicate OwnsJob(h: Handler, job: JobId) {
    Owns(h) && h.content.job == job
  }

  predicate Concerns(e: Event, job: JobId) {
    !e.DeadMessage? && e.job == job
  }

  function JobLog(log: seq<Event>, job: JobId): seq<Event> {
    if log == [] then []
    else
      var init, last := JobLog(log[..|log| - 1], job), log[|log| - 1];
      if Concerns(last, job) then init + [last] else init
  }

  // The events of a job before its n-th delivery starts: ENQUEUED, then STARTED and RETRYING for each earlier one.
  function Past(job: JobId, n: nat): seq<Event> {
    if n <= 1 then [Status(job, EnqueuedOrPending, 0)]
    else Past(job, n - 1) + [Status(job, Started, n - 1), Status(job, Retrying, n - 1)]
  }

  function StartedLog(job: JobId, n: nat): seq<Event> {
    Past(job, n) + [Status(job, Started, n)]
  }

  // The whole log of a job whose owner stands at this point.
  function ExpectedLog(h: Handler, id: MessageId): seq<Event>
    requires Owns(h)
  {
    var job, n := h.content.job, h.deliveries;
    match h.phase
    case EmitEnqueued => []
    case AtStart => Past(job, n)
    case DoMarkProcessing => Past(job, n)
    case EmitStarted => Past(job, n)
    case EmitSucceeded => StartedLog(job, n) + [JobResult(job, true, n)]
    case EmitFailedFinal => StartedLog(job, n) + [JobResult(job, false, n)]
    case EmitDeadJob => StartedLog(job, n) + [JobResult(job, false, n), Status(job, FailedFinal, n)]
    case Nak => Past(job, n + 1)
    case Waiting => Past(job, n + 1)
    case Ack(outcome) => FinalLog(job, id, n, outcome)
    case Acked(outcome) => FinalLog(job, id, n, outcome)
    case _ => StartedLog(job, n)
  }

  function FinalLog(job: JobId, id: MessageId, n: nat, outcome: Outcome): seq<Event> {
    if outcome.Done? then StartedLog(job, n) + [JobResult(job, true, n), Status(job, Succeeded, n)]
    else StartedLog(job, n) + [JobResult(job, false, n), Status(job, FailedFinal, n), DeadJob(job, id)]
  }

  function ExpectedRow(h: Handler): Row
    requires Owns(h)
  {
    var n := h.deliveries;
    var requested, retried := Row(Requested, 0, false, None), Row(Failed, if n > 0 then n - 1 else 0, false, None);
    var terminal := Row(Failed, n, true, Some(MaxAttempts));
    match h.phase
    case EmitEnqueued => requested
    case AtStart => retried
    case DoMarkProcessing => if n == 1 then requested else retried
    case EmitCompleted => Row(Completed, n, true, None)
    case EmitSucceeded => Row(Completed, n, true, None)
    case EmitFailed => terminal
    case EmitFailedFinal => terminal
    case EmitDeadJob => terminal
    case EmitRetrying => Row(Failed, n, false, None)
    case Nak => Row(Failed, n, false, None)
    case Waiting => Row(Failed, n, false, None)
    case Ack(outcome) => if outcome.Done? then Row(Completed, n, true, None) else terminal
    case Acked(outcome) => if outcome.Done? then Row(Completed, n, true, None) else terminal
    case _ => Row(Processing, n, false, None)
  }

  function DeliveryLimit(maxAttempts: int): nat {
    if maxAttempts > 1 then maxAttempts else 1
  }

  predicate GivingUp(phase: Phase) {
    || phase.DoMarkTerminal? || phase.EmitFailed? || phase.EmitFailedFinal? || phase.EmitDeadJob?
    || ((phase.Ack? || phase.Acked?) && phase.outcome.GaveUp?)
  }

  // Where the handler of a message can stand, given its content and its deliveries.
  predicate Sound(h: Handler, maxAttempts: int) {
    var n, limit := h.deliveries, DeliveryLimit(maxAttempts);
    && n <= limit
    && (h.phase.Waiting? ==> n < limit)
    && (!h.phase.Waiting? ==> n >= 1)
    && (h.phase.EmitEnqueued? ==> n == 1)
    && (h.phase.Nak? || h.phase.DoMarkRetrying? || h.phase.EmitRetrying? ==> n < maxAttempts)
    && match h.content
       case Valid(_) =>
         && !h.phase.EmitDeadMessage?
         && (h.phase.Ack? || h.phase.Acked? ==> !h.phase.outcome.Ignored? && !h.phase.outcome.Discarded?)
         && (GivingUp(h.phase) ==> n == limit)
       case _ =>
         h.phase.Waiting? || h.phase.AtStart? || h.phase.EmitDeadMessage? || h.phase.Nak?
         || ((h.phase.Ack? || h.phase.Acked?) && (h.phase.outcome.Ignored? || h.phase.outcome.Discarded?))
  }

  ghost predicate Matches(w: World, id: MessageId, h: Handler)
    requires Owns(h)
  {
    && h.content.job in w.rows && w.rows[h.content.job] == ExpectedRow(h)
    && JobLog(w.log, h.content.job) == ExpectedLog(h, id)
  }

  ghost predicate OneOwner(w: World) {
    forall id, id' | id in w.handlers && id' in w.handlers && Owns(w.handlers[id])
                     && OwnsJob(w.handlers[id'], w.handlers[id].content.job) :: id == id'
  }

  ghost predicate Owned(w: World, job: JobId) {
    exists id :: id in w.handlers && OwnsJob(w.handlers[id], job)
  }

  // A job is untouched until a message owns it; then its row and its log are a function of where its owner stands.
  ghost predicate Inv(w: World, maxAttempts: int) {
    && (forall id | id in w.handlers :: Sound(w.handlers[id], maxAttempts))
    && OneOwner(w)
    && (forall id | id in w.handlers && Owns(w.handlers[id]) :: Matches(w, id, w.handlers[id]))
    && (forall job | job in w.rows :: Owned(w, job))
    && (forall job | job !in w.rows :: JobLog(w.log, job) == [])
    && (forall run | run in w.runs :: run.0 in w.handlers && OwnsJob(w.handlers[run.0], run.1))
  }

  ghost predicate Initial(w: World) {
    && (forall id | id in w.handlers :: w.handlers[id].deliveries == 0 && w.handlers[id].phase == Waiting)
    && w.rows == map[] && w.log == [] && w.runs == []
  }

  /*** One step of one handler ***/

  lemma OwnerStep(h: Handler, id: MessageId, runSucceeds: bool, maxAttempts: int, rows: map<JobId, Row>)
    requires Sound(h, maxAttempts) && Owns(h)
    requires h.content.job in rows && rows[h.content.job] == ExpectedRow(h)
    ensures var e := Act(h, id, true, runSucceeds, maxAttempts);
            && Sound(e.handler, maxAttempts) && OwnsJob(e.handler, h.content.job)
            && Changed(rows, h.content.job, e.change) == rows[h.content.job := ExpectedRow(e.handler)]
  {
  }

  lemma OwnerLogStep(h: Handler, id: MessageId, runSucceeds: bool, maxAttempts: int)
    requires Sound(h, maxAttempts) && Owns(h)
    ensures var e := Act(h, id, true, runSucceeds, maxAttempts);
            && ExpectedLog(h, id) + e.events == ExpectedLog(e.handler, id)
            && (forall x | x in e.events :: Concerns(x, h.content.job))
  {
  }

  lemma OtherStep(h: Handler, id: MessageId, rowExists: bool, runSucceeds: bool, maxAttempts: int)
    requires Sound(h, maxAttempts) && !Owns(h)
    ensures var e := Act(h, id, rowExists, runSucceeds, maxAttempts);
            && Sound(e.handler, maxAttempts)
            && (forall x | x in e.events :: x.DeadMessage?)
            && (Owns(e.handler) <==> h.content.Valid? && h.phase.AtStart? && !rowExists)
            && (Owns(e.handler) ==> e.change.Insert? && e.events == [] && !e.runs && e.handler.content == h.content
                                    && ExpectedLog(e.handler, id) == []
                                    && ExpectedRow(e.handler) == Row(Requested, 0, false, None))
            && (!Owns(e.handler) ==> e.change.Keep? && (e.runs ==> !h.content.Valid?))
  {
  }

  lemma {:induction false} LogGrows(log: seq<Event>, events: seq<Event>, job: JobId)
    ensures (forall e | e in events :: Concerns(e, job)) ==> JobLog(log + events, job) == JobLog(log, job) + events
    ensures (forall e | e in events :: !Concerns(e, job)) ==> JobLog(log + events, job) == JobLog(log, job)
  {
    if events == [] {
      assert log + events == log;
    } else {
      var init, last := events[..|events| - 1], events[|events| - 1];
      assert events == init + [last] && (log + events)[..|log + events| - 1] == log + init;
      LogGrows(log, init, job);
    }
  }

  /*** Every interleaving ***/

  lemma OwnerUpdateKeepsInv(w: World, w': World, id: MessageId, h': Handler, job: JobId, maxAttempts: int)
    requires Inv(w, maxAttempts) && id in w.handlers && OwnsJob(w.handlers[id], job)
    requires Sound(h', maxAttempts) && OwnsJob(h', job)
    requires w'.handlers == w.handlers[id := h'] && w'.rows == w.rows[job := ExpectedRow(h')]
    requires forall other :: JobLog(w'.log, other) == if other == job then ExpectedLog(h', id) else JobLog(w.log, other)
    requires w'.runs == w.runs || w'.runs == w.runs + [(id, job)]
    ensures Inv(w', maxAttempts)
  {
    assert Matches(w, id, w.handlers[id]);
    forall other | other in w'.handlers && Owns(w'.handlers[other])
      ensures Matches(w', other, w'.handlers[other])
    {
      if other != id {
        assert Matches(w, other, w.handlers[other]);
      }
    }
    forall other | other in w'.rows
      ensures Owned(w', other)
    {
      assert Owned(w, other);
      var owner :| owner in w.handlers && OwnsJob(w.handlers[owner], other);
      assert OwnsJob(w'.handlers[owner], other);
    }
  }

  lemma OwnerStepKeepsInv(w: World, id: MessageId, runSucceeds: bool, maxAttempts: int)
    requires Inv(w, maxAttempts) && id in w.handlers && Owns(w.handlers[id])
    ensures Inv(Next(w, id, runSucceeds, maxAttempts), maxAttempts)
  {
    var h, w' := w.handlers[id], Next(w, id, runSucceeds, maxAttempts);
    var job := h.content.job;
    assert Matches(w, id, h);
    var e := Act(h, id, true, runSucceeds, maxAttempts);
    OwnerStep(h, id, runSucceeds, maxAttempts, w.rows);
    OwnerLogStep(h, id, runSucceeds, maxAttempts);
    forall other
      ensures JobLog(w'.log, other) == if other == job then ExpectedLog(e.handler, id) else JobLog(w.log, other)
    {
      LogGrows(w.log, e.events, other);
    }
    OwnerUpdateKeepsInv(w, w', id, e.handler, job, maxAttempts);
  }

  // A message that owns nothing moves on, and may take over a job nobody owns.
  lemma OtherUpdateKeepsInv(w: World, w': World, id: MessageId, h': Handler, maxAttempts: int)
    requires Inv(w, maxAttempts) && id in w.handlers && !Owns(w.handlers[id])
    requires Sound(h', maxAttempts) && w'.handlers == w.handlers[id := h'] && w'.runs == w.runs
    requires forall job :: JobLog(w'.log, job) == JobLog(w.log, job)
    requires Owns(h') ==> && h'.content.job !in w.rows && ExpectedLog(h', id) == []
                          && w'.rows == w.rows[h'.content.job := ExpectedRow(h')]
    requires !Owns(h') ==> w'.rows == w.rows
    ensures Inv(w', maxAttempts)
  {
    forall other | other in w'.handlers && Owns(w'.handlers[other])
      ensures Matches(w', other, w'.handlers[other])
    {
      if other != id {
        assert Matches(w, other, w.handlers[other]);
      }
    }
    forall other | other in w'.rows
      ensures Owned(w', other)
    {
      if other in w.rows {
        assert Owned(w, other);
        var owner :| owner in w.handlers && OwnsJob(w.handlers[owner], other);
        assert OwnsJob(w'.handlers[owner], other);
      } else {
        assert OwnsJob(w'.handlers[id], other);
      }
    }
    OwnersHaveRows(w, maxAttempts);
    OneOwnerAfter(w, w', id, h');
  }

  lemma OwnersHaveRows(w: World, maxAttempts: int)
    requires Inv(w, maxAttempts)
    ensures forall x | x in w.handlers && Owns(w.handlers[x]) :: w.handlers[x].content.job in w.rows
  {
    forall x | x in w.handlers && Owns(w.handlers[x])
      ensures w.handlers[x].content.job in w.rows
    {
      assert Matches(w, x, w.handlers[x]);
    }
  }

  lemma OneOwnerAfter(w: World, w': World, id: MessageId, h': Handler)
    requires OneOwner(w) && id in w.handlers && !Owns(w.handlers[id]) && w'.handlers == w.handlers[id := h']
    requires forall x | x in w.handlers && Owns(w.handlers[x]) :: w.handlers[x].content.job in w.rows
    requires Owns(h') ==> h'.content.job !in w.rows
    ensures OneOwner(w')
  {
  }

  lemma OtherStepKeepsInv(w: World, id: MessageId, runSucceeds: bool, maxAttempts: int)
    requires Inv(w, maxAttempts) && id in w.handlers && !Owns(w.handlers[id])
    ensures Inv(Next(w, id, runSucceeds, maxAttempts), maxAttempts)
  {
    var h, w' := w.handlers[id], Next(w, id, runSucceeds, maxAttempts);
    var e := Act(h, id, RowExists(w, h), runSucceeds, maxAttempts);
    OtherStep(h, id, RowExists(w, h), runSucceeds, maxAttempts);
    forall job
      ensures JobLog(w'.log, job) == JobLog(w.log, job)
    {
      LogGrows(w.log, e.events, job);
    }
    OtherUpdateKeepsInv(w, w', id, e.handler, maxAttempts);
  }

  // A message whose job another message owns is only moved to its acknowledgement.
  lemma DuplicateTouchesNothing(w: World, id: MessageId, runSucceeds: bool, maxAttempts: int)
    requires Inv(w, maxAttempts) && id in w.handlers && w.handlers[id].content.Valid? && !Owns(w.handlers[id])
    requires w.handlers[id].content.job in w.rows
    ensures var w' := Next(w, id, runSucceeds, maxAttempts);
            && w'.rows == w.rows && w'.log == w.log && w'.runs == w.runs && !Owns(w'.handlers[id])
            && (w.handlers[id].phase.AtStart? ==> w'.handlers[id].phase == Ack(Duplicate))
  {
    OtherStep(w.handlers[id], id, true, runSucceeds, maxAttempts);
  }

  lemma StepKeepsInv(w: World, id: MessageId, runSucceeds: bool, maxAttempts: int)
    requires Inv(w, maxAttempts)
    ensures Inv(Next(w, id, runSucceeds, maxAttempts), maxAttempts)
  {
    if id in w.handlers {
      if Owns(w.handlers[id]) {
        OwnerStepKeepsInv(w, id, runSucceeds, maxAttempts);
      } else {
        OtherStepKeepsInv(w, id, runSucceeds, maxAttempts);
      }
    }
  }

  // A schedule says which handler takes each next step and how a job run in it would end.
  type Schedule = seq<(MessageId, bool)>

  function Run(w: World, schedule: Schedule, maxAttempts: int): World
    decreases schedule
  {
    if schedule == [] then w
    else Run(Next(w, schedule[0].0, schedule[0].1, maxAttempts), schedule[1..], maxAttempts)
  }

  lemma {:induction false} RunKeepsInv(w: World, schedule: Schedule, maxAttempts: int)
    requires Inv(w, maxAttempts)
    ensures Inv(Run(w, schedule, maxAttempts), maxAttempts)
    decreases schedule
  {
    if schedule != [] {
      StepKeepsInv(w, schedule[0].0, schedule[0].1, maxAttempts);
      RunKeepsInv(Next(w, schedule[0].0, schedule[0].1, maxAttempts), schedule[1..], maxAttempts);
    }
  }

  // In every interleaving a job is run for one message only.
  lemma OneRunnerPerJob(w: World, schedule: Schedule, maxAttempts: int, a: (MessageId, JobId), b: (MessageId, JobId))
    requires Initial(w)
    requires a in Run(w, schedule, maxAttempts).runs && b in Run(w, schedule, maxAttempts).runs && a.1 == b.1
    ensures a.0 == b.0
  {
    RunKeepsInv(w, schedule, maxAttempts);
  }

  /*** Duplicates are invisible ***/

  predicate IsDuplicate(w: World, id: MessageId) {
    && id in w.handlers && w.handlers[id].content.Valid? && !Owns(w.handlers[id])
    && w.handlers[id].content.job in w.rows
  }

  // The same rows, log, runs and handlers, except for where this message stands.
  predicate SameBut(w: World, v: World, id: MessageId) {
    && w.rows == v.rows && w.log == v.log && w.runs == v.runs
    && w.handlers - {id} == v.handlers - {id}
  }

  function Without(schedule: Schedule, id: MessageId): Schedule {
    if schedule == [] then []
    else if schedule[0].0 == id then Without(schedule[1..], id)
    else [schedule[0]] + Without(schedule[1..], id)
  }

  lemma OthersStepAlike(w: World, v: World, id: MessageId, x: MessageId, runSucceeds: bool, maxAttempts: int)
    requires SameBut(w, v, id) && x != id
    ensures SameBut(Next(w, x, runSucceeds, maxAttempts), Next(v, x, runSucceeds, maxAttempts), id)
  {
    assert x in w.handlers <==> x in w.handlers - {id};
    assert x in v.handlers <==> x in v.handlers - {id};
    if x in w.handlers {
      assert w.handlers[x] == (w.handlers - {id})[x] == (v.handlers - {id})[x] == v.handlers[x];
      var h' := Act(w.handlers[x], x, RowExists(w, w.handlers[x]), runSucceeds, maxAttempts).handler;
      assert w.handlers[x := h'] - {id} == (w.handlers - {id})[x := h'];
      assert v.handlers[x := h'] - {id} == (v.handlers - {id})[x := h'];
    }
  }

  lemma DuplicateStaysDuplicate(w: World, id: MessageId, x: MessageId, runSucceeds: bool, maxAttempts: int)
    requires Inv(w, maxAttempts) && IsDuplicate(w, id)
    ensures IsDuplicate(Next(w, x, runSucceeds, maxAttempts), id)
  {
    if x == id {
      DuplicateTouchesNothing(w, id, runSucceeds, maxAttempts);
    }
  }

  // Every run goes exactly as it would if a duplicate message took no steps at all.
  lemma {:induction false} DuplicatesAreInvisible(w: World, v: World, schedule: Schedule, id: MessageId,
                                                  maxAttempts: int)
    requires Inv(w, maxAttempts) && IsDuplicate(w, id) && SameBut(w, v, id)
    ensures SameBut(Run(w, schedule, maxAttempts), Run(v, Without(schedule, id), maxAttempts), id)
    decreases schedule
  {
    if schedule != [] {
      var x, ok, rest := schedule[0].0, schedule[0].1, schedule[1..];
      var w' := Next(w, x, ok, maxAttempts);
      StepKeepsInv(w, x, ok, maxAttempts);
      DuplicateStaysDuplicate(w, id, x, ok, maxAttempts);
      if x == id {
        DuplicateTouchesNothing(w, id, ok, maxAttempts);
        assert w'.handlers - {id} == w.handlers - {id};
        DuplicatesAreInvisible(w', v, rest, id, maxAttempts);
      } else {
        OthersStepAlike(w, v, id, x, ok, maxAttempts);
        DuplicatesAreInvisible(w', Next(v, x, ok, maxAttempts), rest, id, maxAttempts);
        assert Without(schedule, id)[1..] == Without(rest, id);
      }
    }
  }

  /*** Complete endings ***/

  // A handler that is through ended within the delivery limit: as a duplicate that ran nothing, or with
  // the complete log and the terminal row of its job.
  ghost predicate Complete(w: World, id: MessageId, h: Handler, maxAttempts: int)
    requires h.content.Valid? && h.phase.Acked?
  {
    var job, n := h.content.job, h.deliveries;
    && 1 <= n <= DeliveryLimit(maxAttempts)
    && match h.phase.outcome
       case Duplicate => forall run | run in w.runs :: run.0 != id
       case Done => JobLog(w.log, job) == FinalLog(job, id, n, Done) && job in w.rows
                    && w.rows[job] == Row(Completed, n, true, None)
       case GaveUp => JobLog(w.log, job) == FinalLog(job, id, n, GaveUp) && n == DeliveryLimit(maxAttempts)
                      && job in w.rows && w.rows[job] == Row(Failed, n, true, Some(MaxAttempts))
       case _ => false
  }

  lemma JobsEndCompletely(w: World, schedule: Schedule, maxAttempts: int, id: MessageId)
    requires Initial(w) && id in Run(w, schedule, maxAttempts).handlers
    requires Run(w, schedule, maxAttempts).handlers[id].content.Valid?
    requires Run(w, schedule, maxAttempts).handlers[id].phase.Acked?
    ensures Complete(Run(w, schedule, maxAttempts), id, Run(w, schedule, maxAttempts).handlers[id], maxAttempts)
  {
    RunKeepsInv(w, schedule, maxAttempts);
    AckedIsComplete(Run(w, schedule, maxAttempts), id, maxAttempts);
  }

  lemma AckedIsComplete(w: World, id: MessageId, maxAttempts: int)
    requires Inv(w, maxAttempts) && id in w.handlers && w.handlers[id].content.Valid? && w.handlers[id].phase.Acked?
    ensures Complete(w, id, w.handlers[id], maxAttempts)
  {
    if Owns(w.handlers[id]) {
      assert Matches(w, id, w.handlers[id]);
    }
  }

  // At rest, a job's row is terminal exactly when its terminal event is in the log.
  lemma TerminalRowIffEvent(w: World, maxAttempts: int, id: MessageId)
    requires Inv(w, maxAttempts) && id in w.handlers && Owns(w.handlers[id])
    requires w.handlers[id].phase.Waiting? || w.handlers[id].phase.Acked?
    ensures var job := w.handlers[id].content.job;
            && job in w.rows
            && (w.rows[job].isTerminal <==> exists e :: e in w.log && Concerns(e, job) && IsTerminalEvent(e))
  {
    var h := w.handlers[id];
    var job := h.content.job;
    assert Matches(w, id, h);
    forall e
      ensures e in w.log && Concerns(e, job) <==> e in ExpectedLog(h, id)
    {
      InJobLog(w.log, job, e);
    }
    PastNotTerminal(job, h.deliveries + 1);
    if h.phase.Acked? {
      var last := Status(job, if h.phase.outcome.Done? then Succeeded else FailedFinal, h.deliveries);
      assert last in FinalLog(job, id, h.deliveries, h.phase.outcome);
    }
  }

  lemma {:induction false} InJobLog(log: seq<Event>, job: JobId, e: Event)
    ensures e in JobLog(log, job) <==> e in log && Concerns(e, job)
  {
    if log != [] {
      assert log == log[..|log| - 1] + [log[|log| - 1]];
      InJobLog(log[..|log| - 1], job, e);
    }
  }

  lemma {:induction false} PastNotTerminal(job: JobId, n: nat)
    ensures forall e | e in Past(job, n) :: !IsTerminalEvent(e)
  {
    if n > 1 {
      PastNotTerminal(job, n - 1);
    }
  }

  /*** Every message is through after boundedly many of its steps ***/

  function Rank(phase: Phase): nat {
    match phase
    case AtStart => 13
    case EmitEnqueued => 12
    case DoMarkProcessing => 11
    case EmitStarted => 10
    case RunJob => 9
    case DoMarkCompleted => 8
    case EmitCompleted => 7
    case EmitSucceeded => 6
    case DoMarkTerminal => 8
    case EmitFailed => 7
    case EmitFailedFinal => 6
    case EmitDeadJob => 5
    case DoMarkRetrying => 8
    case EmitRetrying => 7
    case EmitDeadMessage => 5
    case Nak => 4
    case Ack(_) => 2
    case Waiting => 1
    case Acked(_) => 1
  }

  // An upper bound on the steps a message still takes.
  function StepsLeft(h: Handler, maxAttempts: int): int {
    if h.phase.Acked? then 0 else 20 * (DeliveryLimit(maxAttempts) - h.deliveries) + Rank(h.phase)
  }

  lemma StepDescends(h: Handler, id: MessageId, rowExists: bool, runSucceeds: bool, maxAttempts: int)
    requires Sound(h, maxAttempts) && !h.phase.Acked?
    ensures var next := Act(h, id, rowExists, runSucceeds, maxAttempts).handler;
            0 <= StepsLeft(next, maxAttempts) < StepsLeft(h, maxAttempts)
  {
  }

  function StepsOf(schedule: Schedule, id: MessageId): nat {
    if schedule == [] then 0 else (if schedule[0].0 == id then 1 else 0) + StepsOf(schedule[1..], id)
  }

  // Whatever the other handlers do and however the runs end, a message that gets this many steps is through.
  lemma {:induction false} EveryMessageEnds(w: World, schedule: Schedule, maxAttempts: int, id: MessageId)
    requires Inv(w, maxAttempts) && id in w.handlers
    requires StepsOf(schedule, id) >= StepsLeft(w.handlers[id], maxAttempts)
    ensures id in Run(w, schedule, maxAttempts).handlers && Run(w, schedule, maxAttempts).handlers[id].phase.Acked?
    decreases schedule
  {
    var h := w.handlers[id];
    if schedule == [] {
      assert Sound(h, maxAttempts);
    } else {
      var next := Next(w, schedule[0].0, schedule[0].1, maxAttempts);
      StepKeepsInv(w, schedule[0].0, schedule[0].1, maxAttempts);
      if schedule[0].0 == id && !h.phase.Acked? {
        StepDescends(h, id, RowExists(w, h), schedule[0].1, maxAttempts);
      }
      EveryMessageEnds(next, schedule[1..], maxAttempts, id);
    }
  }

  /*** The handler as one method ***/

  // k steps of one message's handler with nothing in between.
  function Solo(w: World, id: MessageId, runSucceeds: bool, maxAttempts: int, k: nat): World {
    if k == 0 then w else Next(Solo(w, id, runSucceeds, maxAttempts, k - 1), id, runSucceeds, maxAttempts)
  }

  ghost predicate Reaches(w: World, w': World, id: MessageId, runSucceeds: bool, maxAttempts: int) {
    exists k: nat :: w' == Solo(w, id, runSucceeds, maxAttempts, k)
  }

  function OneHandler(id: MessageId, h: Handler, rows: map<JobId, Row>, log: seq<Event>,
                      runs: seq<(MessageId, JobId)>): World {
    World(map[id := h], rows, log, runs)
  }

  lemma ReachesNext(w: World, v: World, id: MessageId, runSucceeds: bool, maxAttempts: int)
    requires Reaches(w, v, id, runSucceeds, maxAttempts)
    ensures Reaches(w, Next(v, id, runSucceeds, maxAttempts), id, runSucceeds, maxAttempts)
  {
    var k: nat :| v == Solo(w, id, runSucceeds, maxAttempts, k);
    assert Next(v, id, runSucceeds, maxAttempts) == Solo(w, id, runSucceeds, maxAttempts, k + 1);
  }

  // A delivery count the metadata does not give, or gives as zero or less, counts as one.
  function DeliveryAttempt(numDelivered: Option<int>): (attempt: nat)
    ensures attempt >= 1 && (numDelivered.Some? && numDelivered.value >= 1 ==> attempt == numDelivered.value)
  {
    if numDelivered.Some? && numDelivered.value > 0 then numDelivered.value else 1
  }

  datatype Answer = SendAck | SendNak

  // What one uninterrupted delivery leaves behind.
  datatype Handled = Handled(rows: map<JobId, Row>, log: seq<Event>, runs: seq<(MessageId, JobId)>, phase: Phase)

  function HandledWorld(id: MessageId, content: Content, n: nat, end: Handled): World {
    OneHandler(id, Handler(content, n, end.phase), end.rows, end.log, end.runs)
  }

  lemma StepTo(w: World, id: MessageId, content: Content, n: nat, runSucceeds: bool, maxAttempts: int,
               a: Handled, e: Effect, b: Handled)
    requires Reaches(w, HandledWorld(id, content, n, a), id, runSucceeds, maxAttempts)
    requires e == Act(Handler(content, n, a.phase), id, content.Valid? && content.job in a.rows, runSucceeds,
                      maxAttempts)
    requires e.handler == Handler(content, n, b.phase)
    requires b.rows == if content.Valid? then Changed(a.rows, content.job, e.change) else a.rows
    requires b.log == a.log + e.events
    requires b.runs == if e.runs && content.Valid? then a.runs + [(id, content.job)] else a.runs
    ensures Reaches(w, HandledWorld(id, content, n, b), id, runSucceeds, maxAttempts)
  {
    ReachesNext(w, HandledWorld(id, content, n, a), id, runSucceeds, maxAttempts);
    var next := Next(HandledWorld(id, content, n, a), id, runSucceeds, maxAttempts);
    assert next.handlers == map[id := Handler(content, n, b.phase)];
  }

  // The stretches of one delivery, each as the steps it is made of.

  lemma IgnoreSteps(w: World, id: MessageId, n: nat, ok: bool, maxAttempts: int, a: Handled)
    requires a.phase == AtStart && Reaches(w, HandledWorld(id, OtherSubject, n, a), id, ok, maxAttempts)
    ensures Reaches(w, HandledWorld(id, OtherSubject, n, a.(phase := Acked(Ignored))), id, ok, maxAttempts)
  {
    var h := Handler(OtherSubject, n, AtStart);
    assert a.log + [] == a.log;
    StepTo(w, id, OtherSubject, n, ok, maxAttempts, a, Go(h, Ack(Ignored)), a.(phase := Ack(Ignored)));
    StepTo(w, id, OtherSubject, n, ok, maxAttempts, a.(phase := Ack(Ignored)), Go(h, Acked(Ignored)),
           a.(phase := Acked(Ignored)));
  }

  lemma BadEnvelopeRetrySteps(w: World, id: MessageId, n: nat, ok: bool, maxAttempts: int, a: Handled)
    requires n < maxAttempts && a.phase == AtStart
    requires Reaches(w, HandledWorld(id, BadEnvelope, n, a), id, ok, maxAttempts)
    ensures Reaches(w, HandledWorld(id, BadEnvelope, n, a.(phase := Waiting)), id, ok, maxAttempts)
  {
    var h := Handler(BadEnvelope, n, AtStart);
    assert a.log + [] == a.log;
    StepTo(w, id, BadEnvelope, n, ok, maxAttempts, a, Go(h, Nak), a.(phase := Nak));
    StepTo(w, id, BadEnvelope, n, ok, maxAttempts, a.(phase := Nak), Go(h, Waiting), a.(phase := Waiting));
  }

  lemma DiscardSteps(w: World, id: MessageId, content: Content, n: nat, ok: bool, maxAttempts: int, a: Handled)
    requires content.BadPayload? || (content.BadEnvelope? && n >= maxAttempts)
    requires a.phase == AtStart && Reaches(w, HandledWorld(id, content, n, a), id, ok, maxAttempts)
    ensures Reaches(w, HandledWorld(id, content, n, a.(log := a.log + [DeadMessage(id)], phase := Acked(Discarded))),
                    id, ok, maxAttempts)
  {
    var h := Handler(content, n, AtStart);
    var b := a.(phase := EmitDeadMessage);
    var c := a.(log := a.log + [DeadMessage(id)], phase := Ack(Discarded));
    assert a.log + [] == a.log && c.log + [] == c.log;
    StepTo(w, id, content, n, ok, maxAttempts, a, Go(h, EmitDeadMessage), b);
    StepTo(w, id, content, n, ok, maxAttempts, b, Say(h, DeadMessage(id), Ack(Discarded)), c);
    StepTo(w, id, content, n, ok, maxAttempts, c, Go(h, Acked(Discarded)), c.(phase := Acked(Discarded)));
  }

  lemma DuplicateSteps(w: World, id: MessageId, job: JobId, ok: bool, maxAttempts: int, a: Handled)
    requires job in a.rows && a.phase == AtStart
    requires Reaches(w, HandledWorld(id, Valid(job), 1, a), id, ok, maxAttempts)
    ensures Reaches(w, HandledWorld(id, Valid(job), 1, a.(phase := Acked(Duplicate))), id, ok, maxAttempts)
  {
    var h := Handler(Valid(job), 1, AtStart);
    assert a.log + [] == a.log;
    StepTo(w, id, Valid(job), 1, ok, maxAttempts, a, Go(h, Ack(Duplicate)), a.(phase := Ack(Duplicate)));
    StepTo(w, id, Valid(job), 1, ok, maxAttempts, a.(phase := Ack(Duplicate)), Go(h, Acked(Duplicate)),
           a.(phase := Acked(Duplicate)));
  }

  lemma RegisterSteps(w: World, id: MessageId, job: JobId, ok: bool, maxAttempts: int, a: Handled, b: Handled)
    requires job !in a.rows && a.phase == AtStart
    requires Reaches(w, HandledWorld(id, Valid(job), 1, a), id, ok, maxAttempts)
    requires b == Handled(Changed(a.rows, job, Insert), a.log + [Status(job, EnqueuedOrPending, 0)], a.runs,
                          DoMarkProcessing)
    ensures Reaches(w, HandledWorld(id, Valid(job), 1, b), id, ok, maxAttempts)
  {
    var h := Handler(Valid(job), 1, AtStart);
    assert a.log + [] == a.log;
    var registered := a.(rows := b.rows, phase := EmitEnqueued);
    StepTo(w, id, Valid(job), 1, ok, maxAttempts, a, Mark(h, Insert, EmitEnqueued), registered);
    StepTo(w, id, Valid(job), 1, ok, maxAttempts, registered, Say(h, Status(job, EnqueuedOrPending, 0), b.phase), b);
  }

  lemma RedeliverySteps(w: World, id: MessageId, job: JobId, n: nat, ok: bool, maxAttempts: int, a: Handled)
    requires n != 1 && a.phase == AtStart && Reaches(w, HandledWorld(id, Valid(job), n, a), id, ok, maxAttempts)
    ensures Reaches(w, HandledWorld(id, Valid(job), n, a.(phase := DoMarkProcessing)), id, ok, maxAttempts)
  {
    assert a.log + [] == a.log;
    StepTo(w, id, Valid(job), n, ok, maxAttempts, a, Go(Handler(Valid(job), n, AtStart), DoMarkProcessing),
           a.(phase := DoMarkProcessing));
  }

  function AfterRun(ok: bool, n: nat, maxAttempts: int): Phase {
    if ok then DoMarkCompleted else if n >= maxAttempts then DoMarkTerminal else DoMarkRetrying
  }

  lemma StartSteps(w: World, id: MessageId, job: JobId, n: nat, ok: bool, maxAttempts: int, a: Handled, d: Handled)
    requires a.phase == DoMarkProcessing && Reaches(w, HandledWorld(id, Valid(job), n, a), id, ok, maxAttempts)
    requires d == Handled(Changed(a.rows, job, MarkProcessing(n)), a.log + [Status(job, Started, n)],
                          a.runs + [(id, job)], AfterRun(ok, n, maxAttempts))
    ensures Reaches(w, HandledWorld(id, Valid(job), n, d), id, ok, maxAttempts)
  {
    var h := Handler(Valid(job), n, AtStart);
    assert a.log + [] == a.log && d.log + [] == d.log;
    var b := a.(rows := d.rows, phase := EmitStarted);
    var c := b.(log := d.log, phase := RunJob);
    StepTo(w, id, Valid(job), n, ok, maxAttempts, a, Mark(h, MarkProcessing(n), EmitStarted), b);
    StepTo(w, id, Valid(job), n, ok, maxAttempts, b, Say(h, Status(job, Started, n), RunJob), c);
    StepTo(w, id, Valid(job), n, ok, maxAttempts, c, Effect(h.(phase := d.phase), Keep, [], true), d);
  }

  lemma FinishSteps(w: World, id: MessageId, job: JobId, n: nat, maxAttempts: int, a: Handled, f: Handled)
    requires a.phase == DoMarkCompleted && Reaches(w, HandledWorld(id, Valid(job), n, a), id, true, maxAttempts)
    requires f == Handled(Changed(a.rows, job, MarkCompleted),
                          a.log + [JobResult(job, true, n)] + [Status(job, Succeeded, n)], a.runs, Acked(Done))
    ensures Reaches(w, HandledWorld(id, Valid(job), n, f), id, true, maxAttempts)
  {
    var h := Handler(Valid(job), n, AtStart);
    assert a.log + [] == a.log;
    var b := a.(rows := f.rows, phase := EmitCompleted);
    var c := b.(log := a.log + [JobResult(job, true, n)], phase := EmitSucceeded);
    StepTo(w, id, Valid(job), n, true, maxAttempts, a, Mark(h, MarkCompleted, EmitCompleted), b);
    StepTo(w, id, Valid(job), n, true, maxAttempts, b, Say(h, JobResult(job, true, n), EmitSucceeded), c);
    LastWordSteps(w, id, job, n, true, maxAttempts, c, Status(job, Succeeded, n), Done, f);
  }

  lemma LastWordSteps(w: World, id: MessageId, job: JobId, n: nat, ok: bool, maxAttempts: int, a: Handled, e: Event,
                      outcome: Outcome, f: Handled)
    requires Reaches(w, HandledWorld(id, Valid(job), n, a), id, ok, maxAttempts)
    requires if outcome.Done? then a.phase == EmitSucceeded && e == Status(job, Succeeded, n)
             else outcome.GaveUp? && a.phase == EmitDeadJob && e == DeadJob(job, id)
    requires f == Handled(a.rows, a.log + [e], a.runs, Acked(outcome))
    ensures Reaches(w, HandledWorld(id, Valid(job), n, f), id, ok, maxAttempts)
  {
    var h := Handler(Valid(job), n, AtStart);
    assert f.log + [] == f.log;
    StepTo(w, id, Valid(job), n, ok, maxAttempts, a, Say(h, e, Ack(outcome)), f.(phase := Ack(outcome)));
    StepTo(w, id, Valid(job), n, ok, maxAttempts, f.(phase := Ack(outcome)), Go(h, Acked(outcome)), f);
  }

  lemma GiveUpSteps(w: World, id: MessageId, job: JobId, n: nat, maxAttempts: int, a: Handled, f: Handled)
    requires a.phase == DoMarkTerminal && Reaches(w, HandledWorld(id, Valid(job), n, a), id, false, maxAttempts)
    requires f == Handled(Changed(a.rows, job, MarkTerminal),
                          a.log + [JobResult(job, false, n)] + [Status(job, FailedFinal, n)] + [DeadJob(job, id)],
                          a.runs, Acked(GaveUp))
    ensures Reaches(w, HandledWorld(id, Valid(job), n, f), id, false, maxAttempts)
  {
    var h := Handler(Valid(job), n, AtStart);
    assert a.log + [] == a.log;
    var b := a.(rows := f.rows, phase := EmitFailed);
    var c := b.(log := a.log + [JobResult(job, false, n)], phase := EmitFailedFinal);
    var d := c.(log := c.log + [Status(job, FailedFinal, n)], phase := EmitDeadJob);
    StepTo(w, id, Valid(job), n, false, maxAttempts, a, Mark(h, MarkTerminal, EmitFailed), b);
    StepTo(w, id, Valid(job), n, false, maxAttempts, b, Say(h, JobResult(job, false, n), EmitFailedFinal), c);
    StepTo(w, id, Valid(job), n, false, maxAttempts, c, Say(h, Status(job, FailedFinal, n), EmitDeadJob), d);
    LastWordSteps(w, id, job, n, false, maxAttempts, d, DeadJob(job, id), GaveUp, f);
  }

  lemma RetrySteps(w: World, id: MessageId, job: JobId, n: nat, maxAttempts: int, a: Handled, f: Handled)
    requires a.phase == DoMarkRetrying && Reaches(w, HandledWorld(id, Valid(job), n, a), id, false, maxAttempts)
    requires f == Handled(Changed(a.rows, job, MarkRetrying), a.log + [Status(job, Retrying, n)], a.runs, Waiting)
    ensures Reaches(w, HandledWorld(id, Valid(job), n, f), id, false, maxAttempts)
  {
    var h := Handler(Valid(job), n, AtStart);
    assert a.log + [] == a.log;
    var b := a.(rows := f.rows, phase := EmitRetrying);
    StepTo(w, id, Valid(job), n, false, maxAttempts, a, Mark(h, MarkRetrying, EmitRetrying), b);
    RefuseSteps(w, id, job, n, maxAttempts, b, f);
  }

  lemma RefuseSteps(w: World, id: MessageId, job: JobId, n: nat, maxAttempts: int, b: Handled, f: Handled)
    requires b.phase == EmitRetrying && Reaches(w, HandledWorld(id, Valid(job), n, b), id, false, maxAttempts)
    requires f == Handled(b.rows, b.log + [Status(job, Retrying, n)], b.runs, Waiting)
    ensures Reaches(w, HandledWorld(id, Valid(job), n, f), id, false, maxAttempts)
  {
    var h := Handler(Valid(job), n, AtStart);
    assert f.log + [] == f.log;
    StepTo(w, id, Valid(job), n, false, maxAttempts, b, Say(h, Status(job, Retrying, n), Nak), f.(phase := Nak));
    StepTo(w, id, Valid(job), n, false, maxAttempts, f.(phase := Nak), Go(h, Waiting), f);
  }

  class Worker {
    var rows: map<JobId, Row>
    var log: seq<Event>
    var runs: seq<(MessageId, JobId)>
    const maxAttempts: int

    constructor (limit: int)
      ensures rows == map[] && log == [] && runs == [] && maxAttempts == limit
    {
      rows, log, runs, maxAttempts := map[], [], [], limit;
    }

    method Update(job: JobId, change: RowChange)
      modifies this`rows
      ensures rows == Changed(old(rows), job, change)
    {
      rows := Changed(rows, job, change);
    }

    method Publish(e: Event)
      modifies this`log
      ensures log == old(log) + [e]
    {
      log := log + [e];
    }

    // Without interruption the handler does exactly its steps, from delivery to the answer.
    method ProcessMessage(id: MessageId, content: Content, numDelivered: Option<int>, runSucceeds: bool)
      returns (answer: Answer, ghost end: Phase)
      modifies this
      ensures Reaches(HandledWorld(id, content, DeliveryAttempt(numDelivered), old(Handled(rows, log, runs, AtStart))),
                      HandledWorld(id, content, DeliveryAttempt(numDelivered), Handled(rows, log, runs, end)),
                      id, runSucceeds, maxAttempts)
      ensures if answer.SendAck? then end.Acked? else end.Waiting?
    {
      var n := DeliveryAttempt(numDelivered);
      ghost var a := Handled(rows, log, runs, AtStart);
      ghost var w := HandledWorld(id, content, n, a);
      assert Solo(w, id, runSucceeds, maxAttempts, 0) == w;
      if content.OtherSubject? {
        IgnoreSteps(w, id, n, runSucceeds, maxAttempts, a);
        return SendAck, Acked(Ignored);
      }
      if content.BadEnvelope? {
        if n >= maxAttempts {
          Publish(DeadMessage(id));
          DiscardSteps(w, id, content, n, runSucceeds, maxAttempts, a);
          return SendAck, Acked(Discarded);
        }
        BadEnvelopeRetrySteps(w, id, n, runSucceeds, maxAttempts, a);
        return SendNak, Waiting;
      }
      if content.BadPayload? {
        Publish(DeadMessage(id));
        DiscardSteps(w, id, content, n, runSucceeds, maxAttempts, a);
        return SendAck, Acked(Discarded);
      }
      var job := content.job;
      ghost var b := a.(phase := DoMarkProcessing);
      if n == 1 {
        var inserted := job !in rows;
        Update(job, Insert);
        if inserted {
          Publish(Status(job, EnqueuedOrPending, n - 1));
        }
        if !inserted {
          DuplicateSteps(w, id, job, runSucceeds, maxAttempts, a);
          return SendAck, Acked(Duplicate);
        }
        b := Handled(rows, log, runs, DoMarkProcessing);
        RegisterSteps(w, id, job, runSucceeds, maxAttempts, a, b);
      } else {
        RedeliverySteps(w, id, job, n, runSucceeds, maxAttempts, a);
      }
      answer, end := StartJob(id, job, n, runSucceeds, w, b);
    }

    // From marking the row to the answer.
    method StartJob(id: MessageId, job: JobId, n: nat, runSucceeds: bool, ghost w: World, ghost b: Handled)
      returns (answer: Answer, ghost end: Phase)
      requires b == Handled(rows, log, runs, DoMarkProcessing)
      requires Reaches(w, HandledWorld(id, Valid(job), n, b), id, runSucceeds, maxAttempts)
      modifies this
      ensures Reaches(w, HandledWorld(id, Valid(job), n, Handled(rows, log, runs, end)), id, runSucceeds, maxAttempts)
      ensures if answer.SendAck? then end.Acked? else end.Waiting?
    {
      Update(job, MarkProcessing(n));
      Publish(Status(job, Started, n));
      runs := runs + [(id, job)];
      ghost var c := Handled(rows, log, runs, AfterRun(runSucceeds, n, maxAttempts));
      StartSteps(w, id, job, n, runSucceeds, maxAttempts, b, c);
      if runSucceeds {
        Update(job, MarkCompleted);
        Publish(JobResult(job, true, n));
        Publish(Status(job, Succeeded, n));
        FinishSteps(w, id, job, n, maxAttempts, c, Handled(rows, log, runs, Acked(Done)));
        return SendAck, Acked(Done);
      }
      if n >= maxAttempts {
        Update(job, MarkTerminal);
        Publish(JobResult(job, false, n));
        Publish(Status(job, FailedFinal, n));
        Publish(DeadJob(job, id));
        GiveUpSteps(w, id, job, n, maxAttempts, c, Handled(rows, log, runs, Acked(GaveUp)));
        return SendAck, Acked(GaveUp);
      }
      Update(job, MarkRetrying);
      Publish(Status(job, Retrying, n));
      RetrySteps(w, id, job, n, maxAttempts, c, Handled(rows, log, runs, Waiting));
      return SendNak, Waiting;
    }
  }
}
