/**
 The promises of the command protocol, over every run: sound timestamps, a complete event
 history, monotone status, frozen ends, the redispatch bound, settlement and idempotency.
 */
module CommandGuarantees {
  import opened Prelude
  import opened Commands
  import opened CommandRuns
  import CanonicalJson

  // ----- Where rows and events come from -----

  lemma NewRowsAreCreated(config: Config, store: Store, step: Step, id: Id)
    requires WellFormed(step) && id !in store.rows && id in Next(config, store, step).rows
    ensures step.CreateCommand? && step.id == id
    ensures var next := Next(config, store, step);
      && next.rows == store.rows[id := NewCommand(config, store.now, step.input)]
      && next.outbox == store.outbox + [Event(id, step.input.agent, Note(CommandQueued, 0))]
  {
    hide EventsOf, Dispatch, RejectUnsupported, Transit, SweepRow, RevokeRow, SweepEvents;
  }

  lemma SweptSparesStrangers(config: Config, store: Store, target: Id, id: Id)
    requires target in store.rows && target != id
    ensures EventsOf(SweptEvents(config, store, target), id) == []
  {
    var row := store.rows[target];
    EventsOfTagged(target, row.request.agent, SweepRow(config, store.now, row).notes, id);
  }

  lemma {:induction false} SweepSparesStrangers(config: Config, store: Store, order: seq<Id>, n: nat, id: Id)
    requires n <= |order| && IsOrderOf(order, store.rows) && id !in store.rows
    ensures EventsOf(SweepEvents(config, store, order, n), id) == []
    decreases n
  {
    if n > 0 {
      SweepEventsStep(config, store, order, n);
      OrderSplits(store.rows, order, n, id);
      hide *;
      SweepSparesStrangers(config, store, order, n - 1, id);
      SweptSparesStrangers(config, store, order[n - 1], id);
      EventsOfAppended(SweepEvents(config, store, order, n - 1), SweptEvents(config, store, order[n - 1]), id);
    }
  }

  lemma PutSparesStrangers(store: Store, target: Id, change: Change, id: Id)
    requires target != id && NoRevocation(change.notes)
    ensures EventsOf(Put(store, target, change).outbox, id) == EventsOf(store.outbox, id)
  {
    EventsOfTagged(target, change.row.request.agent, change.notes, id);
    EventsOfAppended(store.outbox, Tagged(target, change.row.request.agent, change.notes), id);
  }

  /** No step appends an event of a command that does not exist. */
  lemma StepSparesStrangers(config: Config, store: Store, step: Step, id: Id)
    requires WellFormed(step) && id !in store.rows && id !in Next(config, store, step).rows
    ensures EventsOf(Next(config, store, step).outbox, id) == EventsOf(store.outbox, id)
  {
    hide EventsOf, Dispatch, RejectUnsupported, Transit, SweepRow, RevokeRow, Outcome, SweepEvents;
    var now := store.now;
    match step
    case Advance(_) =>
    case CreateCommand(other, input) =>
      SingleEvent(store.outbox, Event(other, input.agent, Note(CommandQueued, 0)), id);
    case ClaimDispatch(target) =>
      if target in store.rows {
        RowChangesAreNotRevocations(config, now, target, store.rows[target], step, false);
        PutSparesStrangers(store, target, Dispatch(now, store.rows[target]), id);
      }
    case RejectType(target) =>
      if target in store.rows {
        RowChangesAreNotRevocations(config, now, target, store.rows[target], step, false);
        PutSparesStrangers(store, target, RejectUnsupported(now, store.rows[target]), id);
      }
    case Receive(agent, message) =>
      var target := CommandIdOf(message);
      if target.Some? && target.value in store.rows {
        RowChangesAreNotRevocations(config, now, target.value, store.rows[target.value], step, false);
        PutSparesStrangers(store, target.value, Transit(now, store.rows[target.value], agent, message), id);
      }
    case Sweep(order) =>
      if IsOrderOf(order, store.rows) {
        SweepSparesStrangers(config, store, order, |order|, id);
        EventsOfAppended(store.outbox, SweepEvents(config, store, order, |order|), id);
      }
    case Revoke(agent) =>
      SingleEvent(store.outbox, Event(agent, agent, Note(AgentRevoked, 0)), id);
  }

  lemma AfterStep(config: Config, run: seq<Step>)
    requires AllWellFormed(run) && run != []
    ensures AllWellFormed(run[..|run| - 1]) && WellFormed(run[|run| - 1])
    ensures After(config, run) == Next(config, After(config, run[..|run| - 1]), run[|run| - 1])
  {
  }

  lemma RowsStay(config: Config, store: Store, step: Step, id: Id)
    requires WellFormed(step) && id in store.rows
    ensures id in Next(config, store, step).rows
  {
    StepActsOnRow(config, store, step, id);
  }

  lemma {:induction false} NoEventsBeforeCreation(config: Config, run: seq<Step>, id: Id)
    requires AllWellFormed(run) && id !in After(config, run).rows
    ensures EventsOf(After(config, run).outbox, id) == []
    decreases |run|
  {
    if run != [] {
      AfterStep(config, run);
      var before, step := run[..|run| - 1], run[|run| - 1];
      hide EventsOf, Next, After;
      if id in After(config, before).rows {
        RowsStay(config, After(config, before), step, id);
      } else {
        NoEventsBeforeCreation(config, before, id);
        StepSparesStrangers(config, After(config, before), step, id);
      }
    }
  }

  // ----- Sound timestamps and a complete history -----

  lemma ClockOnlyAdvances(config: Config, store: Store, step: Step)
    requires WellFormed(step)
    ensures store.now <= Next(config, store, step).now
    ensures !step.Advance? ==> store.now == Next(config, store, step).now
  {
    hide EventsOf, Dispatch, RejectUnsupported, Transit, SweepRow, RevokeRow, Outcome, SweepEvents;
  }

  lemma SoundLater(now: int, later: int, row: Command)
    requires Sound(now, row) && now <= later
    ensures Sound(later, row)
  {
  }

  lemma NewCommandIsSound(config: Config, now: int, input: Input)
    requires CanonicalJson.Valid(input.payload)
    ensures Sound(now, NewCommand(config, now, input))
    ensures RecordedAs(NewCommand(config, now, input), [Note(CommandQueued, 0)], 0, [])
  {
    hide CanonicalJson.Valid, CanonicalJson.RequestText;
  }

  lemma StepKeepsSound(config: Config, store: Store, step: Step, id: Id)
    requires WellFormed(step) && id in store.rows && Sound(store.now, store.rows[id])
    ensures var next := Next(config, store, step); id in next.rows && Sound(next.now, next.rows[id])
  {
    StepActsOnRow(config, store, step, id);
    ClockOnlyAdvances(config, store, step);
    RowStepKeepsSound(config, store.now, id, store.rows[id], step, Swept(store, step));
    hide Next, RowStep, Sound, Swept;
    var next := Next(config, store, step);
    SoundLater(store.now, next.now, next.rows[id]);
  }

  /**
   In every run, for every command: the timestamps are set exactly in the statuses that need
   them, in order, and created <= first dispatch <= last dispatch < expiry.
   */
  lemma {:induction false} EveryCommandIsSound(config: Config, run: seq<Step>, id: Id)
    requires AllWellFormed(run) && id in After(config, run).rows
    ensures Sound(After(config, run).now, After(config, run).rows[id])
    decreases |run|
  {
    AfterStep(config, run);
    var before, step := run[..|run| - 1], run[|run| - 1];
    hide Next, After, Sound, NewCommand;
    var store := After(config, before);
    if id in store.rows {
      EveryCommandIsSound(config, before, id);
      StepKeepsSound(config, store, step, id);
    } else {
      NewRowsAreCreated(config, store, step, id);
      ClockOnlyAdvances(config, store, step);
      NewCommandIsSound(config, store.now, step.input);
    }
  }

  /** The outbox holds the whole lifecycle of every command, in order and without gaps. */
  lemma {:induction false} HistoryIsLifecycle(config: Config, run: seq<Step>, id: Id)
    returns (progress: nat, ending: seq<Note>)
    requires AllWellFormed(run) && id in After(config, run).rows
    ensures RecordedAs(After(config, run).rows[id], EventsOf(After(config, run).outbox, id), progress, ending)
    decreases |run|
  {
    AfterStep(config, run);
    var before, step := run[..|run| - 1], run[|run| - 1];
    hide Next, After, InOrder, DispatchesInTime, Staged, NewCommand, RowStep, EventsOf, RecordedAs, Swept;
    var store := After(config, before);
    if id in store.rows {
      progress, ending := HistoryIsLifecycle(config, before, id);
      EveryCommandIsSound(config, before, id);
      StepActsOnRow(config, store, step, id);
      progress, ending := RowStepKeepsRecord(
        config, store.now, id, store.rows[id], step, Swept(store, step), EventsOf(store.outbox, id), progress, ending);
    } else {
      NewRowsAreCreated(config, store, step, id);
      NewCommandIsSound(config, store.now, step.input);
      NoEventsBeforeCreation(config, before, id);
      SingleEvent(store.outbox, Event(id, step.input.agent, Note(CommandQueued, 0)), id);
      progress, ending := 0, [];
    }
  }

  // ----- What the history tells -----

  /** The status that an event announces. */
  function Announced(status: Status, event: EventType): Status {
    match event
    case CommandQueued => Queued
    case CommandDispatched => Dispatched
    case CommandRedispatched => Dispatched
    case CommandAccepted => Accepted
    case CommandRunning => Running
    case CommandSucceeded => Succeeded
    case CommandFailed => Failed
    case CommandCancelled => Cancelled
    case CommandExpired => Expired
    case CommandRejected => Rejected
    case AgentRevoked => status
  }

  /** A reader of the outbox folds the events of a command in commit order. */
  function Folded(notes: seq<Note>): Status {
    if notes == [] then Queued
    else Announced(Folded(notes[..|notes| - 1]), notes[|notes| - 1].eventType)
  }

  function Count(notes: seq<Note>, event: EventType): nat {
    if notes == [] then 0
    else Count(notes[..|notes| - 1], event) + if notes[|notes| - 1].eventType == event then 1 else 0
  }

  predicate Ends(note: Note) {
    Terminal(Announced(Queued, note.eventType))
  }

  lemma {:induction false} FoldedAppended(a: seq<Note>, b: seq<Note>)
    ensures b == [] ==> Folded(a + b) == Folded(a)
    ensures b != [] && !b[|b| - 1].eventType.AgentRevoked? ==>
      Folded(a + b) == Announced(Queued, b[|b| - 1].eventType)
  {
    if b == [] {
      assert a + b == a;
    } else {
      assert (a + b)[|a + b| - 1] == b[|b| - 1];
    }
  }

  lemma {:induction false} CountAppended(a: seq<Note>, b: seq<Note>, event: EventType)
    ensures Count(a + b, event) == Count(a, event) + Count(b, event)
  {
    if b == [] {
      assert a + b == a;
    } else {
      assert (a + b)[..|a + b| - 1] == a + b[..|b| - 1];
      CountAppended(a, b[..|b| - 1], event);
    }
  }

  lemma {:induction false} CountDispatches(n: nat)
    ensures |DispatchNotes(n)| == n
    ensures Count(DispatchNotes(n), CommandDispatched) == if n > 0 then 1 else 0
    ensures Count(DispatchNotes(n), CommandRedispatched) == if n > 0 then n - 1 else 0
    ensures n > 0 ==> Announced(Queued, DispatchNotes(n)[n - 1].eventType) == Dispatched
  {
    if n > 0 {
      CountDispatches(n - 1);
      assert DispatchNotes(n)[..n - 1] == DispatchNotes(n - 1);
    }
  }

  lemma {:induction false} CountProgress(n: nat, event: EventType)
    ensures Count(ProgressNotes(n), event) == if event.CommandRunning? then n else 0
  {
    if n > 0 {
      CountProgress(n - 1, event);
      assert ProgressNotes(n)[..n - 1] == ProgressNotes(n - 1);
    }
  }

  lemma DispatchFolds(n: nat)
    ensures Folded([Note(CommandQueued, 0)] + DispatchNotes(n)) == if n > 0 then Dispatched else Queued
  {
    CountDispatches(n);
    FoldedAppended([Note(CommandQueued, 0)], DispatchNotes(n));
    assert Folded([Note(CommandQueued, 0)]) == Queued;
  }

  lemma AcceptedFolds(notes: seq<Note>, accepted: bool)
    ensures Folded(notes + AcceptedNotes(accepted)) == if accepted then Accepted else Folded(notes)
  {
    FoldedAppended(notes, AcceptedNotes(accepted));
  }

  lemma ProgressFolds(notes: seq<Note>, n: nat)
    ensures Folded(notes + ProgressNotes(n)) == if n > 0 then Running else Folded(notes)
  {
    FoldedAppended(notes, ProgressNotes(n));
  }

  lemma LifecycleFolds(dispatches: nat, accepted: bool, progress: nat)
    ensures Folded(Lifecycle(dispatches, accepted, progress, []))
         == if progress > 0 then Running
            else if accepted then Accepted
            else if dispatches > 0 then Dispatched
            else Queued
  {
    var queued, sent := [Note(CommandQueued, 0)], DispatchNotes(dispatches);
    var taken, going := AcceptedNotes(accepted), ProgressNotes(progress);
    assert Lifecycle(dispatches, accepted, progress, []) == queued + sent + taken + going;
    hide *;
    DispatchFolds(dispatches);
    AcceptedFolds(queued + sent, accepted);
    ProgressFolds(queued + sent + taken, progress);
  }

  lemma LifecycleCounts(dispatches: nat, accepted: bool, progress: nat, ending: seq<Note>, event: EventType)
    ensures Count(Lifecycle(dispatches, accepted, progress, ending), event)
         == Count([Note(CommandQueued, 0)], event) + Count(DispatchNotes(dispatches), event)
          + Count(AcceptedNotes(accepted), event) + Count(ProgressNotes(progress), event) + Count(ending, event)
  {
    var queued, sent, taken := [Note(CommandQueued, 0)], DispatchNotes(dispatches), AcceptedNotes(accepted);
    var going := ProgressNotes(progress);
    hide Count;
    CountAppended(queued, sent, event);
    CountAppended(queued + sent, taken, event);
    CountAppended(queued + sent + taken, going, event);
    CountAppended(queued + sent + taken + going, ending, event);
  }

  /** The status that the timestamps of a live row stand for. */
  function Reached(row: Command): Status {
    if row.startedAt.Some? then Running
    else if row.acceptedAt.Some? then Accepted
    else if row.dispatchAttempts > 0 then Dispatched
    else Queued
  }

  lemma RecordedFolds(row: Command, notes: seq<Note>, progress: nat, ending: seq<Note>)
    requires Staged(row) && RecordedAs(row, notes, progress, ending)
    ensures if ending == [] then Folded(notes) == Reached(row) else Folded(notes) == row.status
    ensures !Terminal(row.status) ==> Reached(row) == row.status
  {
    var start := Lifecycle(row.dispatchAttempts, row.acceptedAt.Some?, progress, []);
    LifecycleFolds(row.dispatchAttempts, row.acceptedAt.Some?, progress);
    FoldedAppended(start, ending);
    assert notes == start + ending;
    hide Lifecycle, Folded;
  }

  /** Folding the outbox gives the status of the row, or the live status that the row had before its end. */
  lemma FoldTellsOrIsLive(config: Config, run: seq<Step>, id: Id)
    requires AllWellFormed(run) && id in After(config, run).rows
    ensures var row, told := After(config, run).rows[id], Folded(EventsOf(After(config, run).outbox, id));
      || told == row.status
      || (Terminal(row.status) && SilentlyEnded(row) && told == Reached(row) && Rank(told) <= 2)
  {
    hide *;
    EveryCommandIsSound(config, run, id);
    var progress, ending := HistoryIsLifecycle(config, run, id);
    var store := After(config, run);
    FoldIsStatus(store.now, store.rows[id], EventsOf(store.outbox, id), progress, ending);
  }

  lemma FoldIsStatus(now: int, row: Command, notes: seq<Note>, progress: nat, ending: seq<Note>)
    requires Sound(now, row) && RecordedAs(row, notes, progress, ending)
    ensures || Folded(notes) == row.status
            || (Terminal(row.status) && SilentlyEnded(row) && Folded(notes) == Reached(row) && Rank(Folded(notes)) <= 2)
  {
    RecordedFolds(row, notes, progress, ending);
    hide Lifecycle, Folded;
  }

  lemma {:induction false} DispatchNotesAre(n: nat, k: nat)
    requires k < n
    ensures |DispatchNotes(n)| == n
    ensures DispatchNotes(n)[k] == Note(if k == 0 then CommandDispatched else CommandRedispatched, k + 1)
  {
    CountDispatches(n - 1);
    if k < n - 1 {
      DispatchNotesAre(n - 1, k);
    }
  }

  /** Every dispatch attempt has its own numbered event; only the first is named dispatched. */
  lemma {:induction false} DispatchEventsAreAttempts(config: Config, run: seq<Step>, id: Id)
    requires AllWellFormed(run) && id in After(config, run).rows
    ensures var attempts := After(config, run).rows[id].dispatchAttempts;
      var notes := EventsOf(After(config, run).outbox, id);
      && |notes| > attempts && notes[0] == Note(CommandQueued, 0) && Count(notes, CommandQueued) == 1
      && (forall k :: 1 <= k <= attempts ==>
            notes[k] == Note(if k == 1 then CommandDispatched else CommandRedispatched, k))
      && Count(notes, CommandDispatched) == (if attempts > 0 then 1 else 0)
      && Count(notes, CommandDispatched) + Count(notes, CommandRedispatched) == attempts
  {
    hide *;
    var row, notes := After(config, run).rows[id], EventsOf(After(config, run).outbox, id);
    var progress, ending := HistoryIsLifecycle(config, run, id);
    RecordedDispatches(row, notes, progress, ending);
  }

  lemma RecordedCounts(row: Command, notes: seq<Note>, progress: nat, ending: seq<Note>, event: EventType)
    requires RecordedAs(row, notes, progress, ending)
    requires event.CommandQueued? || event.CommandDispatched? || event.CommandRedispatched?
    ensures Count(notes, event)
         == (if event.CommandQueued? then 1 else 0) + Count(DispatchNotes(row.dispatchAttempts), event)
  {
    LifecycleCounts(row.dispatchAttempts, row.acceptedAt.Some?, progress, ending, event);
    CountProgress(progress, event);
    hide Lifecycle, DispatchNotes, ProgressNotes;
    assert Count([Note(CommandQueued, 0)], event) == if event.CommandQueued? then 1 else 0;
  }

  lemma CountQueuedDispatches(n: nat)
    ensures Count(DispatchNotes(n), CommandQueued) == 0
  {
    if n > 0 {
      CountQueuedDispatches(n - 1);
      assert DispatchNotes(n)[..n - 1] == DispatchNotes(n - 1) by { CountDispatches(n - 1); }
      CountDispatches(n);
    }
  }

  lemma RecordedDispatches(row: Command, notes: seq<Note>, progress: nat, ending: seq<Note>)
    requires RecordedAs(row, notes, progress, ending)
    ensures |notes| > row.dispatchAttempts && notes[0] == Note(CommandQueued, 0) && Count(notes, CommandQueued) == 1
    ensures forall k :: 1 <= k <= row.dispatchAttempts ==>
              notes[k] == Note(if k == 1 then CommandDispatched else CommandRedispatched, k)
    ensures Count(notes, CommandDispatched) == if row.dispatchAttempts > 0 then 1 else 0
    ensures Count(notes, CommandDispatched) + Count(notes, CommandRedispatched) == row.dispatchAttempts
  {
    var attempts := row.dispatchAttempts;
    hide DispatchNotes, ProgressNotes, Count, EndingFits;
    CountDispatches(attempts);
    CountQueuedDispatches(attempts);
    RecordedCounts(row, notes, progress, ending, CommandQueued);
    RecordedCounts(row, notes, progress, ending, CommandDispatched);
    RecordedCounts(row, notes, progress, ending, CommandRedispatched);
    forall k | 1 <= k <= attempts
      ensures notes[k] == Note(if k == 1 then CommandDispatched else CommandRedispatched, k)
    {
      DispatchNotesAre(attempts, k - 1);
    }
  }

  predicate NoEnd(notes: seq<Note>) {
    forall i :: 0 <= i < |notes| ==> !Ends(notes[i])
  }

  lemma LifecycleHasNoEnd(dispatches: nat, accepted: bool, progress: nat)
    ensures NoEnd(Lifecycle(dispatches, accepted, progress, []))
  {
    CountDispatches(dispatches);
    forall k | 0 <= k < dispatches ensures !Ends(DispatchNotes(dispatches)[k]) {
      DispatchNotesAre(dispatches, k);
    }
    hide DispatchNotes;
  }

  /** A command has at most one terminal event; it is the last event and names the status. */
  lemma {:induction false} AtMostOneEnd(config: Config, run: seq<Step>, id: Id, i: nat)
    requires AllWellFormed(run) && id in After(config, run).rows
    requires i < |EventsOf(After(config, run).outbox, id)| && Ends(EventsOf(After(config, run).outbox, id)[i])
    ensures var row, notes := After(config, run).rows[id], EventsOf(After(config, run).outbox, id);
      i == |notes| - 1 && Terminal(row.status) && notes[i].eventType == EndEvent(row.status)
  {
    hide After, AllWellFormed, Lifecycle, Ends, EventsOf;
    var row, notes := After(config, run).rows[id], EventsOf(After(config, run).outbox, id);
    var progress, ending := HistoryIsLifecycle(config, run, id);
    var start := Lifecycle(row.dispatchAttempts, row.acceptedAt.Some?, progress, []);
    LifecycleHasNoEnd(row.dispatchAttempts, row.acceptedAt.Some?, progress);
    EndingComesLast(row.dispatchAttempts, row.acceptedAt.Some?, progress, ending);
    assert notes == start + ending;
  }

  lemma EndingComesLast(dispatches: nat, accepted: bool, progress: nat, ending: seq<Note>)
    ensures Lifecycle(dispatches, accepted, progress, ending) == Lifecycle(dispatches, accepted, progress, []) + ending
  {
    var sent := [Note(CommandQueued, 0)] + DispatchNotes(dispatches);
    var start := sent + AcceptedNotes(accepted) + ProgressNotes(progress);
    assert start + [] == start;
  }

  // ----- Status and timestamps only move forward -----

  predicate Fixed<T(==)>(before: Option<T>, after: Option<T>) {
    before.Some? ==> after == before
  }

  /** What one command may become. */
  predicate Onward(before: Command, after: Command) {
    && Rank(before.status) <= Rank(after.status)
    && (Terminal(before.status) ==> after == before)
    && after.request == before.request
    && before.dispatchAttempts <= after.dispatchAttempts
    && Fixed(before.dispatchedAt, after.dispatchedAt) && Fixed(before.acceptedAt, after.acceptedAt)
    && Fixed(before.startedAt, after.startedAt) && Fixed(before.completedAt, after.completedAt)
  }

  lemma RowStepIsOnward(config: Config, now: int, id: Id, row: Command, step: Step, swept: bool)
    requires Staged(row)
    ensures var change := RowStep(config, now, id, row, step, swept);
      Onward(row, change.row) && (Terminal(row.status) ==> change.notes == [])
  {
    hide Dispatch, Transit, SweepRow, RevokeRow, RejectUnsupported, Onward, Rank, Terminal;
    OnwardFromItself(row);
    match step
    case ClaimDispatch(_) => DispatchIsOnward(now, row);
    case RejectType(_) => RejectIsOnward(now, row);
    case Receive(agent, message) => TransitIsOnward(now, row, agent, message);
    case Sweep(_) => SweepIsOnward(config, now, row);
    case Revoke(agent) => RevokeIsOnward(now, row, agent);
    case _ =>
  }

  lemma OnwardFromItself(row: Command)
    ensures Onward(row, row)
  {
  }

  lemma DispatchIsOnward(now: int, row: Command)
    requires Staged(row)
    ensures Onward(row, Dispatch(now, row).row) && (Terminal(row.status) ==> Dispatch(now, row).notes == [])
  {
  }

  lemma EndsNowIsOnward(now: int, row: Command, ended: Command)
    requires Staged(row) && EndsNow(now, row, ended)
    ensures Onward(row, ended)
  {
  }

  lemma RejectIsOnward(now: int, row: Command)
    requires Staged(row)
    ensures var change := RejectUnsupported(now, row);
      Onward(row, change.row) && (Terminal(row.status) ==> change.notes == [])
  {
    RejectEndsNow(now, row);
    OnwardFromItself(row);
    hide Onward, EndsNow, Staged;
    if RejectUnsupported(now, row).row != row { EndsNowIsOnward(now, row, RejectUnsupported(now, row).row); }
  }

  lemma SweepIsOnward(config: Config, now: int, row: Command)
    requires Staged(row)
    ensures var change := SweepRow(config, now, row);
      Onward(row, change.row) && (Terminal(row.status) ==> change.notes == [])
  {
    SweepEndsNow(config, now, row);
    OnwardFromItself(row);
    hide Onward, EndsNow, Staged;
    if SweepRow(config, now, row).row != row { EndsNowIsOnward(now, row, SweepRow(config, now, row).row); }
  }

  lemma RevokeIsOnward(now: int, row: Command, agent: Id)
    requires Staged(row)
    ensures var change := RevokeRow(now, row, agent);
      Onward(row, change.row) && (Terminal(row.status) ==> change.notes == [])
  {
    RevokeEndsNow(now, row, agent);
    OnwardFromItself(row);
    hide Onward, EndsNow, Staged;
    if RevokeRow(now, row, agent).row != row { EndsNowIsOnward(now, row, RevokeRow(now, row, agent).row); }
  }

  lemma TransitIsOnward(now: int, row: Command, agent: Id, message: Message)
    requires Staged(row)
    ensures var change := Transit(now, row, agent, message);
      Onward(row, change.row) && (Terminal(row.status) ==> change.notes == [])
  {
    TransitEffect(now, row, agent, message);
    OnwardFromItself(row);
    hide Transit;
  }

  lemma OnwardTwice(a: Command, b: Command, c: Command)
    requires Onward(a, b) && Onward(b, c)
    ensures Onward(a, c)
  {
  }

  /** The row and the events of a command in a later state. */
  ghost predicate Continues(before: Store, after: Store, id: Id)
    requires id in before.rows
  {
    && before.now <= after.now
    && id in after.rows && Onward(before.rows[id], after.rows[id])
    && EventsOf(before.outbox, id) <= EventsOf(after.outbox, id)
    && (Terminal(before.rows[id].status) ==> EventsOf(after.outbox, id) == EventsOf(before.outbox, id))
  }

  lemma StepContinues(config: Config, store: Store, step: Step, id: Id)
    requires WellFormed(step) && id in store.rows && Sound(store.now, store.rows[id])
    ensures Continues(store, Next(config, store, step), id)
  {
    StepActsOnRow(config, store, step, id);
    ClockOnlyAdvances(config, store, step);
    RowStepIsOnward(config, store.now, id, store.rows[id], step, Swept(store, step));
    hide Next, RowStep, Sound, Swept, Onward, EventsOf, Terminal;
  }

  lemma ContinuesTwice(a: Store, b: Store, c: Store, id: Id)
    requires id in a.rows && Continues(a, b, id) && Continues(b, c, id)
    ensures Continues(a, c, id)
  {
    OnwardTwice(a.rows[id], b.rows[id], c.rows[id]);
    hide EventsOf;
  }

  /**
   From any moment of any run on, whatever follows: the command stays, its status never moves
   down, set timestamps never change, its history only grows, and once terminal it is frozen.
   */
  lemma {:induction false} StatusNeverMovesDown(config: Config, run: seq<Step>, more: seq<Step>, id: Id)
    requires AllWellFormed(run + more) && AllWellFormed(run) && id in After(config, run).rows
    ensures Continues(After(config, run), After(config, run + more), id)
    decreases |more|
  {
    if more == [] {
      assert run + more == run;
      OnwardFromItself(After(config, run).rows[id]);
    } else {
      var less, step := more[..|more| - 1], more[|more| - 1];
      assert (run + more)[..|run + more| - 1] == run + less;
      AfterStep(config, run + more);
      hide After, Next, Sound, Continues;
      StatusNeverMovesDown(config, run, less, id);
      ContinuesHas(After(config, run), After(config, run + less), id);
      EveryCommandIsSound(config, run + less, id);
      StepContinues(config, After(config, run + less), step, id);
      ContinuesTwice(After(config, run), After(config, run + less), After(config, run + more), id);
    }
  }

  lemma ContinuesHas(before: Store, after: Store, id: Id)
    requires id in before.rows && Continues(before, after, id)
    ensures id in after.rows
  {
  }

  // ----- Exactly when the fold fails -----

  /** Step `i` of the run ends the command without an event of it. */
  ghost predicate EndsUnrecordedAt(config: Config, run: seq<Step>, i: nat, id: Id)
    requires AllWellFormed(run) && i < |run|
  {
    assert AllWellFormed(run[..i]);
    var before := After(config, run[..i]);
    id in before.rows && EndsUnrecorded(id, before.rows[id], run[i])
  }

  ghost predicate EndedUnrecorded(config: Config, run: seq<Step>, id: Id)
    requires AllWellFormed(run)
  {
    exists i :: 0 <= i < |run| && EndsUnrecordedAt(config, run, i, id)
  }

  lemma EndedUnrecordedStep(config: Config, run: seq<Step>, id: Id)
    requires AllWellFormed(run) && run != [] && AllWellFormed(run[..|run| - 1])
    ensures EndedUnrecorded(config, run, id)
       <==> EndedUnrecorded(config, run[..|run| - 1], id) || EndsUnrecordedAt(config, run, |run| - 1, id)
  {
    var n := |run| - 1;
    forall i | 0 <= i < n
      ensures EndsUnrecordedAt(config, run, i, id) <==> EndsUnrecordedAt(config, run[..n], i, id)
    {
      assert run[..n][..i] == run[..i];
    }
    hide After, EndsUnrecorded, EndsUnrecordedAt;
    if EndedUnrecorded(config, run, id) {
      var i :| 0 <= i < |run| && EndsUnrecordedAt(config, run, i, id);
    }
  }

  /** The fold of the events of a row tells its status. */
  predicate FoldTells(row: Command, notes: seq<Note>) {
    Folded(notes) == row.status
  }

  lemma LiveFoldTells(config: Config, run: seq<Step>, id: Id)
    requires AllWellFormed(run) && id in After(config, run).rows && !Terminal(After(config, run).rows[id].status)
    ensures FoldTells(After(config, run).rows[id], EventsOf(After(config, run).outbox, id))
  {
    FoldTellsOrIsLive(config, run, id);
    hide After, EventsOf, Folded;
  }

  lemma NoteTells(row: Command, change: Change, notes: seq<Note>)
    requires AppendsNewStatus(row, change)
    ensures FoldTells(change.row, notes + change.notes)
  {
    FoldedAppended(notes, change.notes);
  }

  /** One step decides whether the fold goes on telling the status. */
  lemma FoldStep(config: Config, store: Store, step: Step, id: Id)
    requires WellFormed(step) && id in store.rows && Sound(store.now, store.rows[id])
    requires !Terminal(store.rows[id].status) ==> FoldTells(store.rows[id], EventsOf(store.outbox, id))
    ensures var next := Next(config, store, step);
      && id in next.rows
      && FoldTells(next.rows[id], EventsOf(next.outbox, id))
           == (FoldTells(store.rows[id], EventsOf(store.outbox, id)) && !EndsUnrecorded(id, store.rows[id], step))
  {
    var row, change := store.rows[id], StepOn(config, store, id, step);
    var notes := EventsOf(store.outbox, id);
    StepActsOnRow(config, store, step, id);
    SilentStepsEnd(config, store.now, id, row, step, Swept(store, step));
    hide Next, EventsOf, RowStep, EndsUnrecorded, Staged, Swept, Folded;
    if change.notes != [] {
      NotedRowsAreLive(config, store.now, id, row, step, Swept(store, step));
      NoteTells(row, change, notes);
    } else {
      assert notes + change.notes == notes;
    }
  }

  /**
   In every run, folding the outbox fails to give the status of a command if and only if some
   step revoked its agent while it was unstarted, or rejected it for its unknown type.
   */
  lemma {:induction false} FoldFailsExactlyAfterUnrecordedEnd(config: Config, run: seq<Step>, id: Id)
    requires AllWellFormed(run) && id in After(config, run).rows
    ensures Folded(EventsOf(After(config, run).outbox, id)) != After(config, run).rows[id].status
       <==> EndedUnrecorded(config, run, id)
    decreases |run|
  {
    AfterStep(config, run);
    EndedUnrecordedStep(config, run, id);
    var before, step := run[..|run| - 1], run[|run| - 1];
    var store := After(config, before);
    hide After, Next, Sound, EndsUnrecorded, EventsOf, Folded, Terminal, EndedUnrecorded, NewCommand;
    if id in store.rows {
      FoldFailsExactlyAfterUnrecordedEnd(config, before, id);
      EveryCommandIsSound(config, before, id);
      if !Terminal(store.rows[id].status) { LiveFoldTells(config, before, id); }
      FoldStep(config, store, step, id);
    } else {
      NewRowsAreCreated(config, store, step, id);
      NewCommandFolds(config, run, id);
      NothingEndedBeforeCreation(config, before, id);
    }
  }

  lemma NewCommandFolds(config: Config, run: seq<Step>, id: Id)
    requires AllWellFormed(run) && run != [] && AllWellFormed(run[..|run| - 1])
    requires id !in After(config, run[..|run| - 1]).rows && id in After(config, run).rows
    ensures Folded(EventsOf(After(config, run).outbox, id)) == After(config, run).rows[id].status
  {
    AfterStep(config, run);
    var store, step := After(config, run[..|run| - 1]), run[|run| - 1];
    NewRowsAreCreated(config, store, step, id);
    hide After, Next, CanonicalJson.RequestText;
    assert !Terminal(After(config, run).rows[id].status);
    LiveFoldTells(config, run, id);
  }

  lemma NothingEndedBeforeCreation(config: Config, run: seq<Step>, id: Id)
    requires AllWellFormed(run) && id !in After(config, run).rows
    ensures !EndedUnrecorded(config, run, id)
  {
    forall i | 0 <= i < |run| ensures !EndsUnrecordedAt(config, run, i, id) {
      assert run[..i] + run[i..] == run;
      if id in After(config, run[..i]).rows {
        StatusNeverMovesDown(config, run[..i], run[i..], id);
      }
    }
  }

  /**
   Folding the outbox gives the status of the row, unless the command was revoked unstarted or
   rejected for its type; then the row is terminal and the fold gives the live status it had.
   */
  lemma {:induction false} FoldGivesStatus(config: Config, run: seq<Step>, id: Id)
    requires AllWellFormed(run) && id in After(config, run).rows
    ensures var row, told := After(config, run).rows[id], Folded(EventsOf(After(config, run).outbox, id));
      if EndedUnrecorded(config, run, id) then Terminal(row.status) && told == Reached(row) && Rank(told) <= 2
      else told == row.status
  {
    FoldFailsExactlyAfterUnrecordedEnd(config, run, id);
    FoldTellsOrIsLive(config, run, id);
  }

  /** A creation with an empty payload under the key of one user. */
  function Sample(commandType: string): Step {
    CreateCommand(1, Input(RequestKey(1, "user", "u", "00000000"), 7, 8, None, commandType, CanonicalJson.Null, None))
  }

  lemma AfterSample(config: Config, commandType: string)
    ensures AllWellFormed([Sample(commandType)])
    ensures var store := After(config, [Sample(commandType)]);
      && store.rows.Keys == {1} && store.rows[1].request.agent == 7 && store.rows[1].request.commandType == commandType
      && store.rows[1].status == Queued && store.rows[1].request.expiresAt > store.now
      && store.rows[1].dispatchAttempts == 0 && store.rows[1].acceptedAt.None? && store.rows[1].startedAt.None?
  {
    AfterOneMore(config, [], Sample(commandType));
    assert [] + [Sample(commandType)] == [Sample(commandType)];
    hide CanonicalJson.RequestText;
  }

  lemma AfterRevocation(config: Config, commandType: string)
    ensures var run := [Sample(commandType)] + [Revoke(7)];
      && AllWellFormed(run) && EndsUnrecordedAt(config, run, 1, 1)
      && 1 in After(config, run).rows && After(config, run).rows[1].status == Cancelled
      && After(config, run).rows[1].dispatchAttempts == 0
      && Reached(After(config, run).rows[1]) == Queued
  {
    AfterSample(config, commandType);
    AfterOneMore(config, [Sample(commandType)], Revoke(7));
    assert ([Sample(commandType)] + [Revoke(7)])[..1] == [Sample(commandType)];
    hide After, MessageName;
  }

  /** A run after which the fold fails: create a command, then revoke its agent. */
  lemma {:induction false} RevocationFoolsTheFold(config: Config)
    ensures var run := [Sample("executeJob"), Revoke(7)];
      && AllWellFormed(run) && 1 in After(config, run).rows && After(config, run).rows[1].status == Cancelled
      && Folded(EventsOf(After(config, run).outbox, 1)) == Queued
  {
    var run := [Sample("executeJob")] + [Revoke(7)];
    AfterRevocation(config, "executeJob");
    assert run == [Sample("executeJob"), Revoke(7)];
    hide After, EventsOf, Folded, Next, EndsUnrecordedAt, Sample, Reached;
    assert EndedUnrecorded(config, run, 1);
    FoldGivesStatus(config, run, 1);
  }

  lemma AfterClaim(config: Config, commandType: string)
    ensures var run := [Sample(commandType), ClaimDispatch(1)];
      && AllWellFormed(run) && 1 in After(config, run).rows
      && After(config, run).rows[1].status == Dispatched
      && After(config, run).rows[1].request.commandType == commandType
  {
    AfterSample(config, commandType);
    AfterOneMore(config, [Sample(commandType)], ClaimDispatch(1));
    assert [Sample(commandType)] + [ClaimDispatch(1)] == [Sample(commandType), ClaimDispatch(1)];
    hide After;
  }

  lemma AfterRejection(config: Config, commandType: string)
    requires MessageName(commandType).None?
    ensures var claimed := [Sample(commandType), ClaimDispatch(1)];
      var run := claimed + [RejectType(1)];
      && AllWellFormed(run) && EndsUnrecordedAt(config, run, 2, 1)
      && 1 in After(config, run).rows && After(config, run).rows[1].status == Rejected
  {
    var claimed := [Sample(commandType), ClaimDispatch(1)];
    AfterClaim(config, commandType);
    AfterOneMore(config, claimed, RejectType(1));
    assert (claimed + [RejectType(1)])[..2] == claimed;
    hide After, MessageName, Dispatch;
  }

  /** Another one: a command of a type that the gateway does not know is claimed and then rejected. */
  lemma {:induction false} RejectionFoolsTheFold(config: Config)
    ensures var run := [Sample("unknown"), ClaimDispatch(1), RejectType(1)];
      && AllWellFormed(run) && 1 in After(config, run).rows && After(config, run).rows[1].status == Rejected
      && Rank(Folded(EventsOf(After(config, run).outbox, 1))) < Rank(Rejected)
  {
    var run := [Sample("unknown"), ClaimDispatch(1)] + [RejectType(1)];
    AfterRejection(config, "unknown");
    assert run == [Sample("unknown"), ClaimDispatch(1), RejectType(1)];
    hide After, EventsOf, Folded, Next, EndsUnrecordedAt, Sample;
    assert EndedUnrecorded(config, run, 1);
    FoldGivesStatus(config, run, 1);
  }

  // ----- Bounds -----

  /**
   A command is dispatched again at most every 15 s of its clamped time to live: whatever the
   dispatchers do, at most 5760 times in all.
   */
  lemma {:induction false} DispatchesAreBounded(config: Config, run: seq<Step>, id: Id)
    requires AllWellFormed(run) && id in After(config, run).rows
    ensures var row := After(config, run).rows[id];
      row.dispatchAttempts >= 1 ==>
        && 15 * SECOND * (row.dispatchAttempts - 1) < row.request.expiresAt - row.request.createdAt
        && row.dispatchAttempts <= 5760
  {
    hide *;
    EveryCommandIsSound(config, run, id);
    SoundDispatches(After(config, run).now, After(config, run).rows[id]);
  }

  lemma SoundDispatches(now: int, row: Command)
    requires Sound(now, row)
    ensures row.dispatchAttempts >= 1 ==>
      && 15 * SECOND * (row.dispatchAttempts - 1) < row.request.expiresAt - row.request.createdAt
      && row.dispatchAttempts <= 5760
  {
  }

  lemma SweepSettles(config: Config, now: int, row: Command)
    requires Sound(now, row) && row.request.expiresAt < now
    ensures Terminal(SweepRow(config, now, row).row.status) || SweepRow(config, now, row).row.status.Running?
  {
  }

  lemma RunningHasStarted(now: int, row: Command)
    requires Sound(now, row) && row.status.Running?
    ensures row.startedAt.Some? && row.startedAt.value <= now
  {
  }

  /** Progress messages never move the start, so the running limit counts from the first one. */
  lemma LateSweepEnds(config: Config, sweptAt: int, now: int, before: Command, row: Command)
    requires before.status.Running? && before.startedAt.Some? && before.startedAt.value <= sweptAt
    requires Onward(before, row)
    requires now - config.maxRunningSeconds * SECOND > sweptAt
    ensures Terminal(SweepRow(config, now, row).row.status)
  {
  }

  /**
   Bounded settlement: one sweep strictly after the expiry, and a later one more than the
   running limit after it, end the command, whatever happens before, between and after them.
   */
  lemma {:induction false} TwoSweepsSettle(
      config: Config, run: seq<Step>, order1: seq<Id>, more: seq<Step>, order2: seq<Id>, id: Id)
    requires AllWellFormed(run) && id in After(config, run).rows
    requires IsOrderOf(order1, After(config, run).rows)
    requires After(config, run).rows[id].request.expiresAt < After(config, run).now
    requires AllWellFormed(run + [Sweep(order1)] + more)
    requires IsOrderOf(order2, After(config, run + [Sweep(order1)] + more).rows)
    requires After(config, run + [Sweep(order1)] + more).now
           > After(config, run).now + config.maxRunningSeconds * SECOND
    ensures var settled := After(config, run + [Sweep(order1)] + more + [Sweep(order2)]);
      id in settled.rows && Terminal(settled.rows[id].status)
  {
    var swept, later := run + [Sweep(order1)], run + [Sweep(order1)] + more;
    var store1, store2, store3 := After(config, run), After(config, swept), After(config, later);
    AfterOneMore(config, run, Sweep(order1));
    AfterOneMore(config, later, Sweep(order2));
    EveryCommandIsSound(config, run, id);
    StepActsOnRow(config, store1, Sweep(order1), id);
    ClockOnlyAdvances(config, store1, Sweep(order1));
    StatusNeverMovesDown(config, swept, more, id);
    EveryCommandIsSound(config, swept, id);
    EveryCommandIsSound(config, later, id);
    StepActsOnRow(config, store3, Sweep(order2), id);
    hide After, Next, SweepRow, EventsOf, IsOrderOf, Sound, AllWellFormed, Onward;
    var row1, row2, row3 := store1.rows[id], store2.rows[id], store3.rows[id];
    SweepSettles(config, store1.now, row1);
    if Terminal(row2.status) {
      TerminalStays(row2, row3);
      TerminalIsSwept(config, store3.now, row3);
    } else {
      RunningHasStarted(store2.now, row2);
      LateSweepEnds(config, store2.now, store3.now, row2, row3);
    }
  }

  lemma TerminalStays(before: Command, after: Command)
    requires Onward(before, after) && Terminal(before.status)
    ensures Terminal(after.status)
  {
  }

  lemma TerminalIsSwept(config: Config, now: int, row: Command)
    requires Terminal(row.status)
    ensures SweepRow(config, now, row).row == row
  {
  }

  lemma AfterOneMore(config: Config, run: seq<Step>, step: Step)
    requires AllWellFormed(run) && WellFormed(step)
    ensures AllWellFormed(run + [step])
    ensures After(config, run + [step]) == Next(config, After(config, run), step)
  {
    assert (run + [step])[..|run + [step]| - 1] == run;
  }

  /** A message from any other agent than the command's own changes nothing at all. */
  lemma {:induction false} ForeignMessagesChangeNothing(
      config: Config, store: Store, agent: Id, message: Message, id: Id)
    requires CommandIdOf(message) == Some(id) && id in store.rows && store.rows[id].request.agent != agent
    ensures Next(config, store, Receive(agent, message)) == store
  {
    var change := Transit(store.now, store.rows[id], agent, message);
    assert Tagged(id, change.row.request.agent, change.notes) == [];
  }

  // ----- Idempotent creation -----

  lemma RequestsAreKept(config: Config, store: Store, step: Step, id: Id)
    requires WellFormed(step) && id in store.rows && Staged(store.rows[id])
    ensures var next := Next(config, store, step); id in next.rows && next.rows[id].request == store.rows[id].request
  {
    StepActsOnRow(config, store, step, id);
    RowStepIsOnward(config, store.now, id, store.rows[id], step, Swept(store, step));
    hide Next, RowStep, Staged, EventsOf;
  }

  lemma CreatedKeyWasFree(config: Config, store: Store, step: Step, id: Id)
    requires WellFormed(step) && id !in store.rows && id in Next(config, store, step).rows
    ensures step.CreateCommand? && !KeyTaken(store.rows, step.input.key)
    ensures |step.input.key.idempotencyKey| >= MIN_KEY_LENGTH
  {
    NewRowsAreCreated(config, store, step, id);
    hide EventsOf, Dispatch, RejectUnsupported, Transit, SweepRow, RevokeRow, SweepEvents, NewCommand;
  }

  /** In every run each request key has at most one command. */
  lemma {:induction false} EveryKeyHasOneCommand(config: Config, run: seq<Step>, a: Id, b: Id)
    requires AllWellFormed(run) && a in After(config, run).rows && b in After(config, run).rows
    requires After(config, run).rows[a].request.key == After(config, run).rows[b].request.key
    ensures a == b
    decreases |run|
  {
    AfterStep(config, run);
    var before, step := run[..|run| - 1], run[|run| - 1];
    var store, next := After(config, before), After(config, run);
    hide After, Next, Sound, NewCommand;
    if a in store.rows && b in store.rows {
      EveryCommandIsSound(config, before, a);
      EveryCommandIsSound(config, before, b);
      KeysAreKept(config, store, step, a);
      KeysAreKept(config, store, step, b);
      EveryKeyHasOneCommand(config, before, a, b);
    } else if a in store.rows {
      EveryCommandIsSound(config, before, a);
      NewKeyDiffers(config, store, step, a, b);
    } else if b in store.rows {
      EveryCommandIsSound(config, before, b);
      NewKeyDiffers(config, store, step, b, a);
    } else {
      NewRowsAreCreated(config, store, step, a);
      NewRowsAreCreated(config, store, step, b);
    }
  }

  lemma KeysAreKept(config: Config, store: Store, step: Step, id: Id)
    requires WellFormed(step) && id in store.rows && Sound(store.now, store.rows[id])
    ensures var next := Next(config, store, step);
      id in next.rows && next.rows[id].request.key == store.rows[id].request.key
  {
    RequestsAreKept(config, store, step, id);
    hide Next;
  }

  lemma NewKeyDiffers(config: Config, store: Store, step: Step, held: Id, id: Id)
    requires WellFormed(step) && held in store.rows && Sound(store.now, store.rows[held])
    requires id !in store.rows && id in Next(config, store, step).rows
    ensures var next := Next(config, store, step);
      held in next.rows && next.rows[held].request.key != next.rows[id].request.key
  {
    KeysAreKept(config, store, step, held);
    NewRowsAreCreated(config, store, step, id);
    CreatedKeyWasFree(config, store, step, id);
    hide Next, CanonicalJson.RequestText;
    assert HoldsKey(store.rows, held, store.rows[held].request.key);
  }

  /** The stored request is the one that was asked for, under a key of the required length. */
  predicate WellRequested(request: Request) {
    && |request.key.idempotencyKey| >= MIN_KEY_LENGTH
    && CanonicalJson.Valid(request.payload)
    && request.payloadText == CanonicalJson.RequestText(request.commandType, request.job, request.payload)
  }

  lemma NewRequestIsWellMade(config: Config, now: int, input: Input)
    requires CanonicalJson.Valid(input.payload) && |input.key.idempotencyKey| >= MIN_KEY_LENGTH
    ensures WellRequested(NewCommand(config, now, input).request)
  {
  }

  lemma {:induction false} EveryRequestIsWellMade(config: Config, run: seq<Step>, id: Id)
    requires AllWellFormed(run) && id in After(config, run).rows
    ensures WellRequested(After(config, run).rows[id].request)
    decreases |run|
  {
    AfterStep(config, run);
    var before, step := run[..|run| - 1], run[|run| - 1];
    var store := After(config, before);
    hide After, Next, InOrder, DispatchesInTime, Staged, NewCommand, WellRequested;
    if id in store.rows {
      EveryCommandIsSound(config, before, id);
      EveryRequestIsWellMade(config, before, id);
      RequestsAreKept(config, store, step, id);
    } else {
      NewRowsAreCreated(config, store, step, id);
      CreatedKeyWasFree(config, store, step, id);
      NewRequestIsWellMade(config, store.now, step.input);
    }
  }

  /** The caller asks again for the same thing: equal up to the order of object keys. */
  predicate SameRequest(request: Request, input: Input) {
    && request.commandType == input.commandType && request.job == input.job
    && CanonicalJson.SameUpToOrder(request.payload, input.payload)
  }

  /**
   Once a key is used, every later creation with it returns the first command, or conflicts
   exactly when type, job or payload differ; either way nothing is stored.
   */
  lemma {:induction false} CreationIsIdempotent(
      config: Config, run: seq<Step>, more: seq<Step>, id: Id, newId: Id, input: Input)
    requires AllWellFormed(run) && AllWellFormed(run + more) && CanonicalJson.Valid(input.payload)
    requires id in After(config, run).rows && After(config, run).rows[id].request.key == input.key
    ensures var first, later := After(config, run).rows[id].request, After(config, run + more);
      && id in later.rows && later.rows[id].request == first
      && Outcome(later, newId, input) == (if SameRequest(first, input) then Replayed(id) else KeyConflict)
      && Create(config, later, newId, input) == later
  {
    StatusNeverMovesDown(config, run, more, id);
    var later := After(config, run + more);
    assert HoldsKey(later.rows, id, input.key) && KeyTaken(later.rows, input.key);
    var holder := Holder(later.rows, input.key);
    EveryKeyHasOneCommand(config, run + more, id, holder);
    EveryRequestIsWellMade(config, run + more, id);
    hide After, Next, CanonicalJson.RequestText, CanonicalJson.SameUpToOrder, EventsOf, Rank, AllWellFormed;
    var first := later.rows[id].request;
    CanonicalJson.RequestTextIdentifies(
      first.commandType, first.job, first.payload, input.commandType, input.job, input.payload);
  }

  function QueuedEvents(outbox: seq<Event>): nat {
    if outbox == [] then 0
    else QueuedEvents(outbox[..|outbox| - 1]) + if outbox[|outbox| - 1].note.eventType.CommandQueued? then 1 else 0
  }

  predicate NeverQueued(outbox: seq<Event>) {
    forall i :: 0 <= i < |outbox| ==> !outbox[i].note.eventType.CommandQueued?
  }

  lemma {:induction false} NothingQueued(outbox: seq<Event>, more: seq<Event>)
    requires NeverQueued(more)
    ensures QueuedEvents(outbox + more) == QueuedEvents(outbox)
  {
    if more == [] {
      assert outbox + more == outbox;
    } else {
      var less := more[..|more| - 1];
      assert (outbox + more)[..|outbox + more| - 1] == outbox + less;
      NothingQueued(outbox, less);
    }
  }

  lemma RowStepsNeverQueue(config: Config, now: int, id: Id, row: Command, step: Step, swept: bool, agent: Id)
    ensures NeverQueued(Tagged(id, agent, RowStep(config, now, id, row, step, swept).notes))
  {
  }

  lemma NeverQueuedTwice(a: seq<Event>, b: seq<Event>)
    requires NeverQueued(a) && NeverQueued(b)
    ensures NeverQueued(a + b)
  {
  }

  lemma SweptNeverQueue(config: Config, store: Store, id: Id)
    requires id in store.rows
    ensures NeverQueued(SweptEvents(config, store, id))
  {
    var row := store.rows[id];
    RowStepsNeverQueue(config, store.now, id, row, Sweep([]), true, row.request.agent);
  }

  lemma {:induction false} SweepsNeverQueue(config: Config, store: Store, order: seq<Id>, n: nat)
    requires n <= |order| && IsOrderOf(order, store.rows)
    ensures NeverQueued(SweepEvents(config, store, order, n))
    decreases n
  {
    if n == 0 {
      assert SweepEvents(config, store, order, 0) == [];
    } else {
      SweepEventsStep(config, store, order, n);
      OrderSplits(store.rows, order, n, order[n - 1]);
      hide *;
      SweptNeverQueue(config, store, order[n - 1]);
      SweepsNeverQueue(config, store, order, n - 1);
      NeverQueuedTwice(SweepEvents(config, store, order, n - 1), SweptEvents(config, store, order[n - 1]));
    }
  }

  /** A step either creates one row and queues it, or does neither. */
  lemma StepsQueueWhatTheyCreate(config: Config, store: Store, step: Step)
    requires WellFormed(step)
    ensures var next := Next(config, store, step);
      QueuedEvents(next.outbox) - QueuedEvents(store.outbox) == |next.rows| - |store.rows|
  {
    hide Dispatch, RejectUnsupported, Transit, SweepRow, RevokeRow, Outcome, SweepEvents;
    hide QueuedEvents, NewCommand, NeverQueued, Tagged;
    var now, next := store.now, Next(config, store, step);
    match step
    case Advance(_) =>
    case CreateCommand(id, input) =>
      OneMoreEvent(store.outbox, Event(id, input.agent, Note(CommandQueued, 0)));
    case ClaimDispatch(id) =>
      if id in store.rows { PutQueuesNothing(config, store, id, step); }
    case RejectType(id) =>
      if id in store.rows { PutQueuesNothing(config, store, id, step); }
    case Receive(agent, message) =>
      var id := CommandIdOf(message);
      if id.Some? && id.value in store.rows { PutQueuesNothing(config, store, id.value, step); }
    case Sweep(order) =>
      if IsOrderOf(order, store.rows) {
        SweepsNeverQueue(config, store, order, |order|);
        NothingQueued(store.outbox, SweepEvents(config, store, order, |order|));
        assert next.rows.Keys == store.rows.Keys;
      }
    case Revoke(agent) =>
      OneMoreEvent(store.outbox, Event(agent, agent, Note(AgentRevoked, 0)));
      assert next.rows.Keys == store.rows.Keys;
  }

  lemma OneMoreEvent(outbox: seq<Event>, event: Event)
    ensures QueuedEvents(outbox + [event])
         == QueuedEvents(outbox) + if event.note.eventType.CommandQueued? then 1 else 0
  {
    assert (outbox + [event])[..|outbox|] == outbox;
  }

  lemma PutQueuesNothing(config: Config, store: Store, id: Id, step: Step)
    requires id in store.rows && !step.Sweep? && !step.Revoke?
    ensures var next := Put(store, id, RowStep(config, store.now, id, store.rows[id], step, false));
      QueuedEvents(next.outbox) == QueuedEvents(store.outbox) && |next.rows| == |store.rows|
  {
    var change := RowStep(config, store.now, id, store.rows[id], step, false);
    RowStepsNeverQueue(config, store.now, id, store.rows[id], step, false, change.row.request.agent);
    NothingQueued(store.outbox, Tagged(id, change.row.request.agent, change.notes));
    hide RowStep;
    assert Put(store, id, change).rows.Keys == store.rows.Keys;
  }

  /** Commands and queued events stay equal in number. */
  lemma {:induction false} AsManyQueuedAsCommands(config: Config, run: seq<Step>)
    requires AllWellFormed(run)
    ensures QueuedEvents(After(config, run).outbox) == |After(config, run).rows|
    decreases |run|
  {
    if run != [] {
      AfterStep(config, run);
      hide After, Next, QueuedEvents;
      AsManyQueuedAsCommands(config, run[..|run| - 1]);
      StepsQueueWhatTheyCreate(config, After(config, run[..|run| - 1]), run[|run| - 1]);
    }
  }
}
