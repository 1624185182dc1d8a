/**
 What holds of every command in every run: order and bounds of its timestamps, the exact shape
 of its event history, monotone status, frozen terminal rows, settlement and idempotency.
 */
module CommandRuns {
  import opened Prelude
  import opened Commands
  import CanonicalJson

  // ----- Every step acts on every row by itself -----

  lemma {:induction false} EventsOfAppended(a: seq<Event>, b: seq<Event>, id: Id)
    ensures EventsOf(a + b, id) == EventsOf(a, id) + EventsOf(b, id)
  {
    if b == [] {
      assert a + b == a;
    } else {
      var n := |b| - 1;
      assert (a + b)[..|a + b| - 1] == a + b[..n];
      EventsOfAppended(a, b[..n], id);
    }
  }

  predicate NoRevocation(notes: seq<Note>) {
    forall i :: 0 <= i < |notes| ==> !notes[i].eventType.AgentRevoked?
  }

  lemma {:induction false} EventsOfTagged(target: Id, agent: Id, notes: seq<Note>, id: Id)
    requires NoRevocation(notes)
    ensures EventsOf(Tagged(target, agent, notes), id) == if target == id then notes else []
  {
    if notes != [] {
      var n := |notes| - 1;
      EventsOfTagged(target, agent, notes[..n], id);
      assert Tagged(target, agent, notes)[..n] == Tagged(target, agent, notes[..n]);
      assert notes[..n] + [notes[n]] == notes;
    }
  }

  lemma RowChangesAreNotRevocations(config: Config, now: int, id: Id, row: Command, step: Step, swept: bool)
    ensures NoRevocation(RowStep(config, now, id, row, step, swept).notes)
  {
  }

  lemma EventsOfSwept(config: Config, store: Store, target: Id, id: Id)
    requires target in store.rows && id in store.rows
    ensures EventsOf(SweptEvents(config, store, target), id)
         == if target == id then SweepRow(config, store.now, store.rows[id]).notes else []
  {
    var row := store.rows[target];
    EventsOfTagged(target, row.request.agent, SweepRow(config, store.now, row).notes, id);
  }

  lemma SweepEventsStep(config: Config, store: Store, order: seq<Id>, n: nat)
    requires 0 < n <= |order| && IsOrderOf(order, store.rows)
    ensures SweepEvents(config, store, order, n)
         == SweepEvents(config, store, order, n - 1) + SweptEvents(config, store, order[n - 1])
  {
  }

  predicate Among(order: seq<Id>, n: nat, id: Id)
    requires n <= |order|
  {
    exists i :: 0 <= i < n && order[i] == id
  }

  lemma OrderSplits(rows: map<Id, Command>, order: seq<Id>, n: nat, id: Id)
    requires 0 < n <= |order| && IsOrderOf(order, rows)
    ensures order[n - 1] in rows
    ensures Among(order, n, id) <==> Among(order, n - 1, id) || id == order[n - 1]
    ensures id == order[n - 1] ==> !Among(order, n - 1, id)
  {
  }

  lemma NothingSweptYet(config: Config, store: Store, order: seq<Id>, id: Id)
    requires IsOrderOf(order, store.rows)
    ensures EventsOf(SweepEvents(config, store, order, 0), id) == [] && !Among(order, 0, id)
  {
  }

  lemma SweptOneMore(config: Config, store: Store, order: seq<Id>, n: nat, id: Id)
    requires 0 < n <= |order| && IsOrderOf(order, store.rows) && id in store.rows
    ensures EventsOf(SweepEvents(config, store, order, n), id)
         == EventsOf(SweepEvents(config, store, order, n - 1), id)
          + if order[n - 1] == id then SweepRow(config, store.now, store.rows[id]).notes else []
  {
    SweepEventsStep(config, store, order, n);
    OrderSplits(store.rows, order, n, id);
    hide *;
    EventsOfSwept(config, store, order[n - 1], id);
    EventsOfAppended(SweepEvents(config, store, order, n - 1), SweptEvents(config, store, order[n - 1]), id);
  }

  lemma {:induction false} EventsOfSweep(config: Config, store: Store, order: seq<Id>, n: nat, id: Id)
    requires n <= |order| && IsOrderOf(order, store.rows) && id in store.rows
    ensures EventsOf(SweepEvents(config, store, order, n), id)
         == if Among(order, n, id) then SweepRow(config, store.now, store.rows[id]).notes else []
    decreases n
  {
    hide *;
    if n == 0 {
      NothingSweptYet(config, store, order, id);
    } else {
      SweptOneMore(config, store, order, n, id);
      OrderSplits(store.rows, order, n, id);
      EventsOfSweep(config, store, order, n - 1, id);
    }
  }

  predicate Swept(store: Store, step: Step) {
    step.Sweep? && IsOrderOf(step.order, store.rows)
  }

  function StepOn(config: Config, store: Store, id: Id, step: Step): Change
    requires id in store.rows
  {
    RowStep(config, store.now, id, store.rows[id], step, Swept(store, step))
  }

  lemma PutActsOnRow(store: Store, target: Id, change: Change, id: Id)
    requires target in store.rows && id in store.rows && NoRevocation(change.notes)
    ensures var next := Put(store, target, change);
      && id in next.rows && next.rows[id] == (if target == id then change.row else store.rows[id])
      && EventsOf(next.outbox, id) == EventsOf(store.outbox, id) + if target == id then change.notes else []
  {
    EventsOfTagged(target, change.row.request.agent, change.notes, id);
    EventsOfAppended(store.outbox, Tagged(target, change.row.request.agent, change.notes), id);
  }

  lemma SweepActsOnRow(config: Config, store: Store, order: seq<Id>, id: Id)
    requires id in store.rows
    ensures var next, change := Next(config, store, Sweep(order)), StepOn(config, store, id, Sweep(order));
      && id in next.rows && next.rows[id] == change.row
      && EventsOf(next.outbox, id) == EventsOf(store.outbox, id) + change.notes
  {
    hide EventsOf, SweepRow, SweepEvents;
    if IsOrderOf(order, store.rows) {
      EventsOfSweep(config, store, order, |order|, id);
      assert id in order;
      EventsOfAppended(store.outbox, SweepEvents(config, store, order, |order|), id);
    }
  }

  lemma SingleEvent(outbox: seq<Event>, event: Event, id: Id)
    ensures EventsOf(outbox + [event], id) == EventsOf(outbox, id) + if ForCommand(event, id) then [event.note] else []
  {
    assert (outbox + [event])[..|outbox|] == outbox;
  }

  /** One step changes each existing row, and the events of that row, by the row's own step. */
  lemma {:induction false} StepActsOnRow(config: Config, store: Store, step: Step, id: Id)
    requires WellFormed(step) && id in store.rows
    ensures var next, change := Next(config, store, step), StepOn(config, store, id, step);
      && id in next.rows && next.rows[id] == change.row
      && EventsOf(next.outbox, id) == EventsOf(store.outbox, id) + change.notes
  {
    hide EventsOf, Dispatch, RejectUnsupported, Transit, SweepRow, RevokeRow, Outcome;
    var now := store.now;
    match step
    case Advance(_) =>
    case CreateCommand(created, input) =>
      SingleEvent(store.outbox, Event(created, input.agent, Note(CommandQueued, 0)), id);
    case ClaimDispatch(target) =>
      if target in store.rows {
        RowChangesAreNotRevocations(config, now, target, store.rows[target], step, false);
        PutActsOnRow(store, target, Dispatch(now, store.rows[target]), id);
      }
    case RejectType(target) =>
      if target in store.rows {
        RowChangesAreNotRevocations(config, now, target, store.rows[target], step, false);
        PutActsOnRow(store, target, RejectUnsupported(now, store.rows[target]), id);
      }
    case Receive(agent, message) =>
      var target := CommandIdOf(message);
      if target.Some? && target.value in store.rows {
        RowChangesAreNotRevocations(config, now, target.value, store.rows[target.value], step, false);
        PutActsOnRow(store, target.value, Transit(now, store.rows[target.value], agent, message), id);
      }
    case Sweep(order) =>
      SweepActsOnRow(config, store, order, id);
    case Revoke(agent) =>
      SingleEvent(store.outbox, Event(agent, agent, Note(AgentRevoked, 0)), id);
      RevokedSilently(now, store.rows[id], agent);
  }

  lemma RevokedSilently(now: int, row: Command, agent: Id)
    ensures RevokeRow(now, row, agent).notes == []
  {
  }

  // ----- The timestamps of a row -----

  predicate NotAfter(a: Option<int>, b: Option<int>) {
    a.Some? && b.Some? ==> a.value <= b.value
  }

  predicate Between(low: int, stamp: Option<int>, high: int) {
    stamp.Some? ==> low <= stamp.value <= high
  }

  /** Which timestamps are set in which status. */
  predicate Staged(row: Command) {
    && (row.completedAt.Some? <==> Terminal(row.status))
    && (row.dispatchedAt.Some? <==> row.dispatchAttempts > 0)
    && (row.lastDispatchAt.Some? <==> row.dispatchAttempts > 0)
    && (row.status.Queued? ==> row.dispatchAttempts == 0)
    && (row.status.Dispatched? ==> row.dispatchAttempts > 0)
    && (row.status.Queued? || row.status.Dispatched? ==> row.acceptedAt.None?)
    && (row.status.Accepted? ==> row.acceptedAt.Some?)
    && (row.status.Queued? || row.status.Dispatched? || row.status.Accepted? ==> row.startedAt.None?)
    && (row.status.Running? ==> row.startedAt.Some? && (row.acceptedAt.Some? || row.dispatchAttempts > 0))
  }

  /** The dispatches lie inside the life of the command and more than the redispatch delay apart. */
  predicate DispatchesInTime(row: Command) {
    row.dispatchedAt.Some? && row.lastDispatchAt.Some? ==>
      && row.request.createdAt <= row.dispatchedAt.value
      && row.dispatchedAt.value + (row.dispatchAttempts - 1) * REDISPATCH_AFTER <= row.lastDispatchAt.value
      && row.lastDispatchAt.value < row.request.expiresAt
  }

  /** The timestamps follow the life of the command: created, dispatched, accepted, started, completed. */
  predicate InOrder(now: int, row: Command) {
    var created := row.request.createdAt;
    && created <= now
    && MIN_TTL * SECOND <= row.request.expiresAt - created <= MAX_TTL * SECOND
    && Between(created, row.lastDispatchAt, now) && Between(created, row.acceptedAt, now)
    && Between(created, row.startedAt, now) && Between(created, row.completedAt, now)
    && NotAfter(row.lastDispatchAt, row.acceptedAt) && NotAfter(row.lastDispatchAt, row.startedAt)
    && NotAfter(row.acceptedAt, row.startedAt) && NotAfter(row.startedAt, row.completedAt)
    && NotAfter(row.acceptedAt, row.completedAt) && NotAfter(row.lastDispatchAt, row.completedAt)
  }

  predicate Sound(now: int, row: Command) {
    Staged(row) && DispatchesInTime(row) && InOrder(now, row)
  }

  lemma DispatchKeepsSound(now: int, row: Command)
    requires Sound(now, row)
    ensures Sound(now, Dispatch(now, row).row)
  {
  }

  /** The row has ended now; everything else about its life is as it was. */
  predicate EndsNow(now: int, row: Command, ended: Command) {
    && !Terminal(row.status) && Terminal(ended.status) && ended.completedAt == Some(now)
    && ended.request == row.request && ended.dispatchAttempts == row.dispatchAttempts
    && ended.dispatchedAt == row.dispatchedAt && ended.lastDispatchAt == row.lastDispatchAt
    && ended.acceptedAt == row.acceptedAt && ended.startedAt == row.startedAt
  }

  lemma EndsNowKeepsSound(now: int, row: Command, ended: Command)
    requires Sound(now, row) && EndsNow(now, row, ended)
    ensures Sound(now, ended)
  {
  }

  lemma SweepEndsNow(config: Config, now: int, row: Command)
    ensures SweepRow(config, now, row).row == row || EndsNow(now, row, SweepRow(config, now, row).row)
  {
  }

  lemma RevokeEndsNow(now: int, row: Command, agent: Id)
    ensures RevokeRow(now, row, agent).row == row || EndsNow(now, row, RevokeRow(now, row, agent).row)
  {
  }

  lemma RejectEndsNow(now: int, row: Command)
    ensures RejectUnsupported(now, row).row == row || EndsNow(now, row, RejectUnsupported(now, row).row)
  {
  }

  lemma EndingKeepsSound(config: Config, now: int, row: Command, agent: Id)
    requires Sound(now, row)
    ensures Sound(now, SweepRow(config, now, row).row)
    ensures Sound(now, RevokeRow(now, row, agent).row)
    ensures Sound(now, RejectUnsupported(now, row).row)
  {
    hide Sound, SweepRow, RevokeRow, RejectUnsupported, EndsNow;
    var swept, revoked := SweepRow(config, now, row).row, RevokeRow(now, row, agent).row;
    var rejected := RejectUnsupported(now, row).row;
    SweepEndsNow(config, now, row);
    RevokeEndsNow(now, row, agent);
    RejectEndsNow(now, row);
    if swept != row { EndsNowKeepsSound(now, row, swept); }
    if revoked != row { EndsNowKeepsSound(now, row, revoked); }
    if rejected != row { EndsNowKeepsSound(now, row, rejected); }
  }

  /** What an agent message does to a row that it reaches. */
  lemma {:induction false} TransitEffect(now: int, row: Command, agent: Id, message: Message)
    requires Staged(row)
    ensures var change := Transit(now, row, agent, message);
      var changed := change.row;
      || change == Same(row)
      || (EndsNow(now, row, changed) && change.notes == [Note(EndEvent(changed.status), 0)])
      || ((row.status.Queued? || row.status.Dispatched?) && changed.status.Accepted?
          && change.notes == [Note(CommandAccepted, 0)]
          && OnlyStamps(row, changed, Some(now), row.startedAt))
      || ((row.status.Dispatched? || row.status.Accepted? || row.status.Running?) && changed.status.Running?
          && change.notes == [Note(CommandRunning, 0)]
          && OnlyStamps(row, changed, row.acceptedAt, Some(row.startedAt.GetOr(now))))
  {
  }

  predicate OnlyStamps(row: Command, changed: Command, acceptedAt: Option<int>, startedAt: Option<int>) {
    && changed.acceptedAt == acceptedAt && changed.startedAt == startedAt && changed.completedAt == row.completedAt
    && changed.request == row.request && changed.dispatchAttempts == row.dispatchAttempts
    && changed.dispatchedAt == row.dispatchedAt && changed.lastDispatchAt == row.lastDispatchAt
  }

  lemma TransitKeepsSound(now: int, row: Command, agent: Id, message: Message)
    requires Sound(now, row)
    ensures Sound(now, Transit(now, row, agent, message).row)
  {
    TransitEffect(now, row, agent, message);
    hide Transit;
    var changed := Transit(now, row, agent, message).row;
    if changed != row && Terminal(changed.status) {
      EndsNowKeepsSound(now, row, changed);
    }
  }

  lemma {:induction false} RowStepKeepsSound(config: Config, now: int, id: Id, row: Command, step: Step, swept: bool)
    requires Sound(now, row)
    ensures Sound(now, RowStep(config, now, id, row, step, swept).row)
  {
    hide Sound, Dispatch, RejectUnsupported, Transit, SweepRow, RevokeRow;
    match step
    case ClaimDispatch(_) => DispatchKeepsSound(now, row);
    case Receive(agent, message) => TransitKeepsSound(now, row, agent, message);
    case Revoke(agent) => EndingKeepsSound(config, now, row, agent);
    case RejectType(_) => EndingKeepsSound(config, now, row, 0);
    case Sweep(_) => EndingKeepsSound(config, now, row, 0);
    case _ =>
  }

  // ----- Which step leads from which status to which -----

  /** A message about this command from its own agent. */
  predicate OwnMessage(id: Id, row: Command, step: Step) {
    step.Receive? && step.agent == row.request.agent && CommandIdOf(step.message) == Some(id)
  }

  predicate Completes(id: Id, row: Command, step: Step) {
    OwnMessage(id, row, step) && step.message.body.CompletedBody?
  }

  /** The status graph of the protocol, edge by edge, with what takes each edge. */
  predicate MayBecome(config: Config, now: int, id: Id, row: Command, step: Step, swept: bool, to: Status) {
    var cancels := Completes(id, row, step) && step.message.body.reported == "cancelled";
    var fails := Completes(id, row, step) && step.message.body.success == Some(false);
    && !Terminal(row.status)
    && match to
       case Queued => false
       case Dispatched => step == ClaimDispatch(id) && row.status.Queued? && now < row.request.expiresAt
       case Accepted =>
         OwnMessage(id, row, step) && step.message.body.AcceptedBody? && (row.status.Queued? || row.status.Dispatched?)
       case Running =>
         && OwnMessage(id, row, step) && step.message.body.ProgressBody?
         && (row.status.Dispatched? || row.status.Accepted?)
       case Succeeded => Completes(id, row, step) && !cancels && !fails
       case Failed =>
         || (fails && !cancels)
         || (step.Sweep? && swept && row.status.Running? && row.startedAt.Some?
             && row.startedAt.value + config.maxRunningSeconds * SECOND < now)
       case Cancelled => cancels || (step == Revoke(row.request.agent) && !row.status.Running?)
       case Expired => step.Sweep? && swept && !row.status.Running? && row.request.expiresAt < now
       case Rejected =>
         || (OwnMessage(id, row, step) && step.message.body.RejectedBody? && !row.status.Running?)
         || (step == RejectType(id) && row.status.Dispatched? && MessageName(row.request.commandType).None?)
  }

  /** A step takes a row to another status if and only if the graph has that edge. */
  lemma {:induction false} StatusChangesExactlyAlongEdges(
      config: Config, now: int, id: Id, row: Command, step: Step, swept: bool, to: Status)
    requires to != row.status
    ensures RowStep(config, now, id, row, step, swept).row.status == to
       <==> MayBecome(config, now, id, row, step, swept, to)
  {
    hide *;
    match step
    case Receive(_, _) => MessageEdges(config, now, id, row, step, swept, to);
    case Sweep(_) => SweepEdges(config, now, id, row, step, swept, to);
    case Revoke(_) => RevokeEdges(config, now, id, row, step, swept, to);
    case _ => DispatchEdges(config, now, id, row, step, swept, to);
  }

  lemma MessageEdges(config: Config, now: int, id: Id, row: Command, step: Step, swept: bool, to: Status)
    requires step.Receive? && to != row.status
    ensures RowStep(config, now, id, row, step, swept).row.status == to
       <==> MayBecome(config, now, id, row, step, swept, to)
  {
    hide MessageName, CommandIdOf;
  }

  lemma SweepEdges(config: Config, now: int, id: Id, row: Command, step: Step, swept: bool, to: Status)
    requires step.Sweep? && to != row.status
    ensures RowStep(config, now, id, row, step, swept).row.status == to
       <==> MayBecome(config, now, id, row, step, swept, to)
  {
    hide MessageName, CommandIdOf;
  }

  lemma RevokeEdges(config: Config, now: int, id: Id, row: Command, step: Step, swept: bool, to: Status)
    requires step.Revoke? && to != row.status
    ensures RowStep(config, now, id, row, step, swept).row.status == to
       <==> MayBecome(config, now, id, row, step, swept, to)
  {
    hide MessageName, CommandIdOf;
  }

  lemma DispatchEdges(config: Config, now: int, id: Id, row: Command, step: Step, swept: bool, to: Status)
    requires !step.Receive? && !step.Sweep? && !step.Revoke? && to != row.status
    ensures RowStep(config, now, id, row, step, swept).row.status == to
       <==> MayBecome(config, now, id, row, step, swept, to)
  {
    hide MessageName, CommandIdOf;
  }

  // ----- The event history of a row -----

  function DispatchNotes(n: nat): seq<Note> {
    if n == 0 then []
    else DispatchNotes(n - 1) + [Note(if n == 1 then CommandDispatched else CommandRedispatched, n)]
  }

  function ProgressNotes(n: nat): seq<Note> {
    seq(n, i => Note(CommandRunning, 0))
  }

  function AcceptedNotes(accepted: bool): seq<Note> {
    if accepted then [Note(CommandAccepted, 0)] else []
  }

  function EndEvent(status: Status): EventType
    requires Terminal(status)
  {
    match status
    case Succeeded => CommandSucceeded
    case Failed => CommandFailed
    case Cancelled => CommandCancelled
    case Expired => CommandExpired
    case Rejected => CommandRejected
  }

  /** Queued, the numbered dispatches, at most one acceptance, progress, and at most one end. */
  function Lifecycle(dispatches: nat, accepted: bool, progress: nat, ending: seq<Note>): seq<Note> {
    [Note(CommandQueued, 0)] + DispatchNotes(dispatches) + AcceptedNotes(accepted) + ProgressNotes(progress) + ending
  }

  /** The two ends that append no event of the command: revocation, and an unknown command type. */
  predicate SilentlyEnded(row: Command) {
    && row.startedAt.None?
    && (|| (row.status == Cancelled && row.errorCode == Some("AGENT_REVOKED"))
        || (row.status == Rejected && row.errorCode == Some("UNSUPPORTED_COMMAND_TYPE")
            && row.acceptedAt.None? && row.dispatchAttempts > 0 && MessageName(row.request.commandType).None?))
  }

  predicate EndingFits(row: Command, ending: seq<Note>) {
    || (ending == [] && (Terminal(row.status) ==> SilentlyEnded(row)))
    || (Terminal(row.status) && ending == [Note(EndEvent(row.status), 0)])
  }

  predicate RecordedAs(row: Command, notes: seq<Note>, progress: nat, ending: seq<Note>) {
    && (progress > 0 <==> row.startedAt.Some?)
    && EndingFits(row, ending)
    && notes == Lifecycle(row.dispatchAttempts, row.acceptedAt.Some?, progress, ending)
  }

  lemma LifecycleGrows(dispatches: nat, accepted: bool, progress: nat, more: Note)
    ensures Lifecycle(dispatches, accepted, progress, []) + [more] == Lifecycle(dispatches, accepted, progress, [more])
    ensures !accepted && progress == 0 ==>
      Lifecycle(dispatches, false, 0, [])
        + [Note(if dispatches == 0 then CommandDispatched else CommandRedispatched, dispatches + 1)]
        == Lifecycle(dispatches + 1, false, 0, [])
    ensures !accepted && progress == 0 ==>
      Lifecycle(dispatches, false, 0, []) + [Note(CommandAccepted, 0)] == Lifecycle(dispatches, true, 0, [])
    ensures Lifecycle(dispatches, accepted, progress, []) + [Note(CommandRunning, 0)]
         == Lifecycle(dispatches, accepted, progress + 1, [])
  {
    assert ProgressNotes(progress) + [Note(CommandRunning, 0)] == ProgressNotes(progress + 1);
  }

  predicate AppendsNewStatus(row: Command, change: Change) {
    && !Terminal(row.status) && |change.notes| == 1
    && match change.row.status
       case Queued => false
       case Dispatched =>
         && row.acceptedAt.None? && row.startedAt.None?
         && change.row.dispatchAttempts == row.dispatchAttempts + 1
         && change.row.acceptedAt == row.acceptedAt && change.row.startedAt == row.startedAt
         && change.notes[0] == Note(
              if row.dispatchAttempts == 0 then CommandDispatched else CommandRedispatched, row.dispatchAttempts + 1)
       case Accepted =>
         && row.acceptedAt.None? && row.startedAt.None? && change.row.acceptedAt.Some? && change.row.startedAt.None?
         && change.row.dispatchAttempts == row.dispatchAttempts && change.notes[0] == Note(CommandAccepted, 0)
       case Running =>
         && change.row.startedAt.Some? && change.row.acceptedAt == row.acceptedAt
         && change.row.dispatchAttempts == row.dispatchAttempts && change.notes[0] == Note(CommandRunning, 0)
       case _ =>
         && change.row.acceptedAt == row.acceptedAt && change.row.startedAt == row.startedAt
         && change.row.dispatchAttempts == row.dispatchAttempts
         && change.notes[0] == Note(EndEvent(change.row.status), 0)
  }

  /** A step that appends an event works on a live row and appends the event of the new status. */
  lemma NotedRowsAreLive(config: Config, now: int, id: Id, row: Command, step: Step, swept: bool)
    requires Staged(row) && RowStep(config, now, id, row, step, swept).notes != []
    ensures AppendsNewStatus(row, RowStep(config, now, id, row, step, swept))
  {
    hide AppendsNewStatus, Dispatch, Transit, SweepRow;
    match step
    case ClaimDispatch(_) => DispatchAppends(now, row);
    case Receive(agent, message) => TransitAppends(now, row, agent, message);
    case Sweep(_) => SweepAppends(config, now, row);
    case _ =>
  }

  lemma DispatchAppends(now: int, row: Command)
    requires Staged(row) && Dispatch(now, row).notes != []
    ensures AppendsNewStatus(row, Dispatch(now, row))
  {
  }

  lemma TransitAppends(now: int, row: Command, agent: Id, message: Message)
    requires Staged(row) && Transit(now, row, agent, message).notes != []
    ensures AppendsNewStatus(row, Transit(now, row, agent, message))
  {
    TransitEffect(now, row, agent, message);
    hide Transit;
  }

  lemma SweepAppends(config: Config, now: int, row: Command)
    requires Staged(row) && SweepRow(config, now, row).notes != []
    ensures AppendsNewStatus(row, SweepRow(config, now, row))
  {
  }

  predicate EndsSilently(row: Command, changed: Command) {
    && !Terminal(row.status) && Terminal(changed.status) && SilentlyEnded(changed)
    && changed.acceptedAt == row.acceptedAt && changed.startedAt == row.startedAt
    && changed.dispatchAttempts == row.dispatchAttempts
  }

  /** The two steps that end a row without an event of the command. */
  predicate EndsUnrecorded(id: Id, row: Command, step: Step) {
    || (step == Revoke(row.request.agent) && Unstarted(row.status))
    || (step == RejectType(id) && row.status.Dispatched? && MessageName(row.request.commandType).None?)
  }

  /**
   A step changes a row without an event of the command if and only if it revokes the agent of
   an unstarted command or rejects a dispatched one of unknown type; the row then ends.
   */
  lemma {:induction false} SilentStepsEnd(config: Config, now: int, id: Id, row: Command, step: Step, swept: bool)
    requires Staged(row)
    ensures var change := RowStep(config, now, id, row, step, swept);
      && (change.notes == [] && change.row != row <==> EndsUnrecorded(id, row, step))
      && (EndsUnrecorded(id, row, step) ==> EndsSilently(row, change.row))
  {
    hide MessageName, Staged, EndsSilently, EndsUnrecorded, Dispatch, Transit, SweepRow, RevokeRow, RejectUnsupported;
    match step
    case ClaimDispatch(_) => NotUnrecorded(config, now, id, row, step, swept);
    case RejectType(_) => RejectionIsUnrecorded(config, now, id, row, step, swept);
    case Receive(_, _) => NotUnrecorded(config, now, id, row, step, swept);
    case Sweep(_) => NotUnrecorded(config, now, id, row, step, swept);
    case Revoke(_) => RevocationIsUnrecorded(config, now, id, row, step, swept);
    case _ => NotUnrecorded(config, now, id, row, step, swept);
  }

  lemma NotUnrecorded(config: Config, now: int, id: Id, row: Command, step: Step, swept: bool)
    requires !step.RejectType? && !step.Revoke?
    ensures var change := RowStep(config, now, id, row, step, swept);
      (change.notes == [] ==> change.row == row) && !EndsUnrecorded(id, row, step)
  {
    hide MessageName;
  }

  lemma RevocationIsUnrecorded(config: Config, now: int, id: Id, row: Command, step: Step, swept: bool)
    requires Staged(row) && step.Revoke?
    ensures var change := RowStep(config, now, id, row, step, swept);
      && (change.notes == [] && change.row != row <==> EndsUnrecorded(id, row, step))
      && (EndsUnrecorded(id, row, step) ==> EndsSilently(row, change.row))
  {
    hide MessageName;
  }

  lemma RejectionIsUnrecorded(config: Config, now: int, id: Id, row: Command, step: Step, swept: bool)
    requires Staged(row) && step.RejectType?
    ensures var change := RowStep(config, now, id, row, step, swept);
      && (change.notes == [] && change.row != row <==> EndsUnrecorded(id, row, step))
      && (EndsUnrecorded(id, row, step) ==> EndsSilently(row, change.row))
  {
    hide MessageName;
  }

  lemma NoteContinues(row: Command, change: Change, notes: seq<Note>, progress: nat, ending: seq<Note>)
    returns (progress': nat, ending': seq<Note>)
    requires AppendsNewStatus(row, change) && RecordedAs(row, notes, progress, ending)
    ensures RecordedAs(change.row, notes + change.notes, progress', ending')
  {
    var note := change.notes[0];
    LifecycleGrows(row.dispatchAttempts, row.acceptedAt.Some?, progress, note);
    hide Lifecycle;
    progress', ending' := progress, ending;
    assert change.notes == [note];
    if change.row.status.Running? {
      progress' := progress + 1;
    } else if Terminal(change.row.status) {
      ending' := [note];
    }
  }

  lemma SilenceContinues(row: Command, changed: Command, notes: seq<Note>, progress: nat, ending: seq<Note>)
    requires EndsSilently(row, changed) && RecordedAs(row, notes, progress, ending)
    ensures RecordedAs(changed, notes, progress, [])
  {
    hide Lifecycle;
  }

  /** The history grows with the row: whatever a step appends continues the lifecycle. */
  lemma {:induction false} RowStepKeepsRecord(
      config: Config, now: int, id: Id, row: Command, step: Step, swept: bool,
      notes: seq<Note>, progress: nat, ending: seq<Note>)
    returns (progress': nat, ending': seq<Note>)
    requires Staged(row) && RecordedAs(row, notes, progress, ending)
    ensures var change := RowStep(config, now, id, row, step, swept);
      RecordedAs(change.row, notes + change.notes, progress', ending')
  {
    hide *;
    var change := RowStep(config, now, id, row, step, swept);
    progress', ending' := progress, ending;
    if change.notes != [] {
      NotedRowsAreLive(config, now, id, row, step, swept);
      progress', ending' := NoteContinues(row, change, notes, progress, ending);
    } else {
      assert notes + change.notes == notes;
      SilentStepsEnd(config, now, id, row, step, swept);
      if row != change.row {
        SilenceContinues(row, change.row, notes, progress, ending);
        ending' := [];
      }
    }
  }
}
