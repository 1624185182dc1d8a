/**
 The promises of the webhook pipeline over whole runs: frozen results, one materialization per
 event, bounded and spaced attempts, removal without remains, and what a crash leaves behind.
 */
module WebhookGuarantees {
  import opened Prelude
  import opened Webhooks
  import opened WebhookRuns

  // ----- The log -----

  /** What a step appends to the log. */
  function Entries(config: Config, state: State, step: Step): seq<Entry> {
    match step
    case Materialize(id) => if Unmarked(state, id) then [Materialized(id, MatchingKeys(state, id))] else []
    case Claim(worker, key) =>
      if worker !in state.workers && Claimable(state, key) then
        [Claimed(key, state.deliveries[key].attempts + 1, state.now)]
      else []
    case Remove(id) => if Removable(config, state, id) then [Removed(id)] else []
    case _ => []
  }

  lemma LogStep(config: Config, state: State, step: Step)
    ensures Next(config, state, step).log == state.log + Entries(config, state, step)
  {
    hide NewDelivery, Matches, MatchingKeys, Removable, Report, Claimable, Unmarked;
  }

  predicate Mentions(entry: Entry, id: Id) {
    match entry
    case Materialized(event, _) => event == id
    case Claimed(key, _, _) => key.event == id
    case Removed(event) => event == id
  }

  lemma EntriesMentionEvents(config: Config, state: State, step: Step, id: Id)
    requires id !in state.events
    ensures forall i :: 0 <= i < |Entries(config, state, step)| ==> !Mentions(Entries(config, state, step)[i], id)
  {
    hide MatchingKeys;
  }

  /** The event has been in the outbox and retention has removed it. */
  predicate Gone(state: State, id: Id) {
    id in state.usedEvents && id !in state.events
  }

  lemma AfterOneMore(config: Config, run: seq<Step>, step: Step)
    ensures After(config, run + [step]) == Next(config, After(config, run), step)
  {
    assert (run + [step])[..|run + [step]| - 1] == run;
  }

  lemma RunOneMore(config: Config, run: seq<Step>, more: seq<Step>)
    requires more != []
    ensures After(config, run + more) == Next(config, After(config, run + more[..|more| - 1]), more[|more| - 1])
  {
    assert run + more == run + more[..|more| - 1] + [more[|more| - 1]];
    AfterOneMore(config, run + more[..|more| - 1], more[|more| - 1]);
  }

  predicate SilentSince(log: seq<Entry>, n: nat, id: Id) {
    n <= |log| && forall i :: n <= i < |log| ==> !Mentions(log[i], id)
  }

  /** A removed event never comes back and nothing is ever delivered for it again. */
  lemma {:induction false} RemovedStaysRemoved(config: Config, run: seq<Step>, more: seq<Step>, id: Id)
    requires Gone(After(config, run), id)
    ensures Gone(After(config, run + more), id)
    ensures SilentSince(After(config, run + more).log, |After(config, run).log|, id)
    decreases |more|
  {
    hide *;
    if more == [] {
      assert run + more == run;
      SilentNow(After(config, run).log, id);
    } else {
      RunOneMore(config, run, more);
      RemovedStaysRemoved(config, run, more[..|more| - 1], id);
      GoneStep(config, After(config, run + more[..|more| - 1]), more[|more| - 1], |After(config, run).log|, id);
    }
  }

  lemma SilentNow(log: seq<Entry>, id: Id)
    ensures SilentSince(log, |log|, id)
  {
  }

  lemma GoneStep(config: Config, state: State, step: Step, n: nat, id: Id)
    requires Gone(state, id) && SilentSince(state.log, n, id)
    ensures Gone(Next(config, state, step), id) && SilentSince(Next(config, state, step).log, n, id)
  {
    EventStep(config, state, step, id);
    LogStep(config, state, step);
    EntriesMentionEvents(config, state, step, id);
    hide Next, Entries, Mentions;
  }

  /**
   An event disappears only by retention: it is old enough and marked, all its deliveries are
   resolved, and its marker and deliveries disappear with it.
   */
  lemma {:induction false} RemovalIsComplete(config: Config, run: seq<Step>, step: Step, id: Id)
    requires id in After(config, run).events && id !in After(config, run + [step]).events
    ensures var before, after := After(config, run), After(config, run + [step]);
      && step == Remove(id) && id in before.markers
      && before.events[id].createdAt < before.now - RetentionDays(config) * DAY
      && (forall key :: key in before.deliveries && key.event == id ==> Resolved(before.deliveries[key].status))
      && id !in after.markers && (forall key :: key in after.deliveries ==> key.event != id)
  {
    AfterOneMore(config, run, step);
    EventsAreUsed(config, run, id);
    EventStep(config, After(config, run), step, id);
    hide After;
  }

  // ----- Each event is materialized once -----

  predicate IsMaterialization(entry: Entry, id: Id) {
    entry.Materialized? && entry.event == id
  }

  function Materializations(log: seq<Entry>, id: Id): nat {
    if log == [] then 0
    else Materializations(log[..|log| - 1], id) + if IsMaterialization(log[|log| - 1], id) then 1 else 0
  }

  lemma MaterializationsAppended(log: seq<Entry>, more: seq<Entry>, id: Id)
    requires |more| <= 1
    ensures Materializations(log + more, id)
         == Materializations(log, id) + if |more| == 1 && IsMaterialization(more[0], id) then 1 else 0
  {
    if more == [] {
      assert log + more == log;
    } else {
      assert (log + more)[..|log|] == log;
    }
  }

  predicate MaterializedOnce(state: State, id: Id) {
    && Materializations(state.log, id) <= 1
    && (id !in state.usedEvents || Unmarked(state, id) ==> Materializations(state.log, id) == 0)
    && (id in state.markers ==> Materializations(state.log, id) == 1)
  }

  lemma EntriesMaterialize(config: Config, state: State, step: Step, id: Id)
    ensures var entries := Entries(config, state, step);
      && |entries| <= 1
      && (|entries| == 1 && IsMaterialization(entries[0], id) <==> step == Materialize(id) && Unmarked(state, id))
  {
    hide MatchingKeys, Claimable, Removable;
  }

  lemma OnceStep(config: Config, state: State, step: Step, id: Id)
    requires MaterializedOnce(state, id)
    requires id in state.events ==> id in state.usedEvents
    ensures MaterializedOnce(Next(config, state, step), id)
  {
    EventStep(config, state, step, id);
    MarkerStep(config, state, step, id);
    LogStep(config, state, step);
    EntriesMaterialize(config, state, step, id);
    MaterializationsAppended(state.log, Entries(config, state, step), id);
    if step == Materialize(id) && Unmarked(state, id) {
      MaterializingMarks(config, state, id);
    }
    hide Next, Entries, Materializations, Removable;
  }

  /** In every run each event is materialized at most once, and exactly once if it is marked. */
  lemma {:induction false} EventsMaterializeOnce(config: Config, run: seq<Step>, id: Id)
    ensures MaterializedOnce(After(config, run), id)
    decreases |run|
  {
    hide Next, Unmarked, Materializations;
    if run != [] {
      AfterStep(config, run);
      hide After, MaterializedOnce;
      var before := run[..|run| - 1];
      EventsMaterializeOnce(config, before, id);
      if id in After(config, before).events { EventsAreUsed(config, before, id); }
      OnceStep(config, After(config, before), run[|run| - 1], id);
    } else {
      assert Materializations([], id) == 0 by { EmptyLog(id); }
    }
  }

  lemma EmptyLog(id: Id)
    ensures Materializations([], id) == 0
  {
  }

  /**
   The one materialization of an event creates exactly one pending delivery for each endpoint
   that is enabled and matches at that moment, and touches no other delivery.
   */
  lemma {:induction false} MaterializesExactlyTheMatches(config: Config, run: seq<Step>, id: Id, key: Key)
    requires Unmarked(After(config, run), id)
    ensures var before, after := After(config, run), After(config, run + [Materialize(id)]);
      && id in after.markers && after.log == before.log + [Materialized(id, MatchingKeys(before, id))]
      && if key.event == id then
           && key !in before.deliveries && (key in after.deliveries <==> IsMatch(before, id, key))
           && (key in after.deliveries ==> after.deliveries[key] == NewDelivery(before.now, before.events[id]))
         else
           && (key in after.deliveries <==> key in before.deliveries)
           && (key in before.deliveries ==> after.deliveries[key] == before.deliveries[key])
  {
    AfterOneMore(config, run, Materialize(id));
    if key in After(config, run).deliveries {
      DeliveriesAreLinked(config, run, key);
    }
    hide After, Matches, NewDelivery;
  }

  // ----- Deliveries come from materializations, and are not lost -----

  predicate Came(log: seq<Entry>, key: Key, i: nat) {
    i < |log| && log[i].Materialized? && log[i].event == key.event && key in log[i].keys
  }

  lemma CameStays(log: seq<Entry>, more: seq<Entry>, key: Key, i: nat)
    requires Came(log, key, i)
    ensures Came(log + more, key, i)
  {
  }

  lemma MaterializationCreates(config: Config, state: State, key: Key)
    requires Unmarked(state, key.event)
    ensures IsMatch(state, key.event, key) <==> key in MatchingKeys(state, key.event)
    ensures key in MatchingKeys(state, key.event) ==>
      key in Next(config, state, Materialize(key.event)).deliveries
    ensures Entries(config, state, Materialize(key.event)) == [Materialized(key.event, MatchingKeys(state, key.event))]
  {
    hide Matches, NewDelivery;
  }

  /** Every delivery was created by the materialization of its event. */
  lemma {:induction false} DeliveriesWereMaterialized(config: Config, run: seq<Step>, key: Key) returns (i: nat)
    requires key in After(config, run).deliveries
    ensures Came(After(config, run).log, key, i)
    decreases |run|
  {
    AfterStep(config, run);
    hide *;
    var before, step := run[..|run| - 1], run[|run| - 1];
    var state := After(config, before);
    DeliveryStep(config, state, step, key);
    LogStep(config, state, step);
    if key in state.deliveries {
      i := DeliveriesWereMaterialized(config, before, key);
      CameStays(state.log, Entries(config, state, step), key, i);
    } else {
      MaterializationCreates(config, state, key);
      i := |state.log|;
      CameLast(state.log, key, MatchingKeys(state, key.event));
    }
  }

  lemma CameLast(log: seq<Entry>, key: Key, keys: set<Key>)
    requires key in keys
    ensures Came(log + [Materialized(key.event, keys)], key, |log|)
  {
  }

  /** The delivery is there, or its endpoint was deleted, or retention removed its event. */
  predicate Accounted(state: State, key: Key) {
    || key in state.deliveries
    || (key.endpoint in state.usedEndpoints && key.endpoint !in state.endpoints)
    || Gone(state, key.event)
  }

  lemma AccountedStep(config: Config, state: State, step: Step, key: Key)
    requires Accounted(state, key) && (key in state.deliveries ==> Linked(state, key))
    requires key.event in state.events ==> key.event in state.usedEvents
    requires key.endpoint in state.endpoints ==> key.endpoint in state.usedEndpoints
    ensures Accounted(Next(config, state, step), key)
  {
    EventStep(config, state, step, key.event);
    EndpointStep(config, state, step, key.endpoint);
    if key in state.deliveries && key !in Next(config, state, step).deliveries {
      DeliveriesLeaveWithTheirParents(config, state, step, key);
    }
    hide Next, Removable;
  }

  lemma DeliveriesLeaveWithTheirParents(config: Config, state: State, step: Step, key: Key)
    requires key in state.deliveries && key !in Next(config, state, step).deliveries
    ensures step == DeleteEndpoint(key.endpoint) || step == Remove(key.event)
    ensures key.endpoint !in Next(config, state, step).endpoints || key.event !in Next(config, state, step).events
  {
    hide Claiming, NewDelivery, Matches, Report, AllResolved;
  }

  lemma LinkedParents(config: Config, run: seq<Step>, key: Key)
    ensures var state := After(config, run);
      && (key in state.deliveries ==> Linked(state, key))
      && (key.event in state.events ==> key.event in state.usedEvents)
      && (key.endpoint in state.endpoints ==> key.endpoint in state.usedEndpoints)
  {
    hide *;
    var state := After(config, run);
    if key in state.deliveries { DeliveriesAreLinked(config, run, key); }
    if key.event in state.events { EventsAreUsed(config, run, key.event); }
    if key.endpoint in state.endpoints { EndpointsAreUsed(config, run, key.endpoint); }
  }

  /** No delivery that was ever created is lost while its endpoint and its event exist. */
  lemma {:induction false} DeliveriesAreNotLost(config: Config, run: seq<Step>, key: Key, i: nat)
    requires Came(After(config, run).log, key, i)
    ensures Accounted(After(config, run), key)
    decreases |run|
  {
    hide *;
    if run == [] {
      NothingCame(config, key, i);
    } else {
      AfterStep(config, run);
      var before, step := run[..|run| - 1], run[|run| - 1];
      var state := After(config, before);
      LogStep(config, state, step);
      if Came(state.log, key, i) {
        DeliveriesAreNotLost(config, before, key, i);
        LinkedParents(config, before, key);
        AccountedStep(config, state, step, key);
      } else {
        CameNow(config, state, step, key, i);
        MaterializationCreates(config, state, key);
        PresentIsAccounted(After(config, run), key);
      }
    }
  }

  lemma NothingCame(config: Config, key: Key, i: nat)
    ensures !Came(After(config, []).log, key, i)
  {
  }

  lemma PresentIsAccounted(state: State, key: Key)
    requires key in state.deliveries
    ensures Accounted(state, key)
  {
  }

  lemma CameNow(config: Config, state: State, step: Step, key: Key, i: nat)
    requires Came(state.log + Entries(config, state, step), key, i) && !Came(state.log, key, i)
    ensures step == Materialize(key.event) && Unmarked(state, key.event) && key in MatchingKeys(state, key.event)
  {
    hide MatchingKeys, Claimable, Removable, Unmarked;
  }

  // ----- Results are final -----

  /** The event has been materialized, or removed after that: no delivery of it can appear any more. */
  predicate Closed(state: State, id: Id) {
    id in state.usedEvents && !Unmarked(state, id)
  }

  lemma ClosedStep(config: Config, state: State, step: Step, id: Id)
    requires Closed(state, id)
    ensures Closed(Next(config, state, step), id)
  {
    EventStep(config, state, step, id);
    MarkerStep(config, state, step, id);
    if id in state.markers && id !in Next(config, state, step).markers {
      RemovingUnmarks(config, state, id);
    }
    hide Next, Removable;
  }

  /** The delivery is as it was, or it is gone for good. */
  predicate FinalOrGone(state: State, key: Key, row: Delivery) {
    && Closed(state, key.event)
    && (key in state.deliveries ==> state.deliveries[key] == row)
  }

  lemma ResolvedStep(config: Config, state: State, step: Step, key: Key, row: Delivery)
    requires FinalOrGone(state, key, row) && Resolved(row.status)
    requires EndsWork(step) && step.worker in state.workers ==> Holds(state, step.worker)
    ensures FinalOrGone(Next(config, state, step), key, row)
  {
    ClosedStep(config, state, step, key.event);
    if key in Next(config, state, step).deliveries {
      DeliveryStep(config, state, step, key);
    }
    hide Next, Report, IsMatch;
  }

  lemma ReporterHolds(config: Config, run: seq<Step>, step: Step)
    ensures EndsWork(step) && step.worker in After(config, run).workers ==> Holds(After(config, run), step.worker)
  {
    hide After, Holds;
    if EndsWork(step) && step.worker in After(config, run).workers {
      WorkersHold(config, run, step.worker);
    }
  }

  /** Succeeded and dead-letter deliveries never change again; they can only be removed, for good. */
  lemma {:induction false} ResultsAreFinal(config: Config, run: seq<Step>, more: seq<Step>, key: Key)
    requires key in After(config, run).deliveries && Resolved(After(config, run).deliveries[key].status)
    ensures FinalOrGone(After(config, run + more), key, After(config, run).deliveries[key])
    decreases |more|
  {
    hide *;
    var row := After(config, run).deliveries[key];
    if more == [] {
      assert run + more == run;
      DeliveriesAreLinked(config, run, key);
      LinkedParents(config, run, key);
      LinkedEvent(After(config, run), key);
      LinkedIsFinal(After(config, run), key);
    } else {
      RunOneMore(config, run, more);
      var before, step := run + more[..|more| - 1], more[|more| - 1];
      ResultsAreFinal(config, run, more[..|more| - 1], key);
      ReporterHolds(config, before, step);
      ResolvedStep(config, After(config, before), step, key, row);
    }
  }

  lemma LinkedIsFinal(state: State, key: Key)
    requires Linked(state, key) && key.event in state.usedEvents
    ensures FinalOrGone(state, key, state.deliveries[key])
  {
  }

  // ----- What a crash leaves behind -----

  /** The delivery is marked as being delivered, and nobody is delivering it. */
  predicate Stranded(state: State, key: Key) {
    && key in state.deliveries && state.deliveries[key].status.Delivering?
    && key.event in state.events && key.event in state.usedEvents
    && forall worker :: worker in state.workers ==> state.workers[worker].key != key
  }

  lemma {:induction false} CrashStrands(config: Config, run: seq<Step>, worker: Id)
    requires worker in After(config, run).workers
    requires After(config, run).workers[worker].key in After(config, run).deliveries
    ensures Stranded(After(config, run + [Crash(worker)]), After(config, run).workers[worker].key)
  {
    var state, key := After(config, run), After(config, run).workers[worker].key;
    AfterOneMore(config, run, Crash(worker));
    WorkersHold(config, run, worker);
    LinkedParents(config, run, key);
    LinkedEvent(state, key);
    CrashOnlyForgets(config, state, worker);
    forall other | other in state.workers && state.workers[other].key == key ensures other == worker {
      NoSharedDelivery(config, run, other, worker);
    }
    hide After, Next, Linked;
  }

  lemma CrashOnlyForgets(config: Config, state: State, worker: Id)
    requires worker in state.workers
    ensures Next(config, state, Crash(worker)) == state.(workers := state.workers - {worker})
  {
  }

  lemma StrandedStep(config: Config, state: State, step: Step, key: Key)
    requires Stranded(state, key) && step != DeleteEndpoint(key.endpoint)
    ensures Stranded(Next(config, state, step), key)
    ensures Next(config, state, step).deliveries[key] == state.deliveries[key]
  {
    var next := Next(config, state, step);
    StrandedIsKept(config, state, step, key);
    EventStep(config, state, step, key.event);
    DeliveryStep(config, state, step, key);
    forall worker | worker in next.workers ensures next.workers[worker].key != key {
      WorkerStep(config, state, step, worker);
    }
    hide Next, Removable, Report;
  }

  lemma StrandedIsKept(config: Config, state: State, step: Step, key: Key)
    requires Stranded(state, key) && step != DeleteEndpoint(key.endpoint)
    ensures !Removable(config, state, key.event)
    ensures key in Next(config, state, step).deliveries
  {
    assert !Resolved(state.deliveries[key].status);
    if key !in Next(config, state, step).deliveries {
      DeliveriesLeaveWithTheirParents(config, state, step, key);
    }
    hide Claiming, NewDelivery, Matches, Report;
  }

  /**
   A delivery whose worker crashed is never claimed, resolved or removed again, and neither is
   its event, unless somebody deletes the endpoint.
   */
  lemma {:induction false} StrandedForever(config: Config, run: seq<Step>, more: seq<Step>, key: Key)
    requires Stranded(After(config, run), key) && DeleteEndpoint(key.endpoint) !in more
    ensures Stranded(After(config, run + more), key)
    ensures After(config, run + more).deliveries[key] == After(config, run).deliveries[key]
    decreases |more|
  {
    hide *;
    if more == [] {
      assert run + more == run;
      StrandedIsDelivery(After(config, run), key);
    } else {
      RunOneMore(config, run, more);
      StrandedForever(config, run, more[..|more| - 1], key);
      StrandedStep(config, After(config, run + more[..|more| - 1]), more[|more| - 1], key);
    }
  }

  lemma StrandedIsDelivery(state: State, key: Key)
    requires Stranded(state, key)
    ensures key in state.deliveries
  {
  }

  lemma ReportEnds(config: Config, state: State, step: Step)
    requires (step.Succeed? || step.Fail?) && step.worker in state.workers
    requires state.workers[step.worker].key in state.deliveries
    ensures var next, key := Next(config, state, step), state.workers[step.worker].key;
      key in next.deliveries && !next.deliveries[key].status.Delivering?
  {
    hide DelayForAttempt, Seconds;
  }

  lemma WorkerStays(config: Config, state: State, step: Step, worker: Id)
    requires worker in state.workers && !(EndsWork(step) && step.worker == worker)
    ensures worker in Next(config, state, step).workers
    ensures Next(config, state, step).workers[worker] == state.workers[worker]
  {
    hide Report, MatchingKeys, Removable, Claimable;
  }

  lemma StillHeld(config: Config, state: State, step: Step, key: Key, worker: Id)
    requires worker in state.workers && state.workers[worker].key == key && key in state.deliveries
    requires key in Next(config, state, step).deliveries && Next(config, state, step).deliveries[key].status.Delivering?
    requires !(step.Crash? && step.worker == worker)
    ensures worker in Next(config, state, step).workers && Next(config, state, step).workers[worker].key == key
  {
    if EndsWork(step) && step.worker == worker {
      ReportEnds(config, state, step);
    } else {
      WorkerStays(config, state, step, worker);
    }
    hide Next;
  }

  lemma NewlyHeld(config: Config, state: State, step: Step, key: Key)
    requires key in Next(config, state, step).deliveries && Next(config, state, step).deliveries[key].status.Delivering?
    requires key in state.deliveries ==> !state.deliveries[key].status.Delivering?
    ensures step.Claim? && step.worker in Next(config, state, step).workers
    ensures Next(config, state, step).workers[step.worker].key == key
  {
    DeliveryStep(config, state, step, key);
    if step.Claim? && step.worker !in state.workers && Claimable(state, key) && step.key == key {
      ClaimTakes(config, state, step.worker, key);
    }
    hide Next, Claimable;
  }

  /** Step `i` of the run is a crash of the worker that holds the delivery at that moment. */
  predicate HolderCrashesAt(config: Config, run: seq<Step>, i: nat, key: Key)
    requires i < |run|
  {
    var workers := After(config, run[..i]).workers;
    run[i].Crash? && run[i].worker in workers && workers[run[i].worker].key == key
  }

  predicate HolderCrashed(config: Config, run: seq<Step>, key: Key) {
    exists i :: 0 <= i < |run| && HolderCrashesAt(config, run, i, key)
  }

  lemma HolderCrashedStep(config: Config, run: seq<Step>, key: Key)
    requires run != [] && !HolderCrashed(config, run, key)
    ensures !HolderCrashed(config, run[..|run| - 1], key)
    ensures !HolderCrashesAt(config, run, |run| - 1, key)
  {
    var before := run[..|run| - 1];
    hide After;
    forall i | 0 <= i < |before| ensures !HolderCrashesAt(config, before, i, key) {
      assert before[..i] == run[..i];
      assert !HolderCrashesAt(config, run, i, key);
    }
  }

  /** Unless its own holder has crashed, whatever is being delivered has a worker, whoever else crashes. */
  lemma {:induction false} OnlyCrashesStrand(config: Config, run: seq<Step>, key: Key) returns (worker: Id)
    requires !HolderCrashed(config, run, key)
    requires key in After(config, run).deliveries && After(config, run).deliveries[key].status.Delivering?
    ensures worker in After(config, run).workers && After(config, run).workers[worker].key == key
    decreases |run|
  {
    AfterStep(config, run);
    HolderCrashedStep(config, run, key);
    NoCrashNow(config, run, key);
    hide *;
    var before, step := run[..|run| - 1], run[|run| - 1];
    var state := After(config, before);
    if key in state.deliveries && state.deliveries[key].status.Delivering? {
      worker := OnlyCrashesStrand(config, before, key);
      StillHeld(config, state, step, key, worker);
    } else {
      NewlyHeld(config, state, step, key);
      worker := step.worker;
    }
  }

  lemma NoCrashNow(config: Config, run: seq<Step>, key: Key)
    requires run != [] && !HolderCrashesAt(config, run, |run| - 1, key)
    ensures var state, step := After(config, run[..|run| - 1]), run[|run| - 1];
      step.Crash? && step.worker in state.workers ==> state.workers[step.worker].key != key
  {
    hide After;
  }

  /** A stranded delivery stays stranded until it is deleted with its endpoint, and then never comes back. */
  predicate StrandedOrGone(state: State, key: Key) {
    Closed(state, key.event) && (key in state.deliveries ==> Stranded(state, key))
  }

  lemma StrandedOrGoneStep(config: Config, state: State, step: Step, key: Key)
    requires StrandedOrGone(state, key)
    ensures StrandedOrGone(Next(config, state, step), key)
  {
    ClosedStep(config, state, step, key.event);
    if key in Next(config, state, step).deliveries {
      CreatedIsOpen(config, state, step, key);
      RemovalStep(config, state, step, key);
      StrandedStep(config, state, step, key);
    }
    hide Next, Stranded, Closed;
  }

  lemma {:induction false} StrandedUnlessGone(config: Config, run: seq<Step>, more: seq<Step>, key: Key)
    requires StrandedOrGone(After(config, run), key)
    ensures StrandedOrGone(After(config, run + more), key)
    decreases |more|
  {
    hide *;
    if more == [] {
      assert run + more == run;
    } else {
      RunOneMore(config, run, more);
      StrandedUnlessGone(config, run, more[..|more| - 1], key);
      StrandedOrGoneStep(config, After(config, run + more[..|more| - 1]), more[|more| - 1], key);
    }
  }

  lemma CrashStrandsOrDeleted(config: Config, run: seq<Step>, worker: Id)
    requires worker in After(config, run).workers
    ensures StrandedOrGone(After(config, run + [Crash(worker)]), After(config, run).workers[worker].key)
  {
    var state, key := After(config, run), After(config, run).workers[worker].key;
    AfterOneMore(config, run, Crash(worker));
    CrashOnlyForgets(config, state, worker);
    WorkersHold(config, run, worker);
    if key in state.deliveries {
      CrashStrands(config, run, worker);
    }
    hide After, Next;
  }

  /**
   Exactly which deliveries are stranded: one that is marked as being delivered has nobody
   delivering it if and only if at some step the worker that held it crashed.
   */
  lemma {:induction false} StrandedExactlyByCrash(config: Config, run: seq<Step>, key: Key)
    requires key in After(config, run).deliveries && After(config, run).deliveries[key].status.Delivering?
    ensures Stranded(After(config, run), key) <==> HolderCrashed(config, run, key)
  {
    hide After;
    if HolderCrashed(config, run, key) {
      var i :| 0 <= i < |run| && HolderCrashesAt(config, run, i, key);
      CrashStrandsOrDeleted(config, run[..i], run[i].worker);
      assert run[..i] + [run[i]] == run[..i + 1];
      assert run[..i + 1] + run[i + 1..] == run;
      StrandedUnlessGone(config, run[..i + 1], run[i + 1..], key);
    } else {
      var worker := OnlyCrashesStrand(config, run, key);
    }
  }

  const PUBLICATION: Step := AppendEvent(1, Some(1), "command.queued", "{}")
  const SUBSCRIPTION: Step := AddEndpoint(1, Endpoint(1, [], true))

  /** A run that strands a delivery: its only worker claims it and crashes. */
  lemma {:induction false} SomeRunStrands(config: Config)
    ensures var run := [PUBLICATION, SUBSCRIPTION, Materialize(1), Claim(1, Key(1, 1)), Crash(1)];
      Stranded(After(config, run), Key(1, 1))
  {
    var published := [PUBLICATION] + [SUBSCRIPTION];
    var delivering := published + [Materialize(1)] + [Claim(1, Key(1, 1))];
    AfterOneMore(config, [], PUBLICATION);
    AfterOneMore(config, [PUBLICATION], SUBSCRIPTION);
    AfterOneMore(config, published, Materialize(1));
    AfterOneMore(config, published + [Materialize(1)], Claim(1, Key(1, 1)));
    MaterializesExactlyTheMatches(config, published, 1, Key(1, 1));
    ClaimTakes(config, After(config, published + [Materialize(1)]), 1, Key(1, 1));
    CrashStrands(config, delivering, 1);
    assert delivering + [Crash(1)] == [PUBLICATION, SUBSCRIPTION, Materialize(1), Claim(1, Key(1, 1)), Crash(1)];
  }

  // ----- Claims over the whole run -----

  predicate IsClaim(entry: Entry, key: Key) {
    entry.Claimed? && entry.key == key
  }

  function Claims(log: seq<Entry>, key: Key): nat {
    if log == [] then 0
    else Claims(log[..|log| - 1], key) + if IsClaim(log[|log| - 1], key) then 1 else 0
  }

  lemma ClaimsAppended(log: seq<Entry>, more: seq<Entry>, key: Key)
    requires |more| <= 1
    ensures Claims(log + more, key) == Claims(log, key) + if |more| == 1 && IsClaim(more[0], key) then 1 else 0
  {
    if more == [] {
      assert log + more == log;
    } else {
      assert (log + more)[..|log|] == log;
    }
  }

  predicate ClaimsStep(config: Config, state: State, step: Step, key: Key) {
    step.Claim? && step.key == key && step.worker !in state.workers && Claimable(state, key)
  }

  lemma EntriesClaim(config: Config, state: State, step: Step, key: Key)
    ensures var entries := Entries(config, state, step);
      && |entries| <= 1
      && (|entries| == 1 && IsClaim(entries[0], key) <==> ClaimsStep(config, state, step, key))
      && (ClaimsStep(config, state, step, key) ==>
            entries == [Claimed(key, state.deliveries[key].attempts + 1, state.now)])
  {
    hide MatchingKeys, Claimable, Removable;
    if ClaimsStep(config, state, step, key) {
      ClaimableIsDelivery(state, key);
    }
  }

  /** How a step changes the number of attempts of a delivery that it keeps. */
  lemma AttemptsStep(config: Config, state: State, step: Step, key: Key)
    requires key in Next(config, state, step).deliveries && key in state.deliveries
    ensures Next(config, state, step).deliveries[key].attempts
         == state.deliveries[key].attempts + if ClaimsStep(config, state, step, key) then 1 else 0
  {
    DeliveryStep(config, state, step, key);
    if ClaimsStep(config, state, step, key) {
      ClaimTakes(config, state, step.worker, key);
    }
    hide Next, Claimable;
  }

  predicate ClaimsFit(config: Config, state: State, key: Key) {
    && Claims(state.log, key) <= MaxAttempts(config)
    && (key in state.deliveries ==> Claims(state.log, key) == state.deliveries[key].attempts)
    && (!Closed(state, key.event) ==> Claims(state.log, key) == 0)
  }

  lemma ClaimsFitStep(config: Config, state: State, step: Step, key: Key)
    requires ClaimsFit(config, state, key) && (key in state.deliveries ==> Closed(state, key.event))
    requires var next := Next(config, state, step);
      key in next.deliveries ==> CountsFit(config, next.deliveries[key])
    ensures ClaimsFit(config, Next(config, state, step), key)
  {
    var next := Next(config, state, step);
    LogStep(config, state, step);
    EntriesClaim(config, state, step, key);
    ClaimsAppended(state.log, Entries(config, state, step), key);
    if Closed(state, key.event) { ClosedStep(config, state, step, key.event); }
    if key in next.deliveries {
      if key in state.deliveries {
        AttemptsStep(config, state, step, key);
      } else {
        DeliveryStep(config, state, step, key);
      }
    }
    if ClaimsStep(config, state, step, key) {
      ClaimTakes(config, state, step.worker, key);
    }
    hide Next, Entries, Claims, Closed, Claimable, MaxAttempts, IsMatch;
    if key in next.deliveries && key !in state.deliveries {
      UnmarkedIsOpen(state, key.event);
      NotAClaim(config, state, step, key);
    }
  }

  lemma UnmarkedIsOpen(state: State, id: Id)
    requires Unmarked(state, id)
    ensures !Closed(state, id)
  {
  }

  lemma NotAClaim(config: Config, state: State, step: Step, key: Key)
    requires step.Materialize?
    ensures !ClaimsStep(config, state, step, key)
  {
  }

  /**
   Over the whole run each endpoint is tried at most max(1, limit) times for each event; the
   attempts of a delivery are the claims that the log holds.
   */
  lemma {:induction false} ClaimsAreBounded(config: Config, run: seq<Step>, key: Key)
    requires AllWellFormed(run)
    ensures ClaimsFit(config, After(config, run), key)
    decreases |run|
  {
    hide *;
    if run == [] {
      NoClaims(config, key);
    } else {
      AfterStep(config, run);
      RunStepIsWellFormed(run);
      var before, step := run[..|run| - 1], run[|run| - 1];
      ClaimsAreBounded(config, before, key);
      DeliveriesAreClosed(config, before, key);
      if key in After(config, run).deliveries { DeliveriesFit(config, run, key); }
      ClaimsFitStep(config, After(config, before), step, key);
    }
  }

  lemma NoClaims(config: Config, key: Key)
    ensures ClaimsFit(config, After(config, []), key)
  {
  }

  lemma DeliveriesAreClosed(config: Config, run: seq<Step>, key: Key)
    ensures key in After(config, run).deliveries ==> Closed(After(config, run), key.event)
  {
    LinkedParents(config, run, key);
    hide After;
  }

  // ----- Spacing of attempts -----

  /** An earlier claim of a delivery lies far enough before its last one. */
  predicate Spaced(entry: Entry, row: Delivery) {
    entry.Claimed? && row.lastAttemptAt.Some? ==>
      && entry.attempt <= row.attempts
      && entry.at + (if entry.attempt < row.attempts then MinWait(entry.attempt) * SECOND else 0)
           <= row.lastAttemptAt.value
  }

  predicate Waited(earlier: Entry, later: Entry) {
    earlier.Claimed? && later.Claimed? ==> earlier.at + MinWait(earlier.attempt) * SECOND <= later.at
  }

  /** A claim of a failed delivery waits for its backoff. */
  lemma ClaimWaits(config: Config, now: int, row: Delivery, entry: Entry)
    requires entry.Claimed? && Spaced(entry, row) && CountsFit(config, row) && StampsFit(now, row)
    requires (row.status.Pending? || row.status.Failed?) && row.nextAttemptAt <= now && row.attempts > 0
    ensures entry.at + MinWait(entry.attempt) * SECOND <= now
    ensures Spaced(entry, Claiming(now, row))
  {
    WaitIsBounded(entry.attempt, 0.0);
    WaitIsBounded(row.attempts, 0.0);
    hide MinWait, MaxWait, DelayForAttempt;
  }

  lemma {:induction false} ClaimIsCounted(log: seq<Entry>, key: Key, i: nat)
    requires i < |log| && IsClaim(log[i], key)
    ensures Claims(log, key) > 0
  {
    if i < |log| - 1 {
      ClaimIsCounted(log[..|log| - 1], key, i);
    }
  }

  lemma ClaimedBefore(config: Config, run: seq<Step>, key: Key, i: nat)
    requires AllWellFormed(run) && i < |After(config, run).log| && IsClaim(After(config, run).log[i], key)
    ensures Closed(After(config, run), key.event)
    ensures key in After(config, run).deliveries ==> After(config, run).deliveries[key].attempts > 0
  {
    ClaimIsCounted(After(config, run).log, key, i);
    ClaimsAreBounded(config, run, key);
    hide After, Claims, Closed;
  }

  lemma ReportKeepsSpacing(config: Config, state: State, step: Step, row: Delivery, entry: Entry)
    requires EndsWork(step) && step.worker in state.workers && Report(config, state, step, step.worker) == Some(row)
    requires Spaced(entry, state.deliveries[state.workers[step.worker].key])
    ensures Spaced(entry, row)
  {
    hide MinWait, DelayForAttempt, Seconds;
  }

  lemma SpacedStep(config: Config, state: State, step: Step, key: Key, entry: Entry)
    requires key in state.deliveries && key in Next(config, state, step).deliveries
    requires IsClaim(entry, key) && Spaced(entry, state.deliveries[key]) && state.deliveries[key].attempts > 0
    requires CountsFit(config, state.deliveries[key]) && StampsFit(state.now, state.deliveries[key])
    ensures Spaced(entry, Next(config, state, step).deliveries[key])
    ensures ClaimsStep(config, state, step, key) ==> entry.at + MinWait(entry.attempt) * SECOND <= state.now
  {
    var before, after := state.deliveries[key], Next(config, state, step).deliveries[key];
    DeliveryStep(config, state, step, key);
    hide Next, Spaced, CountsFit, StampsFit, MinWait, Report;
    if Claimable(state, key) && state.deliveries[key].attempts > 0 {
      ClaimWaits(config, state.now, before, entry);
    }
    if after != before && EndsWork(step) {
      ReportKeepsSpacing(config, state, step, after, entry);
    }
  }

  lemma ClaimIsSpaced(config: Config, state: State, step: Step, key: Key, entry: Entry)
    requires ClaimsStep(config, state, step, key)
    requires entry == Claimed(key, state.deliveries[key].attempts + 1, state.now)
    ensures key in Next(config, state, step).deliveries && Spaced(entry, Next(config, state, step).deliveries[key])
  {
    ClaimTakes(config, state, step.worker, key);
  }

  lemma {:induction false} EarlierClaimsAreSpaced(config: Config, run: seq<Step>, key: Key, i: nat)
    requires AllWellFormed(run) && key in After(config, run).deliveries
    requires i < |After(config, run).log| && IsClaim(After(config, run).log[i], key)
    ensures Spaced(After(config, run).log[i], After(config, run).deliveries[key])
    decreases |run|
  {
    AfterStep(config, run);
    RunStepIsWellFormed(run);
    hide *;
    var before, step := run[..|run| - 1], run[|run| - 1];
    var state, entry := After(config, before), After(config, run).log[i];
    LogStep(config, state, step);
    EntriesClaim(config, state, step, key);
    if i < |state.log| {
      ClaimedBefore(config, before, key, i);
      CreatedIsOpen(config, state, step, key);
      EarlierClaimsAreSpaced(config, before, key, i);
      DeliveriesFit(config, before, key);
      SpacedStep(config, state, step, key, entry);
    } else {
      ClaimIsSpaced(config, state, step, key, entry);
    }
  }

  lemma CreatedIsOpen(config: Config, state: State, step: Step, key: Key)
    requires key in Next(config, state, step).deliveries && Closed(state, key.event)
    ensures key in state.deliveries
  {
    DeliveryStep(config, state, step, key);
    hide Next;
  }

  /**
   Two attempts of the same delivery: the later one comes after the backoff of the earlier one,
   at least four fifths of min(2 s * 2^(n-1), 300 s) for attempt n, and has a higher number.
   */
  lemma {:induction false} AttemptsAreSpaced(config: Config, run: seq<Step>, key: Key, i: nat, j: nat)
    requires AllWellFormed(run) && i < j < |After(config, run).log|
    requires IsClaim(After(config, run).log[i], key) && IsClaim(After(config, run).log[j], key)
    ensures Waited(After(config, run).log[i], After(config, run).log[j])
    ensures After(config, run).log[i].attempt < After(config, run).log[j].attempt
    decreases |run|
  {
    AfterStep(config, run);
    RunStepIsWellFormed(run);
    hide *;
    var before, step := run[..|run| - 1], run[|run| - 1];
    var state := After(config, before);
    LogStep(config, state, step);
    EntriesClaim(config, state, step, key);
    if j < |state.log| {
      AttemptsAreSpaced(config, before, key, i, j);
    } else {
      ClaimedBefore(config, before, key, i);
      ClaimIsSpaced(config, state, step, key, After(config, run).log[j]);
      CreatedIsOpen(config, state, step, key);
      EarlierClaimsAreSpaced(config, before, key, i);
      DeliveriesFit(config, before, key);
      SpacedStep(config, state, step, key, state.log[i]);
      ClaimComesLater(state.log[i], After(config, run).log[j], state.deliveries[key], state.now);
    }
  }

  lemma ClaimComesLater(earlier: Entry, later: Entry, row: Delivery, now: int)
    requires earlier.Claimed? && later.Claimed? && Spaced(earlier, row)
    requires later.at == now && later.attempt == row.attempts + 1
    requires row.attempts > 0 && (row.lastAttemptAt.Some? <==> row.attempts > 0)
    requires earlier.at + MinWait(earlier.attempt) * SECOND <= now
    ensures Waited(earlier, later) && earlier.attempt < later.attempt
  {
    hide MinWait;
  }
}
