/**
 The tables of the webhook pipeline and the operations on them as the service runs them. Every
 method is one step of the pipeline, or a run of steps, so the promises over runs hold of it.
 */
module WebhookStore {
  import opened Prelude
  import opened Webhooks
  import opened WebhookRuns
  import opened WebhookGuarantees

  function MaterializeAll(ids: seq<Id>): seq<Step> {
    seq(|ids|, i requires 0 <= i < |ids| => Materialize(ids[i]))
  }

  function RemoveAll(ids: seq<Id>): seq<Step> {
    seq(|ids|, i requires 0 <= i < |ids| => Remove(ids[i]))
  }

  /** The keys of an event for the given endpoints, if they match. */
  ghost function KeysAmong(state: State, id: Id, endpoints: set<Id>): set<Key>
    requires id in state.events
  {
    set endpoint | endpoint in endpoints && IsMatch(state, id, Key(endpoint, id)) :: Key(endpoint, id)
  }

  /** The deliveries once the endpoints have been visited. */
  ghost function Inserted(state: State, id: Id, endpoints: set<Id>): map<Key, Delivery>
    requires id in state.events
  {
    map key | key in state.deliveries.Keys + KeysAmong(state, id, endpoints) ::
      if key in state.deliveries then state.deliveries[key] else NewDelivery(state.now, state.events[id])
  }

  lemma VisitOne(state: State, id: Id, endpoints: set<Id>, endpoint: Id)
    requires id in state.events && endpoint !in endpoints
    ensures var before, key := Inserted(state, id, endpoints), Key(endpoint, id);
      Inserted(state, id, endpoints + {endpoint})
        == if IsMatch(state, id, key) && key !in before
           then before[key := NewDelivery(state.now, state.events[id])]
           else before
  {
    hide IsMatch, NewDelivery;
    var key := Key(endpoint, id);
    assert KeysAmong(state, id, endpoints + {endpoint})
        == KeysAmong(state, id, endpoints) + if IsMatch(state, id, key) then {key} else {};
  }

  lemma VisitedAll(state: State, id: Id)
    requires Unmarked(state, id)
    ensures Inserted(state, id, {}) == state.deliveries
    ensures Inserted(state, id, state.endpoints.Keys) == Materializing(state, id).deliveries
  {
    assert KeysAmong(state, id, state.endpoints.Keys) == MatchingKeys(state, id);
  }

  /** The order of the queries: by creation, then by identifier. */
  predicate NotYounger(events: map<Id, Event>, a: Id, b: Id) {
    && a in events && b in events
    && (events[a].createdAt < events[b].createdAt || (events[a].createdAt == events[b].createdAt && a <= b))
  }

  /** The oldest of the given events, oldest first, at most `limit`, and no other left out. */
  ghost predicate IsBatch(events: map<Id, Event>, ids: set<Id>, batch: seq<Id>, limit: nat) {
    && |batch| <= limit && Distinct(batch)
    && (forall i :: 0 <= i < |batch| ==> batch[i] in ids && batch[i] in events)
    && (forall i, j :: 0 <= i < j < |batch| ==> NotYounger(events, batch[i], batch[j]))
    && (forall id :: id in ids && id !in batch ==>
          |batch| == limit && forall i :: 0 <= i < |batch| ==> NotYounger(events, batch[i], id))
  }

  method SelectOldest(events: map<Id, Event>, ids: set<Id>, limit: nat) returns (batch: seq<Id>)
    requires ids <= events.Keys
    ensures IsBatch(events, ids, batch, limit)
    ensures forall i, j :: 0 <= i < j < |batch| ==> events[batch[i]].createdAt <= events[batch[j]].createdAt
    ensures forall i, id :: 0 <= i < |batch| && id in ids && id !in batch ==>
      events[batch[i]].createdAt <= events[id].createdAt
    ensures forall i, id :: 0 <= i < |batch| && id in ids && id !in batch ==>
      events[batch[i]].createdAt == events[id].createdAt ==> batch[i] < id
  {
    var left := ids;
    batch := [];
    while left != {} && |batch| < limit
      invariant |batch| <= limit && Distinct(batch)
      invariant forall id :: id in left ==> id in ids && id !in batch
      invariant forall id :: id in ids && id !in batch ==> id in left
      invariant forall i :: 0 <= i < |batch| ==> batch[i] in ids
      invariant forall i, j :: 0 <= i < j < |batch| ==> NotYounger(events, batch[i], batch[j])
      invariant forall i, id :: 0 <= i < |batch| && id in left ==> NotYounger(events, batch[i], id)
      decreases left
    {
      ghost var oldest := FirstExists(left, (a, b) => NotYounger(events, a, b));
      var id :| id in left && forall other :: other in left ==> NotYounger(events, id, other);
      batch := batch + [id];
      left := left - {id};
    }
  }

  function SetOf(batch: seq<Id>): set<Id> {
    set id | id in batch
  }

  lemma {:induction false} DistinctSize(batch: seq<Id>)
    requires Distinct(batch)
    ensures |SetOf(batch)| == |batch|
    decreases |batch|
  {
    if batch != [] {
      var n := |batch| - 1;
      DistinctSize(batch[..n]);
      assert SetOf(batch) == SetOf(batch[..n]) + {batch[n]};
    }
  }

  /** A batch is as large as the limit and the backlog allow, and the rest of the backlog is left over. */
  lemma {:induction false} BatchSize(events: map<Id, Event>, ids: set<Id>, batch: seq<Id>, limit: nat)
    requires IsBatch(events, ids, batch, limit)
    ensures |batch| == Min(limit, |ids|)
    ensures |ids - SetOf(batch)| == Max(0, |ids| - limit)
  {
    var taken := SetOf(batch);
    hide NotYounger;
    DistinctSize(batch);
    assert taken <= ids;
    assert ids == taken + (ids - taken);
    if |batch| < limit {
      assert ids - taken == {};
    }
  }

  lemma BacklogShrinks(events: map<Id, Event>, before: set<Id>, markers: set<Id>, batch: seq<Id>, limit: nat)
    requires IsBatch(events, events.Keys - before, batch, limit) && markers == before + SetOf(batch)
    ensures |batch| == Min(limit, |events.Keys - before|)
    ensures |events.Keys - markers| == Max(0, |events.Keys - before| - limit)
  {
    BatchSize(events, events.Keys - before, batch, limit);
    hide IsBatch;
    assert events.Keys - markers == (events.Keys - before) - SetOf(batch);
  }

  /** The state once the events have been removed one by one. */
  ghost function RemovedOneByOne(state: State, ids: seq<Id>): State {
    if ids == [] then state else Removing(RemovedOneByOne(state, ids[..|ids| - 1]), ids[|ids| - 1])
  }

  ghost function RemovalLog(ids: seq<Id>): seq<Entry> {
    seq(|ids|, i requires 0 <= i < |ids| => Removed(ids[i]))
  }

  ghost function RemovedAtOnce(state: State, ids: seq<Id>): State {
    state.(
      deliveries := map key | key in state.deliveries && key.event !in ids :: state.deliveries[key],
      markers := (set id | id in state.markers && id !in ids),
      events := map id | id in state.events && id !in ids :: state.events[id],
      log := state.log + RemovalLog(ids))
  }

  predicate AllRemovable(config: Config, state: State, ids: seq<Id>) {
    forall i :: 0 <= i < |ids| ==> Removable(config, state, ids[i])
  }

  lemma RemoveOneMore(state: State, ids: seq<Id>)
    requires ids != []
    ensures Removing(RemovedAtOnce(state, ids[..|ids| - 1]), ids[|ids| - 1]) == RemovedAtOnce(state, ids)
  {
    var n := |ids| - 1;
    assert forall id :: id in ids <==> id in ids[..n] || id == ids[n];
    assert RemovalLog(ids) == RemovalLog(ids[..n]) + [Removed(ids[n])];
    hide RemovalLog;
  }

  lemma RemoveNone(state: State)
    ensures RemovedAtOnce(state, []) == state && RemovedOneByOne(state, []) == state
  {
    assert RemovalLog([]) == [];
  }

  lemma RemovedStep(state: State, ids: seq<Id>)
    requires ids != []
    ensures RemovedOneByOne(state, ids) == Removing(RemovedOneByOne(state, ids[..|ids| - 1]), ids[|ids| - 1])
  {
  }

  /** Three deletions of the whole batch are the removals of its events one by one. */
  lemma {:induction false} BulkIsOneByOne(state: State, ids: seq<Id>)
    ensures RemovedOneByOne(state, ids) == RemovedAtOnce(state, ids)
    decreases |ids|
  {
    hide *;
    if ids == [] {
      RemoveNone(state);
    } else {
      RemovedStep(state, ids);
      BulkIsOneByOne(state, ids[..|ids| - 1]);
      RemoveOneMore(state, ids);
    }
  }

  lemma RemovingSparesOthers(config: Config, state: State, id: Id, other: Id)
    requires id != other && Removable(config, state, other)
    ensures Removable(config, Removing(state, id), other)
  {
  }

  lemma {:induction false} StillRemovable(config: Config, state: State, ids: seq<Id>, n: nat, i: nat)
    requires n <= i < |ids| && Distinct(ids) && AllRemovable(config, state, ids)
    ensures Removable(config, RemovedOneByOne(state, ids[..n]), ids[i])
    decreases n
  {
    if n > 0 {
      StillRemovable(config, state, ids, n - 1, i);
      assert ids[..n][..n - 1] == ids[..n - 1] && ids[..n][n - 1] == ids[n - 1];
      hide Removable, Removing;
      RemovingSparesOthers(config, RemovedOneByOne(state, ids[..n - 1]), ids[n - 1], ids[i]);
    } else {
      assert ids[..0] == [];
    }
  }

  lemma NoRemovals(config: Config, run: seq<Step>, ids: seq<Id>)
    requires AllWellFormed(run)
    ensures AllWellFormed(run + RemoveAll(ids[..0]))
    ensures After(config, run + RemoveAll(ids[..0])) == RemovedOneByOne(After(config, run), ids[..0])
  {
    assert run + RemoveAll(ids[..0]) == run;
  }

  lemma OneMoreRemoval(config: Config, run: seq<Step>, ids: seq<Id>, n: nat)
    requires 0 < n <= |ids| && AllWellFormed(run + RemoveAll(ids[..n - 1]))
    requires Removable(config, After(config, run + RemoveAll(ids[..n - 1])), ids[n - 1])
    ensures AllWellFormed(run + RemoveAll(ids[..n]))
    ensures After(config, run + RemoveAll(ids[..n]))
         == Removing(After(config, run + RemoveAll(ids[..n - 1])), ids[n - 1])
  {
    assert run + RemoveAll(ids[..n]) == run + RemoveAll(ids[..n - 1]) + [Remove(ids[n - 1])];
    AfterOneMore(config, run + RemoveAll(ids[..n - 1]), Remove(ids[n - 1]));
    hide Removable, Removing, After;
  }

  lemma {:induction false} RemovalsAreSteps(config: Config, run: seq<Step>, ids: seq<Id>, n: nat)
    requires n <= |ids| && Distinct(ids) && AllRemovable(config, After(config, run), ids) && AllWellFormed(run)
    ensures AllWellFormed(run + RemoveAll(ids[..n]))
    ensures After(config, run + RemoveAll(ids[..n])) == RemovedOneByOne(After(config, run), ids[..n])
    decreases n
  {
    hide *;
    if n == 0 {
      NoRemovals(config, run, ids);
    } else {
      RemovalsAreSteps(config, run, ids, n - 1);
      StillRemovable(config, After(config, run), ids, n - 1, n - 1);
      OneMoreRemoval(config, run, ids, n);
      RemovedStep(After(config, run), ids[..n]);
      assert ids[..n][..n - 1] == ids[..n - 1] && ids[..n][n - 1] == ids[n - 1];
    }
  }

  ghost function RemovableIds(config: Config, state: State): set<Id> {
    set id | id in state.events && Removable(config, state, id)
  }

  lemma RemovalIsRun(config: Config, state: State, batch: seq<Id>, limit: nat, run: seq<Step>)
    requires AllWellFormed(run) && state == After(config, run)
    requires IsBatch(state.events, RemovableIds(config, state), batch, limit)
    ensures AllWellFormed(run + RemoveAll(batch))
    ensures After(config, run + RemoveAll(batch)) == RemovedAtOnce(state, batch)
  {
    hide After, Removable, NotYounger;
    BulkIsOneByOne(state, batch);
    RemovalsAreSteps(config, run, batch, |batch|);
    assert batch[..|batch|] == batch;
  }

  /** The order in which deliveries are claimed: by the moment they are due, then by creation. */
  predicate DueNotLater(deliveries: map<Key, Delivery>, a: Key, b: Key) {
    && a in deliveries && b in deliveries
    && (|| deliveries[a].nextAttemptAt < deliveries[b].nextAttemptAt
        || (deliveries[a].nextAttemptAt == deliveries[b].nextAttemptAt
            && deliveries[a].createdAt <= deliveries[b].createdAt))
  }

  lemma FirstDueExists(deliveries: map<Key, Delivery>, keys: set<Key>) returns (first: Key)
    requires keys <= deliveries.Keys && keys != {}
    ensures first in keys && forall key :: key in keys ==> DueNotLater(deliveries, first, key)
  {
    first := FirstExists(keys, (a, b) => DueNotLater(deliveries, a, b));
  }

  class WebhookTables {
    const config: Config
    var now: int
    var events: map<Id, Event>
    var markers: set<Id>
    var endpoints: map<Id, Endpoint>
    var deliveries: map<Key, Delivery>
    /** What the delivery calls in progress hold between their claim and their result. */
    var workers: map<Id, InFlight>
    ghost var usedEvents: set<Id>
    ghost var usedEndpoints: set<Id>
    ghost var log: seq<Entry>
    ghost var history: seq<Step>

    ghost function Now(): State
      reads this
    {
      State(now, events, markers, endpoints, deliveries, workers, usedEvents, usedEndpoints, log)
    }

    ghost predicate Valid()
      reads this
    {
      AllWellFormed(history) && Now() == After(config, history)
    }

    constructor (config: Config)
      ensures Valid() && this.config == config && history == [] && Now() == EMPTY
    {
      this.config := config;
      now, events, markers, endpoints, deliveries, workers := 0, map[], {}, map[], map[], map[];
      usedEvents, usedEndpoints, log, history := {}, {}, [], [];
    }

    ghost method Record(step: Step, before: State)
      requires AllWellFormed(history) && WellFormed(step) && before == After(config, history)
      requires Now() == Next(config, before, step)
      modifies this`history
      ensures Valid() && history == old(history) + [step]
    {
      AfterOneMore(config, history, step);
      history := history + [step];
    }

    method Tick(elapsed: nat)
      requires Valid()
      modifies this
      ensures Valid() && history == old(history) + [Step.Tick(elapsed)]
      ensures Now() == old(Now()).(now := old(now) + elapsed)
    {
      ghost var before := Now();
      now := now + elapsed;
      Record(Step.Tick(elapsed), before);
    }

    /** `appendEvent`; the identifier is new. */
    method AppendEvent(id: Id, organization: Option<Id>, eventType: string, payload: string)
      requires Valid() && id !in usedEvents
      modifies this
      ensures Valid() && history == old(history) + [Step.AppendEvent(id, organization, eventType, payload)]
      ensures events == old(events)[id := Event(organization, eventType, payload, now)]
      ensures Now() == old(Now()).(events := events, usedEvents := usedEvents)
    {
      ghost var before := Now();
      events := events[id := Event(organization, eventType, payload, now)];
      usedEvents := usedEvents + {id};
      Record(Step.AppendEvent(id, organization, eventType, payload), before);
    }

    /** The creation of an endpoint; it starts enabled. */
    method AddEndpoint(id: Id, organization: Id, eventTypes: seq<string>)
      requires Valid() && id !in usedEndpoints
      modifies this
      ensures Valid() && history == old(history) + [Step.AddEndpoint(id, Endpoint(organization, eventTypes, true))]
      ensures Now() == AddingEndpoint(old(Now()), id, Endpoint(organization, eventTypes, true))
    {
      ghost var before := Now();
      endpoints := endpoints[id := Endpoint(organization, eventTypes, true)];
      usedEndpoints := usedEndpoints + {id};
      Record(Step.AddEndpoint(id, Endpoint(organization, eventTypes, true)), before);
    }

    /** The deletion of an endpoint, whose deliveries the database deletes with it. */
    method DeleteEndpoint(id: Id)
      requires Valid()
      modifies this
      ensures Valid() && history == old(history) + [Step.DeleteEndpoint(id)]
      ensures Now() == DeletingEndpoint(old(Now()), id)
    {
      ghost var before := Now();
      endpoints := endpoints - {id};
      deliveries := map key | key in deliveries && key.endpoint != id :: deliveries[key];
      Record(Step.DeleteEndpoint(id), before);
    }

    /** The inner loop of the materializer: one event, every endpoint of its organization. */
    method InsertDeliveries(id: Id)
      requires Unmarked(Now(), id)
      modifies this`deliveries
      ensures deliveries == Materializing(old(Now()), id).deliveries
    {
      ghost var before := Now();
      var event := events[id];
      var left := endpoints.Keys;
      VisitedAll(before, id);
      hide Materializing;
      while left != {}
        invariant left <= endpoints.Keys && deliveries == Inserted(before, id, endpoints.Keys - left)
        decreases left
      {
        var endpoint :| endpoint in left;
        VisitOne(before, id, endpoints.Keys - left, endpoint);
        assert endpoints.Keys - left + {endpoint} == endpoints.Keys - (left - {endpoint});
        hide Inserted, NewDelivery;
        left := left - {endpoint};
        var row, key := endpoints[endpoint], Key(endpoint, id);
        if event.organization == Some(row.organization) && row.enabled {
          if row.eventTypes == [] || event.eventType in row.eventTypes {
            if key !in deliveries {
              deliveries := deliveries[key := NewDelivery(now, event)];
            }
          }
        }
      }
      assert endpoints.Keys - left == endpoints.Keys;
    }

    method MaterializeEvent(id: Id)
      requires Valid() && Unmarked(Now(), id)
      modifies this
      ensures Valid() && history == old(history) + [Materialize(id)]
      ensures Now() == Materializing(old(Now()), id)
      ensures now == old(now) && events == old(events) && endpoints == old(endpoints) && markers == old(markers) + {id}
    {
      ghost var before := Now();
      InsertDeliveries(id);
      markers := markers + {id};
      log := log + [Materialized(id, MatchingKeys(before, id))];
      Record(Materialize(id), before);
    }

    /** The query of the materializer: unmarked events, oldest first, at most `limit`. */
    method UnmarkedEvents(limit: nat) returns (batch: seq<Id>)
      ensures IsBatch(events, events.Keys - markers, batch, limit)
    {
      batch := SelectOldest(events, events.Keys - markers, limit);
    }

    /** The outer loop of the materializer: each event of the batch gets its deliveries and its marker. */
    method MaterializeBatch(batch: seq<Id>)
      requires Valid() && Distinct(batch) && forall i :: 0 <= i < |batch| ==> Unmarked(Now(), batch[i])
      modifies this
      ensures Valid() && history == old(history) + MaterializeAll(batch)
      ensures now == old(now) && events == old(events) && endpoints == old(endpoints)
      ensures markers == old(markers) + SetOf(batch)
    {
      hide Materializing, After, AllWellFormed;
      var n := 0;
      assert MaterializeAll(batch[..0]) == [];
      while n < |batch|
        invariant n <= |batch| && Valid() && history == old(history) + MaterializeAll(batch[..n])
        invariant now == old(now) && events == old(events) && endpoints == old(endpoints)
        invariant markers == old(markers) + SetOf(batch[..n])
      {
        assert batch[..n + 1] == batch[..n] + [batch[n]];
        assert batch[n] !in batch[..n];
        assert MaterializeAll(batch[..n + 1]) == MaterializeAll(batch[..n]) + [Materialize(batch[n])];
        MaterializeEvent(batch[n]);
        n := n + 1;
      }
      assert batch[..n] == batch;
    }

    /** `materializeWebhookDeliveries`: one batch; calls without new events empty the backlog. */
    method MaterializeWebhookDeliveries(limit: nat := 250) returns (batch: seq<Id>)
      requires Valid()
      modifies this
      ensures Valid() && history == old(history) + MaterializeAll(batch)
      ensures IsBatch(events, events.Keys - old(markers), batch, limit)
      ensures now == old(now) && events == old(events) && endpoints == old(endpoints)
      ensures markers == old(markers) + SetOf(batch)
      ensures |batch| == Min(limit, |events.Keys - old(markers)|)
      ensures |events.Keys - markers| == Max(0, |events.Keys - old(markers)| - limit)
    {
      batch := UnmarkedEvents(limit);
      hide Materializing, After, AllWellFormed, NotYounger, MaterializeAll, SetOf;
      MaterializeBatch(batch);
      BacklogShrinks(events, old(markers), markers, batch, limit);
    }

    /** The query of the claim: the eligible delivery that has been due for longest. */
    method FirstDue() returns (due: Option<Key>)
      ensures due.None? ==> forall key :: !Claimable(Now(), key)
      ensures due.Some? ==>
        && Claimable(Now(), due.value)
        && forall other :: Claimable(Now(), other) ==> DueNotLater(deliveries, due.value, other)
    {
      var eligible := set key | key in deliveries && key.endpoint in endpoints && key.event in events
        && (deliveries[key].status.Pending? || deliveries[key].status.Failed?)
        && deliveries[key].nextAttemptAt <= now && endpoints[key.endpoint].enabled;
      assert forall key :: key in eligible <==> Claimable(Now(), key);
      hide Claimable;
      if eligible == {} {
        return None;
      }
      ghost var first := FirstDueExists(deliveries, eligible);
      var key :| key in eligible && forall other :: other in eligible ==> DueNotLater(deliveries, key, other);
      due := Some(key);
    }

    /** `claimDelivery`, for one of any number of workers. */
    method ClaimDelivery(worker: Id) returns (claim: Option<InFlight>)
      requires Valid() && worker !in workers
      modifies this
      ensures Valid()
      ensures claim.None? ==> Now() == old(Now()) && forall key :: !Claimable(Now(), key)
      ensures claim.Some? ==>
        && var key := claim.value.key;
        && Claimable(old(Now()), key) && Now() == ClaimingBy(old(Now()), worker, key)
        && history == old(history) + [Claim(worker, key)] && workers[worker] == claim.value
        && (forall other :: Claimable(old(Now()), other) ==> DueNotLater(old(deliveries), key, other))
        && forall other :: Claimable(old(Now()), other) ==>
             || old(deliveries)[key].nextAttemptAt < old(deliveries)[other].nextAttemptAt
             || (old(deliveries)[key].nextAttemptAt == old(deliveries)[other].nextAttemptAt
                 && old(deliveries)[key].createdAt <= old(deliveries)[other].createdAt)
    {
      var due := FirstDue();
      if due.None? {
        return None;
      }
      ghost var before := Now();
      var key, row := due.value, deliveries[due.value];
      deliveries := deliveries[key := row.(
        status := Delivering, attempts := row.attempts + 1, lastAttemptAt := Some(now))];
      claim := Some(InFlight(key, row.attempts + 1));
      workers := workers[worker := claim.value];
      log := log + [Claimed(key, row.attempts + 1, now)];
      assert Now() == ClaimingBy(before, worker, key);
      hide Claimable, ClaimingBy, DueNotLater;
      Record(Claim(worker, key), before);
    }

    /** The update after a response with a success status. */
    method ReportSuccess(worker: Id, status: int, excerpt: string)
      requires Valid() && worker in workers
      modifies this
      ensures Valid() && history == old(history) + [Succeed(worker, status, excerpt)]
      ensures Now() == Next(config, old(Now()), Succeed(worker, status, excerpt))
    {
      ghost var before := Now();
      var key := workers[worker].key;
      if key in deliveries {
        deliveries := deliveries[key := deliveries[key].(
          status := Succeeded, completedAt := Some(now), response := Response(Some(status), Some(excerpt), None))];
      }
      workers := workers - {worker};
      Record(Succeed(worker, status, excerpt), before);
    }

    /** The update after any error of the attempt. */
    method ReportFailure(worker: Id, jitter: real, response: Response)
      requires Valid() && worker in workers && 0.0 <= jitter < 1.0
      modifies this
      ensures Valid() && history == old(history) + [Fail(worker, jitter, response)]
      ensures Now() == Next(config, old(Now()), Fail(worker, jitter, response))
    {
      ghost var before := Now();
      var key, attempt := workers[worker].key, workers[worker].attempt;
      var dead := attempt >= config.maxAttempts;
      var delay := DelayForAttempt(attempt, jitter);
      if key in deliveries {
        deliveries := deliveries[key := deliveries[key].(
          status := if dead then DeadLetter else Failed,
          nextAttemptAt := now + Seconds(delay) * SECOND,
          response := response,
          completedAt := if dead then Some(now) else None)];
      }
      workers := workers - {worker};
      Record(Fail(worker, jitter, response), before);
    }

    /** The query of the cleanup. */
    method RemovableEvents(limit: nat) returns (batch: seq<Id>)
      ensures IsBatch(events, RemovableIds(config, Now()), batch, limit)
    {
      var days := RetentionDays(config);
      var removable := set id | id in events && id in markers && events[id].createdAt < now - days * DAY
        && forall key :: key in deliveries && key.event == id ==> Resolved(deliveries[key].status);
      assert removable == RemovableIds(config, Now());
      hide Resolved, IsBatch, RetentionDays;
      batch := SelectOldest(events, removable, limit);
    }

    method DeleteEvents(batch: seq<Id>)
      modifies this`deliveries, this`markers, this`events, this`log
      ensures Now() == RemovedAtOnce(old(Now()), batch)
    {
      deliveries := map key | key in deliveries && key.event !in batch :: deliveries[key];
      markers := set id | id in markers && id !in batch;
      events := map id | id in events && id !in batch :: events[id];
      log := log + RemovalLog(batch);
    }

    /** `cleanupRetainedOperationalData`: deliveries, markers and events of the batch go together. */
    method CleanupRetainedOperationalData(limit: nat := 5000) returns (batch: seq<Id>)
      requires Valid()
      modifies this
      ensures Valid() && history == old(history) + RemoveAll(batch)
      ensures IsBatch(old(events), RemovableIds(config, old(Now())), batch, limit)
      ensures Now() == RemovedAtOnce(old(Now()), batch)
    {
      hide IsBatch, RemovedAtOnce, RemovalLog, RemoveAll, RemovableIds, After, AllWellFormed;
      ghost var before := Now();
      batch := RemovableEvents(limit);
      DeleteEvents(batch);
      RemovalIsRun(config, before, batch, limit, history);
      history := history + RemoveAll(batch);
    }
  }
}
