/**
 What each transaction of the webhook pipeline does to the columns of its tables, in the constants
 of the tables themselves: when a delivery is claimed, what a result writes, how long a failed
 attempt waits and when retention removes an event.
 */
module WebhookEffects {
  import opened Prelude
  import opened Webhooks
  import opened WebhookRuns

  // ----- Materialization -----

  /** The delivery of an event as it is created: due now, never tried, with the type and payload of the event. */
  predicate IsNew(now: int, event: Event, row: Delivery) {
    && row.eventType == event.eventType && row.payload == event.payload
    && row.status == Pending && row.attempts == 0 && row.nextAttemptAt == now && row.createdAt == now
    && row.lastAttemptAt == row.completedAt == None && row.response == Response(None, None, None)
  }

  /** The endpoint is enabled, belongs to the organization of the event and asks for its type or for all types. */
  predicate Wants(endpoint: Endpoint, event: Event) {
    && endpoint.enabled && event.organization.Some? && event.organization.value == endpoint.organization
    && (|| |endpoint.eventTypes| == 0
        || exists i :: 0 <= i < |endpoint.eventTypes| && endpoint.eventTypes[i] == event.eventType)
  }

  /** Materializing an unmarked event adds one new delivery for each endpoint that wants it, and the marker. */
  lemma {:induction false} MaterializationColumns(config: Config, state: State, id: Id, key: Key)
    ensures var after := Next(config, state, Materialize(id));
      if id in state.events && id !in state.markers then
        && after.markers == state.markers + {id} && after.events == state.events && after.endpoints == state.endpoints
        && after.workers == state.workers && after.now == state.now
        && (key in after.deliveries <==>
              || key in state.deliveries
              || (key.event == id && key.endpoint in state.endpoints
                  && Wants(state.endpoints[key.endpoint], state.events[id])))
        && (key in state.deliveries ==> after.deliveries[key] == state.deliveries[key])
        && (key in after.deliveries && key !in state.deliveries ==>
              IsNew(state.now, state.events[id], after.deliveries[key]))
      else
        after == state
  {
    if id in state.events {
      MatchesAreWants(state, id, key);
    }
    hide Matches, Wants;
  }

  lemma MatchesAreWants(state: State, id: Id, key: Key)
    requires id in state.events
    ensures key.endpoint in state.endpoints ==>
      var endpoint, event := state.endpoints[key.endpoint], state.events[id];
      Matches(endpoint, event) <==> Wants(endpoint, event)
  {
  }

  /** Endpoints come with a new identifier, are switched one at a time and go with their deliveries. */
  lemma {:induction false} EndpointColumns(config: Config, state: State, id: Id, endpoint: Endpoint, enabled: bool)
    ensures Next(config, state, AddEndpoint(id, endpoint))
         == if id in state.usedEndpoints then state
            else state.(endpoints := state.endpoints[id := endpoint], usedEndpoints := state.usedEndpoints + {id})
    ensures var after := Next(config, state, SwitchEndpoint(id, enabled));
      && after == state.(endpoints := after.endpoints) && after.endpoints.Keys == state.endpoints.Keys
      && forall other :: other in state.endpoints ==>
           after.endpoints[other]
             == if other == id then state.endpoints[other].(enabled := enabled) else state.endpoints[other]
    ensures var after := Next(config, state, DeleteEndpoint(id));
      && after == state.(endpoints := state.endpoints - {id}, deliveries := after.deliveries)
      && forall key :: key in after.deliveries <==> key in state.deliveries && key.endpoint != id
  {
  }

  // ----- Claims and results -----

  /** The delivery waits for its first or for another attempt, is due, and its endpoint is enabled. */
  predicate Ready(state: State, key: Key) {
    && key in state.deliveries && key.event in state.events
    && key.endpoint in state.endpoints && state.endpoints[key.endpoint].enabled
    && (state.deliveries[key].status == Pending || state.deliveries[key].status == Failed)
    && state.deliveries[key].nextAttemptAt <= state.now
  }

  /** A claim by an idle worker takes a ready delivery, once more and now, and changes nothing else. */
  lemma {:induction false} ClaimColumns(config: Config, state: State, worker: Id, key: Key)
    requires worker !in state.workers
    ensures var after := Next(config, state, Claim(worker, key));
      if Ready(state, key) then
        var row := state.deliveries[key];
        after == state.(
          deliveries := state.deliveries[key := row.(
            status := Delivering, attempts := row.attempts + 1, lastAttemptAt := Some(state.now))],
          workers := state.workers[worker := InFlight(key, row.attempts + 1)],
          log := after.log)
      else
        after == state
  {
  }

  /** The row after a report: the given columns change, and the worker is idle again. */
  predicate Reported(state: State, after: State, worker: Id, row: Delivery)
    requires worker in state.workers
  {
    var key := state.workers[worker].key;
    after == state.(
      workers := state.workers - {worker},
      deliveries := if key in state.deliveries then state.deliveries[key := row] else state.deliveries)
  }

  lemma {:induction false} SuccessColumns(config: Config, state: State, worker: Id, status: int, excerpt: string)
    requires worker in state.workers && state.workers[worker].key in state.deliveries
    ensures Reported(state, Next(config, state, Succeed(worker, status, excerpt)), worker,
      state.deliveries[state.workers[worker].key].(
        status := Succeeded, completedAt := Some(state.now), response := Response(Some(status), Some(excerpt), None)))
  {
  }

  /** A failure below the limit is retried after the wait; at the limit it is a dead letter, completed now. */
  lemma {:induction false} FailureColumns(config: Config, state: State, worker: Id, jitter: real, response: Response)
    requires worker in state.workers && state.workers[worker].key in state.deliveries && 0.0 <= jitter < 1.0
    ensures var after := Next(config, state, Fail(worker, jitter, response));
      var work := state.workers[worker];
      var row := after.deliveries[work.key];
      && Reported(state, after, worker, row)
      && row == state.deliveries[work.key].(
           status := row.status, nextAttemptAt := row.nextAttemptAt, completedAt := row.completedAt,
           response := response)
      && (if work.attempt < config.maxAttempts then row.status == Failed && row.completedAt == None
          else row.status == DeadLetter && row.completedAt == Some(state.now))
      && state.now + MinWait(work.attempt) * 1_000_000 <= row.nextAttemptAt
      && row.nextAttemptAt <= state.now + MaxWait(work.attempt) * 1_000_000
  {
    WaitIsBounded(state.workers[worker].attempt, jitter);
    hide MinWait, MaxWait, DelayForAttempt;
  }

  /** The base delay starts at two seconds with the first attempt and doubles up to five minutes. */
  lemma {:induction false} BaseDelayDoubles(attempt: nat, next: nat)
    requires attempt >= 1 && next == attempt + 1
    ensures BaseDelay(1) == 2000
    ensures BaseDelay(next) == if 2 * BaseDelay(attempt) < 300_000 then 2 * BaseDelay(attempt) else 300_000
  {
    assert Pow2(0) == 1;
  }

  /** Without jitter the wait is four fifths of the base delay, and a full draw would be six fifths. */
  lemma {:induction false} JitterScales(attempt: nat)
    ensures DelayForAttempt(attempt, 0.0) == BaseDelay(attempt) * 4 / 5
    ensures DelayForAttempt(attempt, 1.0) == BaseDelay(attempt) * 6 / 5
  {
    var base := BaseDelay(attempt);
    hide BaseDelay;
    assert Times(base as real, 0.8) == (base * 4) as real / 5.0;
    assert Times(base as real, 1.2) == (base * 6) as real / 5.0;
  }

  /** Milliseconds are rounded up to whole seconds. */
  lemma {:induction false} SecondsRoundUp(milliseconds: int)
    ensures 1000 * (Seconds(milliseconds) - 1) < milliseconds <= 1000 * Seconds(milliseconds)
  {
  }

  // ----- Retention -----

  /** The event is marked, all its deliveries have ended, and it is older than a day and than the days configured. */
  predicate MayLeave(config: Config, state: State, id: Id) {
    && id in state.events && id in state.markers
    && state.events[id].createdAt + 86_400_000_000 < state.now
    && state.events[id].createdAt + config.retentionDays * 86_400_000_000 < state.now
    && forall key :: key in state.deliveries && key.event == id ==>
         state.deliveries[key].status == Succeeded || state.deliveries[key].status == DeadLetter
  }

  /** Retention removes exactly such events, each with its marker and its deliveries and nothing else. */
  lemma {:induction false} RemovesExactlyWhatMayLeave(config: Config, state: State, id: Id)
    ensures var after := Next(config, state, Remove(id));
      if MayLeave(config, state, id) then
        after == state.(
          events := state.events - {id}, markers := state.markers - {id},
          deliveries := map key | key in state.deliveries && key.event != id :: state.deliveries[key],
          log := after.log)
      else
        after == state
    ensures Removable(config, state, id) <==> MayLeave(config, state, id)
  {
  }

  /** No other step takes an event away. */
  lemma {:induction false} EventsLeaveOnlyWhenOld(config: Config, run: seq<Step>, step: Step, id: Id)
    requires id in After(config, run).events && id !in Next(config, After(config, run), step).events
    ensures step == Remove(id) && MayLeave(config, After(config, run), id)
  {
    EventsAreUsed(config, run, id);
    EventStep(config, After(config, run), step, id);
    RemovesExactlyWhatMayLeave(config, After(config, run), id);
    hide After, Next, Removable, MayLeave;
  }
}
