/**
 What each transaction does to the columns of the command table, in the constants and words of
 the table itself: when a claim succeeds, what a new command holds, what a message, the sweep, a
 revocation and a rejection write.
 */
module CommandEffects {
  import opened Prelude
  import opened Commands
  import opened CommandRuns
  import opened CommandGuarantees
  import CanonicalJson

  // ----- Claims -----

  /** The command is live, and queued or sent over 15 s ago. */
  predicate Due(now: int, row: Command) {
    && now < row.request.expiresAt
    && (|| row.status == Queued
        || (row.status == Dispatched && row.lastDispatchAt.Some? && row.lastDispatchAt.value + 15_000_000 < now))
  }

  /** The row after a claim, column by column, and its event. */
  predicate IsClaimed(now: int, row: Command, change: Change) {
    var attempts := row.dispatchAttempts + 1;
    && change.row == row.(
         status := Dispatched, dispatchedAt := if attempts == 1 then Some(now) else row.dispatchedAt,
         lastDispatchAt := Some(now), dispatchAttempts := attempts, version := row.version + 1)
    && change.notes == [Note(if attempts == 1 then CommandDispatched else CommandRedispatched, attempts)]
  }

  lemma {:induction false} ClaimColumns(now: int, row: Command)
    requires Staged(row)
    ensures if Due(now, row) then IsClaimed(now, row, Dispatch(now, row)) else Dispatch(now, row) == Change(row, [])
    ensures Dispatchable(now, row) <==> Due(now, row)
  {
  }

  /** The store after a claim of an existing command. */
  predicate ClaimedIn(before: Store, after: Store, id: Id)
    requires id in before.rows
  {
    var row := before.rows[id];
    var attempts := row.dispatchAttempts + 1;
    && after.now == before.now
    && after.rows == before.rows[id := row.(
         status := Dispatched, dispatchedAt := if attempts == 1 then Some(before.now) else row.dispatchedAt,
         lastDispatchAt := Some(before.now), dispatchAttempts := attempts, version := row.version + 1)]
    && after.outbox == before.outbox + [Event(id, row.request.agent,
         Note(if attempts == 1 then CommandDispatched else CommandRedispatched, attempts))]
  }

  /**
   In every run a claim dispatches a live command that is queued or was sent over 15 s ago, once
   more and now, and otherwise changes nothing.
   */
  lemma {:induction false} ClaimsExactlyWhenDue(config: Config, run: seq<Step>, id: Id)
    requires AllWellFormed(run) && AllWellFormed(run + [ClaimDispatch(id)])
    ensures var before, after := After(config, run), After(config, run + [ClaimDispatch(id)]);
      if id in before.rows && Due(before.now, before.rows[id]) then ClaimedIn(before, after, id) else after == before
  {
    AfterOneMore(config, run, ClaimDispatch(id));
    var before := After(config, run);
    if id in before.rows {
      EveryCommandIsSound(config, run, id);
      ClaimColumns(before.now, before.rows[id]);
      ClaimIsPut(before, id);
    }
    hide After, Dispatch, Due;
  }

  lemma ClaimIsPut(store: Store, id: Id)
    requires id in store.rows
    ensures Put(store, id, Change(store.rows[id], [])) == store
    ensures var change := Dispatch(store.now, store.rows[id]);
      IsClaimed(store.now, store.rows[id], change) ==> ClaimedIn(store, Put(store, id, change), id)
  {
    hide Dispatch;
    var change := Dispatch(store.now, store.rows[id]);
    assert store.rows[id := store.rows[id]] == store.rows;
    assert Tagged(id, store.rows[id].request.agent, []) == [];
    if IsClaimed(store.now, store.rows[id], change) {
      var agent := change.row.request.agent;
      assert Tagged(id, agent, change.notes) == [Event(id, agent, change.notes[0])];
    }
  }

  // ----- Creation -----

  /** The life that a creation asks for: the default if absent or zero, kept within 30 s and a day. */
  predicate LivesAsAsked(config: Config, input: Input, life: int) {
    var asked := input.ttlSeconds;
    var wanted := if asked == None || asked == Some(0) then config.defaultTtl else asked.value;
    && (30 <= wanted <= 86_400 ==> life == wanted * 1_000_000)
    && (wanted < 30 ==> life == 30_000_000)
    && (wanted > 86_400 ==> life == 86_400_000_000)
  }

  /** The row holds what was asked for, and nothing has happened to it. */
  predicate HoldsRequest(config: Config, now: int, input: Input, row: Command) {
    var request := row.request;
    && request.key == input.key && request.agent == input.agent && request.machine == input.machine
    && request.job == input.job && request.commandType == input.commandType && request.payload == input.payload
    && request.createdAt == now
    && LivesAsAsked(config, input, request.expiresAt - now)
    && row.status == Queued && row.dispatchAttempts == 0 && row.version == 1
    && row.dispatchedAt == row.lastDispatchAt == row.acceptedAt == row.startedAt == row.completedAt == None
    && row.result == row.errorCode == row.errorSummary == None
  }

  lemma {:induction false} NewCommandHoldsRequest(config: Config, now: int, input: Input)
    requires CanonicalJson.Valid(input.payload)
    ensures HoldsRequest(config, now, input, NewCommand(config, now, input))
  {
    hide CanonicalJson.Valid, CanonicalJson.RequestText;
  }

  predicate KeyIsFree(store: Store, key: RequestKey) {
    forall id :: id in store.rows ==> store.rows[id].request.key != key
  }

  /** The store after a successful creation. */
  predicate CreatedIn(config: Config, before: Store, after: Store, id: Id, input: Input) {
    && after.now == before.now && id in after.rows && HoldsRequest(config, before.now, input, after.rows[id])
    && after.rows == before.rows[id := after.rows[id]]
    && after.outbox == before.outbox + [Event(id, input.agent, Note(CommandQueued, 0))]
  }

  /**
   A creation stores the request as asked if and only if its key is long enough and unused; a
   creation that stores nothing changes nothing.
   */
  lemma {:induction false} CreationStoresRequest(config: Config, store: Store, id: Id, input: Input)
    requires CanonicalJson.Valid(input.payload) && id !in store.rows
    ensures var after := Next(config, store, CreateCommand(id, input));
      if |input.key.idempotencyKey| >= 8 && KeyIsFree(store, input.key) then
        Outcome(store, id, input) == Created(id) && CreatedIn(config, store, after, id, input)
      else
        Outcome(store, id, input) != Created(id) && after == store
    ensures |input.key.idempotencyKey| < 8 <==> Outcome(store, id, input) == KeyRequired
  {
    hide CanonicalJson.Valid, CanonicalJson.RequestText, NewCommand, HoldsRequest;
    NewCommandHoldsRequest(config, store.now, input);
    KeyFreeOrTaken(store, input.key);
    if KeyTaken(store.rows, input.key) {
      var holder := Holder(store.rows, input.key);
      assert holder in store.rows;
    }
  }

  lemma KeyFreeOrTaken(store: Store, key: RequestKey)
    ensures KeyIsFree(store, key) <==> !KeyTaken(store.rows, key)
  {
    if !KeyIsFree(store, key) {
      var id :| id in store.rows && store.rows[id].request.key == key;
      assert HoldsKey(store.rows, id, key);
    }
  }

  /** The same call again, at any later time, returns the command that the first one created. */
  lemma {:induction false} RepeatReturnsTheCommand(
      config: Config, run: seq<Step>, id: Id, input: Input, more: seq<Step>, newId: Id)
    requires AllWellFormed(run) && CanonicalJson.Valid(input.payload)
    requires Outcome(After(config, run), id, input) == Created(id) && id !in After(config, run).rows
    requires AllWellFormed(run + [CreateCommand(id, input)]) && AllWellFormed(run + [CreateCommand(id, input)] + more)
    ensures var later := After(config, run + [CreateCommand(id, input)] + more);
      Outcome(later, newId, input) == Replayed(id) && Create(config, later, newId, input) == later
  {
    var created := run + [CreateCommand(id, input)];
    AfterOneMore(config, run, CreateCommand(id, input));
    CreationStoresRequest(config, After(config, run), id, input);
    hide After, Next, Create, Outcome, CanonicalJson.Valid, AllWellFormed;
    CreationIsIdempotent(config, created, more, id, newId, input);
    SameAsItself(After(config, created).rows[id].request, input);
  }

  lemma SameAsItself(request: Request, input: Input)
    requires request.commandType == input.commandType && request.job == input.job && request.payload == input.payload
    requires CanonicalJson.Valid(input.payload)
    ensures SameRequest(request, input)
  {
    CanonicalJson.RequestTextIdentifies(
      input.commandType, input.job, input.payload, input.commandType, input.job, input.payload);
  }

  // ----- Messages -----

  /** The statuses in which each kind of message is taken. */
  predicate Takes(body: Body, status: Status) {
    match body
    case AcceptedBody => status == Queued || status == Dispatched
    case RejectedBody => status == Queued || status == Dispatched || status == Accepted
    case ProgressBody => status == Dispatched || status == Accepted || status == Running
    case CompletedBody(_, _) => status == Queued || status == Dispatched || status == Accepted || status == Running
    case OtherBody => false
  }

  function StatusAfter(body: Body): Status
    requires !body.OtherBody?
  {
    match body
    case AcceptedBody => Accepted
    case RejectedBody => Rejected
    case ProgressBody => Running
    case CompletedBody(reported, success) =>
      if reported == "cancelled" then Cancelled else if success == Some(false) then Failed else Succeeded
  }

  /** A message overwrites a column only with a value that it carries. */
  predicate Overwrites<T(==)>(carried: Option<T>, before: Option<T>, after: Option<T>) {
    after == if carried == None then before else carried
  }

  /** The row after a message that is taken, column by column. */
  predicate IsTaken(now: int, row: Command, message: Message, taken: Command) {
    var status := taken.status;
    && !message.body.OtherBody? && status == StatusAfter(message.body)
    && Overwrites(message.result, row.result, taken.result)
    && Overwrites(message.errorCode, row.errorCode, taken.errorCode)
    && Overwrites(message.errorSummary, row.errorSummary, taken.errorSummary)
    && taken.acceptedAt == (if status == Accepted then Some(now) else row.acceptedAt)
    && taken.startedAt == (if status == Running && row.startedAt == None then Some(now) else row.startedAt)
    && taken.completedAt == (if Terminal(status) then Some(now) else None)
    && taken.version == row.version + 1 && taken.request == row.request
    && taken.dispatchedAt == row.dispatchedAt && taken.lastDispatchAt == row.lastDispatchAt
    && taken.dispatchAttempts == row.dispatchAttempts
  }

  /** The event type that announces a status reached by a message. */
  predicate Announces(event: EventType, status: Status) {
    && Announced(Queued, event) == status
    && event != CommandQueued && event != CommandDispatched && event != CommandRedispatched
  }

  lemma {:induction false} MessageColumns(now: int, row: Command, agent: Id, message: Message)
    requires Staged(row)
    ensures var change := Transit(now, row, agent, message);
      if agent == row.request.agent && Takes(message.body, row.status) then
        && IsTaken(now, row, message, change.row)
        && |change.notes| == 1 && change.notes[0].attempt == 0
        && Announces(change.notes[0].eventType, change.row.status)
      else
        change == Change(row, [])
  {
  }

  /** A message names its command in its payload, or else by its correlation. */
  lemma {:induction false} MessageTarget(message: Message)
    ensures message.payloadCommandId != None ==> CommandIdOf(message) == message.payloadCommandId
    ensures message.payloadCommandId == None ==> CommandIdOf(message) == message.correlationId
  {
  }

  // ----- Sweep, revocation and rejection -----

  /** The row has ended now with this status, code and summary, and nothing else has changed. */
  predicate EndedAs(now: int, row: Command, ended: Command, status: Status, code: string, summary: string) {
    ended == row.(status := status, completedAt := Some(now), errorCode := Some(code), errorSummary := Some(summary))
  }

  lemma {:induction false} SweepColumns(config: Config, now: int, row: Command)
    requires Staged(row)
    ensures var change := SweepRow(config, now, row);
      if row.status in {Queued, Dispatched, Accepted} && row.request.expiresAt < now then
        && EndedAs(now, row, change.row, Expired, "TTL_EXPIRED", "Comando expirou antes da execução.")
        && change.notes == [Note(CommandExpired, 0)]
      else if row.status == Running && row.startedAt.value + config.maxRunningSeconds * 1_000_000 < now then
        && EndedAs(now, row, change.row, Failed, "RUNNING_TIMEOUT",
             "Comando permaneceu em execução além do limite operacional.")
        && change.notes == [Note(CommandFailed, 0)]
      else
        change == Change(row, [])
  {
  }

  lemma {:induction false} RevocationColumns(now: int, row: Command, agent: Id)
    ensures var change := RevokeRow(now, row, agent);
      if row.request.agent == agent && row.status in {Queued, Dispatched, Accepted} then
        && EndedAs(now, row, change.row, Cancelled, "AGENT_REVOKED", "Agente revogado antes da conclusão.")
        && change.notes == []
      else
        change == Change(row, [])
  {
  }

  const KNOWN_TYPES: set<string> := {"executeJob", "refreshInventory", "collectDiagnostics", "updateAgent", "cancel"}

  /** The gateway knows exactly the five types, and sends each under its own name. */
  lemma {:induction false} KnownTypesHaveMessages(commandType: string)
    ensures MessageName(commandType) == if commandType in KNOWN_TYPES then Some("command." + commandType) else None
  {
    assert "command." + "executeJob" == "command.executeJob";
    assert "command." + "refreshInventory" == "command.refreshInventory";
    assert "command." + "collectDiagnostics" == "command.collectDiagnostics";
    assert "command." + "updateAgent" == "command.updateAgent";
    assert "command." + "cancel" == "command.cancel";
  }

  lemma {:induction false} RejectionColumns(now: int, row: Command)
    ensures var change := RejectUnsupported(now, row);
      if row.status == Dispatched && row.request.commandType !in KNOWN_TYPES then
        && EndedAs(now, row, change.row, Rejected, "UNSUPPORTED_COMMAND_TYPE",
             "Tipo de comando não suportado pelo gateway.")
        && change.notes == []
      else
        change == Change(row, [])
  {
    KnownTypesHaveMessages(row.request.commandType);
    hide MessageName;
  }
}
