/**
 The durable command protocol: the command table and its transactional outbox as a state, and
 each SQL transaction that touches them as one atomic step.
 */
module Commands {
  import opened Prelude
  import CanonicalJson

  type Id = nat

  /** Timestamps have microsecond resolution. */
  const SECOND: int := 1_000_000
  const REDISPATCH_AFTER: int := 15 * SECOND
  const MIN_TTL: int := 30
  const MAX_TTL: int := 86400
  const PAGE_SIZE: nat := 50
  const MIN_KEY_LENGTH: nat := 8

  datatype Status = Queued | Dispatched | Accepted | Running | Succeeded | Failed | Cancelled | Expired | Rejected

  predicate Terminal(status: Status) {
    !(status.Queued? || status.Dispatched? || status.Accepted? || status.Running?)
  }

  function Rank(status: Status): nat {
    match status
    case Queued => 0
    case Dispatched => 1
    case Accepted => 2
    case Running => 3
    case _ => 4
  }

  /** What makes a request unique. */
  datatype RequestKey = RequestKey(organization: Id, actorType: string, actorId: string, idempotencyKey: string)

  /** The columns of a command that are written once. `payload` is the redacted payload. */
  datatype Request = Request(
    key: RequestKey, agent: Id, machine: Id, job: Option<string>, commandType: string,
    payload: CanonicalJson.Json, payloadText: string, createdAt: int, expiresAt: int)

  datatype Command = Command(
    request: Request,
    status: Status,
    dispatchedAt: Option<int>, lastDispatchAt: Option<int>, dispatchAttempts: nat,
    acceptedAt: Option<int>, startedAt: Option<int>, completedAt: Option<int>,
    result: Option<string>, errorCode: Option<string>, errorSummary: Option<string>,
    version: nat)

  datatype EventType =
    | CommandQueued | CommandDispatched | CommandRedispatched | CommandAccepted | CommandRunning
    | CommandSucceeded | CommandFailed | CommandCancelled | CommandExpired | CommandRejected
    | AgentRevoked

  /** An event of one command; `attempt` is the dispatch attempt, or 0. */
  datatype Note = Note(eventType: EventType, attempt: nat)

  /** An outbox row. The aggregate is the command, or the agent for `AgentRevoked`. */
  datatype Event = Event(aggregate: Id, agent: Id, note: Note)

  datatype Config = Config(defaultTtl: int, maxRunningSeconds: int)

  datatype Store = Store(now: int, rows: map<Id, Command>, outbox: seq<Event>)

  // ----- The effect of each transaction on one row -----

  /** A row after a transaction, and the events appended for it. */
  datatype Change = Change(row: Command, notes: seq<Note>)

  function Same(row: Command): Change {
    Change(row, [])
  }

  predicate Dispatchable(now: int, row: Command) {
    && row.request.expiresAt > now
    && (row.status.Queued? || (row.status.Dispatched? && row.lastDispatchAt.GetOr(0) < now - REDISPATCH_AFTER))
  }

  function Dispatch(now: int, row: Command): Change {
    if !Dispatchable(now, row) then Same(row)
    else
      var attempts := row.dispatchAttempts + 1;
      Change(
        row.(status := Dispatched, dispatchedAt := Some(row.dispatchedAt.GetOr(now)), lastDispatchAt := Some(now),
             dispatchAttempts := attempts, version := row.version + 1),
        [Note(if attempts > 1 then CommandRedispatched else CommandDispatched, attempts)])
  }

  /** The message name of a command type that the gateway knows. */
  function MessageName(commandType: string): Option<string> {
    if commandType == "executeJob" then Some("command.executeJob")
    else if commandType == "refreshInventory" then Some("command.refreshInventory")
    else if commandType == "collectDiagnostics" then Some("command.collectDiagnostics")
    else if commandType == "updateAgent" then Some("command.updateAgent")
    else if commandType == "cancel" then Some("command.cancel")
    else None
  }

  function RejectUnsupported(now: int, row: Command): Change {
    if row.status.Dispatched? && MessageName(row.request.commandType).None? then
      Change(row.(status := Rejected, completedAt := Some(now), errorCode := Some("UNSUPPORTED_COMMAND_TYPE"),
                  errorSummary := Some("Tipo de comando não suportado pelo gateway.")), [])
    else Same(row)
  }

  /** The kind of an agent message; `reported` is the lower-case status of a completion. */
  datatype Body =
    | AcceptedBody
    | RejectedBody
    | ProgressBody
    | CompletedBody(reported: string, success: Option<bool>)
    | OtherBody

  /** A message with its result, error code and error summary already redacted; None stands for absent. */
  datatype Message = Message(
    body: Body, payloadCommandId: Option<Id>, correlationId: Option<Id>,
    result: Option<string>, errorCode: Option<string>, errorSummary: Option<string>)

  datatype Stamp = AcceptedAt | StartedAt | CompletedAt

  datatype Transition = Transition(status: Status, stamp: Stamp, eventType: EventType, allowed: set<Status>)

  function TransitionFor(body: Body): Option<Transition> {
    match body
    case AcceptedBody =>
      Some(Transition(Accepted, AcceptedAt, CommandAccepted, {Queued, Dispatched}))
    case RejectedBody =>
      Some(Transition(Rejected, CompletedAt, CommandRejected, {Queued, Dispatched, Accepted}))
    case ProgressBody =>
      Some(Transition(Running, StartedAt, CommandRunning, {Dispatched, Accepted, Running}))
    case CompletedBody(reported, success) =>
      var allowed := {Queued, Dispatched, Accepted, Running};
      if reported == "cancelled" then Some(Transition(Cancelled, CompletedAt, CommandCancelled, allowed))
      else if success == Some(false) then Some(Transition(Failed, CompletedAt, CommandFailed, allowed))
      else Some(Transition(Succeeded, CompletedAt, CommandSucceeded, allowed))
    case OtherBody => None
  }

  function Stamped(now: int, row: Command, stamp: Stamp): Command {
    match stamp
    case AcceptedAt => row.(acceptedAt := Some(row.acceptedAt.GetOr(now)))
    case StartedAt => row.(startedAt := Some(row.startedAt.GetOr(now)))
    case CompletedAt => row.(completedAt := Some(row.completedAt.GetOr(now)))
  }

  /** The SQL `coalesce` of two nullable values. */
  function Coalesce<T>(first: Option<T>, second: Option<T>): Option<T> {
    if first.Some? then first else second
  }

  function Transit(now: int, row: Command, agent: Id, message: Message): Change {
    var transition := TransitionFor(message.body);
    if transition.None? || row.request.agent != agent || row.status !in transition.value.allowed then Same(row)
    else
      var t := transition.value;
      Change(
        Stamped(now, row, t.stamp).(
          status := t.status,
          result := Coalesce(message.result, row.result),
          errorCode := Coalesce(message.errorCode, row.errorCode),
          errorSummary := Coalesce(message.errorSummary, row.errorSummary),
          version := row.version + 1),
        [Note(t.eventType, 0)])
  }

  function CommandIdOf(message: Message): Option<Id> {
    Coalesce(message.payloadCommandId, message.correlationId)
  }

  predicate Unstarted(status: Status) {
    status.Queued? || status.Dispatched? || status.Accepted?
  }

  /** The two updates of the expiry sweep; no row is touched by both. */
  function SweepRow(config: Config, now: int, row: Command): Change {
    if Unstarted(row.status) && row.request.expiresAt < now then
      Change(row.(status := Expired, completedAt := Some(now), errorCode := Some("TTL_EXPIRED"),
                  errorSummary := Some("Comando expirou antes da execução.")),
             [Note(CommandExpired, 0)])
    else if row.status.Running? && row.startedAt.Some?
         && row.startedAt.value < now - config.maxRunningSeconds * SECOND then
      Change(row.(status := Failed, completedAt := Some(now), errorCode := Some("RUNNING_TIMEOUT"),
                  errorSummary := Some("Comando permaneceu em execução além do limite operacional.")),
             [Note(CommandFailed, 0)])
    else Same(row)
  }

  function RevokeRow(now: int, row: Command, agent: Id): Change {
    if row.request.agent == agent && Unstarted(row.status) then
      Change(row.(status := Cancelled, completedAt := Some(now), errorCode := Some("AGENT_REVOKED"),
                  errorSummary := Some("Agente revogado antes da conclusão.")), [])
    else Same(row)
  }

  // ----- Creation -----

  /** A creation request; the time to live is absent when the caller gives none. */
  datatype Input = Input(
    key: RequestKey, agent: Id, machine: Id, job: Option<string>, commandType: string,
    payload: CanonicalJson.Json, ttlSeconds: Option<int>)

  datatype Creation = Created(id: Id) | Replayed(id: Id) | KeyRequired | KeyConflict

  /** The time to live in seconds: zero counts as absent, and the rest is clamped. */
  function Ttl(config: Config, ttlSeconds: Option<int>): (ttl: int)
    ensures MIN_TTL <= ttl <= MAX_TTL
  {
    var wanted := ttlSeconds.GetOr(0);
    Max(MIN_TTL, Min(if wanted == 0 then config.defaultTtl else wanted, MAX_TTL))
  }

  function NewCommand(config: Config, now: int, input: Input): Command
    requires CanonicalJson.Valid(input.payload)
  {
    Command(
      Request(input.key, input.agent, input.machine, input.job, input.commandType, input.payload,
              CanonicalJson.RequestText(input.commandType, input.job, input.payload),
              now, now + Ttl(config, input.ttlSeconds) * SECOND),
      Queued, None, None, 0, None, None, None, None, None, None, 1)
  }

  /** The command that holds a request key, if there is one. */
  predicate HoldsKey(rows: map<Id, Command>, id: Id, key: RequestKey) {
    id in rows && rows[id].request.key == key
  }

  predicate KeyTaken(rows: map<Id, Command>, key: RequestKey) {
    exists id :: id in rows && HoldsKey(rows, id, key)
  }

  ghost function Holder(rows: map<Id, Command>, key: RequestKey): (id: Id)
    requires KeyTaken(rows, key)
    ensures HoldsKey(rows, id, key)
  {
    var id :| id in rows && HoldsKey(rows, id, key);
    id
  }

  /** The outcome of `createCommand`; `id` is the random identifier a new row would get. */
  ghost function Outcome(store: Store, id: Id, input: Input): Creation
    requires CanonicalJson.Valid(input.payload)
  {
    if |input.key.idempotencyKey| < MIN_KEY_LENGTH then KeyRequired
    else if KeyTaken(store.rows, input.key) then
      var holder := Holder(store.rows, input.key);
      var text := CanonicalJson.RequestText(input.commandType, input.job, input.payload);
      if store.rows[holder].request.payloadText != text then KeyConflict
      else Replayed(holder)
    else Created(id)
  }

  ghost function Create(config: Config, store: Store, id: Id, input: Input): Store
    requires CanonicalJson.Valid(input.payload)
  {
    if Outcome(store, id, input) == Created(id) && id !in store.rows then
      store.(rows := store.rows[id := NewCommand(config, store.now, input)],
             outbox := store.outbox + [Event(id, input.agent, Note(CommandQueued, 0))])
    else store
  }

  // ----- The steps of a run -----

  datatype Step =
    | Advance(elapsed: nat)                  // the clock
    | CreateCommand(id: Id, input: Input)
    | ClaimDispatch(id: Id)
    | RejectType(id: Id)
    | Receive(agent: Id, message: Message)
    | Sweep(order: seq<Id>)                  // the order in which the database returns the rows
    | Revoke(agent: Id)

  /** The events of one command, tagged with it. */
  function Tagged(id: Id, agent: Id, notes: seq<Note>): seq<Event> {
    seq(|notes|, i requires 0 <= i < |notes| => Event(id, agent, notes[i]))
  }

  /** A transaction on one row. */
  function Put(store: Store, id: Id, change: Change): Store {
    store.(rows := store.rows[id := change.row],
           outbox := store.outbox + Tagged(id, change.row.request.agent, change.notes))
  }

  predicate IsOrderOf(order: seq<Id>, rows: map<Id, Command>) {
    && (forall id :: id in rows ==> id in order)
    && (forall i :: 0 <= i < |order| ==> order[i] in rows)
    && (forall i, j :: 0 <= i < j < |order| ==> order[i] != order[j])
  }

  function SweptEvents(config: Config, store: Store, id: Id): seq<Event>
    requires id in store.rows
  {
    Tagged(id, store.rows[id].request.agent, SweepRow(config, store.now, store.rows[id]).notes)
  }

  /** The events of the sweep for the first `n` rows. */
  function SweepEvents(config: Config, store: Store, order: seq<Id>, n: nat): seq<Event>
    requires n <= |order| && IsOrderOf(order, store.rows)
  {
    if n == 0 then [] else SweepEvents(config, store, order, n - 1) + SweptEvents(config, store, order[n - 1])
  }

  ghost predicate WellFormed(step: Step) {
    step.CreateCommand? ==> CanonicalJson.Valid(step.input.payload)
  }

  ghost function Next(config: Config, store: Store, step: Step): Store
    requires WellFormed(step)
  {
    match step
    case Advance(elapsed) =>
      store.(now := store.now + elapsed)
    case CreateCommand(id, input) =>
      Create(config, store, id, input)
    case ClaimDispatch(id) =>
      if id in store.rows then Put(store, id, Dispatch(store.now, store.rows[id])) else store
    case RejectType(id) =>
      if id in store.rows then Put(store, id, RejectUnsupported(store.now, store.rows[id])) else store
    case Receive(agent, message) =>
      var id := CommandIdOf(message);
      if id.Some? && id.value in store.rows then
        Put(store, id.value, Transit(store.now, store.rows[id.value], agent, message))
      else store
    case Sweep(order) =>
      if IsOrderOf(order, store.rows) then
        Store(store.now,
              map id | id in store.rows :: SweepRow(config, store.now, store.rows[id]).row,
              store.outbox + SweepEvents(config, store, order, |order|))
      else store
    case Revoke(agent) =>
      Store(store.now,
            map id | id in store.rows :: RevokeRow(store.now, store.rows[id], agent).row,
            store.outbox + [Event(agent, agent, Note(AgentRevoked, 0))])
  }

  const EMPTY: Store := Store(0, map[], [])

  ghost predicate AllWellFormed(run: seq<Step>) {
    forall i :: 0 <= i < |run| ==> WellFormed(run[i])
  }

  /** The state after a run that starts with empty tables. */
  ghost function After(config: Config, run: seq<Step>): Store
    requires AllWellFormed(run)
  {
    if run == [] then EMPTY
    else Next(config, After(config, run[..|run| - 1]), run[|run| - 1])
  }

  // ----- The events of one command -----

  predicate ForCommand(event: Event, id: Id) {
    event.aggregate == id && !event.note.eventType.AgentRevoked?
  }

  function EventsOf(outbox: seq<Event>, id: Id): seq<Note> {
    if outbox == [] then []
    else
      var last := outbox[|outbox| - 1];
      EventsOf(outbox[..|outbox| - 1], id) + if ForCommand(last, id) then [last.note] else []
  }

  /** What one step does to one existing row; `swept` says whether a sweep step is a real one. */
  function RowStep(config: Config, now: int, id: Id, row: Command, step: Step, swept: bool): Change {
    match step
    case ClaimDispatch(target) => if target == id then Dispatch(now, row) else Same(row)
    case RejectType(target) => if target == id then RejectUnsupported(now, row) else Same(row)
    case Receive(agent, message) =>
      if CommandIdOf(message) == Some(id) then Transit(now, row, agent, message) else Same(row)
    case Sweep(_) => if swept then SweepRow(config, now, row) else Same(row)
    case Revoke(agent) => RevokeRow(now, row, agent)
    case _ => Same(row)
  }
}
