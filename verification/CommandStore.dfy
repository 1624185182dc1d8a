/**
 The command table, its outbox and the operations on them as the services run them, one method
 per SQL transaction. Every method is one step of the protocol, or a run of steps.
 */
module CommandStore {
  import opened Prelude
  import opened Commands
  import opened CommandRuns
  import opened CommandGuarantees
  import opened CommandEffects
  import CanonicalJson

  /** What a dispatcher makes of a candidate whose message can be sent or whose type is unknown. */
  function Handled(now: int, row: Command): Command {
    if Dispatchable(now, row) then RejectUnsupported(now, Dispatch(now, row).row).row else row
  }

  /** The candidate was claimed for a message that the gateway can name. */
  predicate Claims(now: int, row: Command) {
    Dispatchable(now, row) && MessageName(row.request.commandType).Some?
  }

  /** The commands of an agent that the dispatcher would claim. */
  predicate IsCandidate(now: int, row: Command, agent: Id) {
    row.request.agent == agent && Dispatchable(now, row)
  }

  lemma {:induction false} CandidatesAreDue(now: int, row: Command, agent: Id)
    requires Staged(row)
    ensures IsCandidate(now, row, agent) <==> row.request.agent == agent && Due(now, row)
  {
    ClaimColumns(now, row);
    hide Dispatchable, Dispatch, Due;
  }

  /** The page of candidates: the oldest ones, oldest first, at most fifty, and no other left out. */
  ghost predicate IsPage(now: int, rows: map<Id, Command>, agent: Id, page: seq<Id>) {
    && |page| <= PAGE_SIZE && Distinct(page)
    && (forall i :: 0 <= i < |page| ==> page[i] in rows && IsCandidate(now, rows[page[i]], agent))
    && (forall i, j :: 0 <= i < j < |page| ==> NotYounger(rows, page[i], page[j]))
    && (forall id :: id in rows && id !in page && IsCandidate(now, rows[id], agent) ==>
          |page| == PAGE_SIZE && forall i :: 0 <= i < |page| ==> NotYounger(rows, page[i], id))
  }

  predicate NotYounger(rows: map<Id, Command>, a: Id, b: Id) {
    a in rows && b in rows && rows[a].request.createdAt <= rows[b].request.createdAt
  }

  lemma OldestExists(rows: map<Id, Command>, ids: set<Id>) returns (oldest: Id)
    requires ids <= rows.Keys && ids != {}
    ensures oldest in ids && forall id :: id in ids ==> NotYounger(rows, oldest, id)
  {
    oldest := FirstExists(ids, (a, b) => NotYounger(rows, a, b));
  }

  /** The messages that go out for the first `n` commands of a page. */
  function Sent(now: int, rows: map<Id, Command>, page: seq<Id>, n: nat): seq<Id>
    requires n <= |page| && AllIn(page, rows)
  {
    if n == 0 then []
    else Sent(now, rows, page, n - 1) + if Claims(now, rows[page[n - 1]]) then [page[n - 1]] else []
  }

  lemma SentOneMore(now: int, rows: map<Id, Command>, page: seq<Id>, n: nat)
    requires n < |page| && AllIn(page, rows)
    ensures |Sent(now, rows, page, n + 1)|
         == |Sent(now, rows, page, n)| + if Claims(now, rows[page[n]]) then 1 else 0
  {
  }

  datatype Attempt = Skipped | Delivered | Lost

  lemma KnownTypesAreKept(now: int, row: Command)
    ensures !Dispatchable(now, row) ==> Dispatch(now, row).row == row
    ensures Dispatch(now, row).row.request == row.request
    ensures MessageName(row.request.commandType).Some? ==>
      RejectUnsupported(now, Dispatch(now, row).row).row == Dispatch(now, row).row
  {
  }

  /** The first `n` commands of the page are handled, and no other row has changed. */
  ghost predicate HandledUpTo(now: int, before: map<Id, Command>, after: map<Id, Command>, page: seq<Id>, n: nat) {
    && n <= |page| && AllIn(page, before) && after.Keys == before.Keys
    && (forall i :: 0 <= i < n ==> after[page[i]] == Handled(now, before[page[i]]))
    && (forall id :: id in before && !Among(page, n, id) ==> after[id] == before[id])
  }

  lemma NothingHandled(now: int, rows: map<Id, Command>, page: seq<Id>)
    requires AllIn(page, rows)
    ensures HandledUpTo(now, rows, rows, page, 0) && Sent(now, rows, page, 0) == []
  {
  }

  lemma AmongOneMore(page: seq<Id>, n: nat, id: Id)
    requires n < |page|
    ensures Among(page, n + 1, id) <==> Among(page, n, id) || id == page[n]
  {
  }

  lemma AmongEarlier(page: seq<Id>, n: nat)
    requires n < |page| && Distinct(page)
    ensures !Among(page, n, page[n])
  {
  }

  lemma HandledOneMore(
      now: int, start: map<Id, Command>, before: map<Id, Command>, after: map<Id, Command>, page: seq<Id>, n: nat)
    requires n < |page| && Distinct(page) && HandledUpTo(now, start, before, page, n) && after.Keys == before.Keys
    requires forall id :: id in after && id != page[n] ==> after[id] == before[id]
    requires after[page[n]] == Handled(now, before[page[n]])
    ensures HandledUpTo(now, start, after, page, n + 1)
    ensures before[page[n]] == start[page[n]]
  {
    hide Handled, Among;
    assert forall i :: 0 <= i < n ==> page[i] != page[n];
    forall id | id in start ensures Among(page, n + 1, id) <==> Among(page, n, id) || id == page[n] {
      AmongOneMore(page, n, id);
    }
    AmongEarlier(page, n);
  }

  /** The steps are claims of one command, or rejections of its type. */
  predicate OnlyDispatches(steps: seq<Step>, id: Id) {
    forall i :: 0 <= i < |steps| ==> steps[i] == ClaimDispatch(id) || steps[i] == RejectType(id)
  }

  predicate IsExpired(now: int, row: Command) {
    Unstarted(row.status) && row.request.expiresAt < now
  }

  predicate IsLost(config: Config, now: int, row: Command) {
    row.status.Running? && row.startedAt.Some? && row.startedAt.value < now - config.maxRunningSeconds * SECOND
  }

  predicate AllIn(ids: seq<Id>, rows: map<Id, Command>) {
    forall i :: 0 <= i < |ids| ==> ids[i] in rows
  }

  /** One event per command of a stretch of the order. */
  function Announce(order: seq<Id>, from: nat, n: nat, rows: map<Id, Command>, eventType: EventType): seq<Event>
    requires from <= n <= |order| && AllIn(order, rows)
  {
    seq(n - from, i requires 0 <= i < n - from =>
      Event(order[from + i], rows[order[from + i]].request.agent, Note(eventType, 0)))
  }

  lemma AnnounceOneMore(order: seq<Id>, from: nat, n: nat, rows: map<Id, Command>, eventType: EventType)
    requires from < n <= |order| && AllIn(order, rows)
    ensures Announce(order, from, n, rows, eventType)
         == Announce(order, from, n - 1, rows, eventType)
          + Tagged(order[n - 1], rows[order[n - 1]].request.agent, [Note(eventType, 0)])
  {
  }

  /** The rows of a stretch of the order that all get the same events. */
  predicate Uniform(config: Config, store: Store, order: seq<Id>, from: nat, n: nat, notes: seq<Note>)
    requires n <= |order| && AllIn(order, store.rows)
  {
    forall i :: from <= i < n ==> SweepRow(config, store.now, store.rows[order[i]]).notes == notes
  }

  lemma UniformStep(config: Config, store: Store, order: seq<Id>, from: nat, n: nat, notes: seq<Note>)
    requires from < n <= |order| && AllIn(order, store.rows) && Uniform(config, store, order, from, n, notes)
    ensures order[n - 1] in store.rows && Uniform(config, store, order, from, n - 1, notes)
    ensures SweptEvents(config, store, order[n - 1])
         == Tagged(order[n - 1], store.rows[order[n - 1]].request.agent, notes)
  {
    hide SweepRow;
  }

  lemma NothingTagged(id: Id, agent: Id)
    ensures Tagged(id, agent, []) == []
  {
  }

  lemma NothingAnnounced(order: seq<Id>, n: nat, rows: map<Id, Command>, eventType: EventType)
    requires n <= |order| && AllIn(order, rows)
    ensures Announce(order, n, n, rows, eventType) == []
  {
  }

  lemma Associative(a: seq<Event>, b: seq<Event>, c: seq<Event>)
    ensures (a + b) + c == a + (b + c)
  {
  }

  lemma NotedOneMore(
      config: Config, store: Store, order: seq<Id>, from: nat, n: nat, eventType: EventType, before: seq<Event>)
    requires from < n <= |order| && IsOrderOf(order, store.rows) && AllIn(order, store.rows)
    requires Uniform(config, store, order, from, n, [Note(eventType, 0)])
    requires SweepEvents(config, store, order, n - 1) == before + Announce(order, from, n - 1, store.rows, eventType)
    ensures SweepEvents(config, store, order, n) == before + Announce(order, from, n, store.rows, eventType)
  {
    hide *;
    UniformStep(config, store, order, from, n, [Note(eventType, 0)]);
    SweepEventsStep(config, store, order, n);
    AnnounceOneMore(order, from, n, store.rows, eventType);
    Associative(before, Announce(order, from, n - 1, store.rows, eventType), SweptEvents(config, store, order[n - 1]));
  }

  lemma {:induction false} NotedStretch(
      config: Config, store: Store, order: seq<Id>, from: nat, n: nat, eventType: EventType)
    requires from <= n <= |order| && IsOrderOf(order, store.rows) && AllIn(order, store.rows)
    requires Uniform(config, store, order, from, n, [Note(eventType, 0)])
    ensures SweepEvents(config, store, order, n)
         == SweepEvents(config, store, order, from) + Announce(order, from, n, store.rows, eventType)
    decreases n
  {
    hide *;
    if from < n {
      UniformStep(config, store, order, from, n, [Note(eventType, 0)]);
      NotedStretch(config, store, order, from, n - 1, eventType);
      NotedOneMore(config, store, order, from, n, eventType, SweepEvents(config, store, order, from));
    } else {
      NothingAnnounced(order, n, store.rows, eventType);
    }
  }

  lemma {:induction false} QuietStretch(config: Config, store: Store, order: seq<Id>, from: nat, n: nat)
    requires from <= n <= |order| && IsOrderOf(order, store.rows) && AllIn(order, store.rows)
    requires Uniform(config, store, order, from, n, [])
    ensures SweepEvents(config, store, order, n) == SweepEvents(config, store, order, from)
    decreases n
  {
    hide *;
    if from < n {
      UniformStep(config, store, order, from, n, []);
      SweepEventsStep(config, store, order, n);
      NothingTagged(order[n - 1], store.rows[order[n - 1]].request.agent);
      QuietStretch(config, store, order, from, n - 1);
    }
  }

  /** The order lists exactly these commands, each once. */
  ghost predicate Lists(order: seq<Id>, ids: set<Id>) {
    Distinct(order) && forall id :: id in ids <==> id in order
  }

  lemma SomeOrder(ids: set<Id>) returns (order: seq<Id>)
    ensures Lists(order, ids)
  {
    if ids == {} {
      order := [];
    } else {
      var id :| id in ids;
      var others := SomeOrder(ids - {id});
      order := others + [id];
    }
  }

  lemma ListsOneMore(order: seq<Id>, ids: set<Id>, id: Id)
    requires Lists(order, ids) && id !in ids
    ensures Lists(order + [id], ids + {id})
  {
  }

  ghost function ExpiredIds(store: Store): set<Id> {
    set id | id in store.rows && IsExpired(store.now, store.rows[id])
  }

  ghost function LostIds(config: Config, store: Store): set<Id> {
    set id | id in store.rows && IsLost(config, store.now, store.rows[id])
  }

  lemma NotExpiredAndLost(config: Config, now: int, row: Command)
    ensures !(IsExpired(now, row) && IsLost(config, now, row))
    ensures IsExpired(now, row) ==> SweepRow(config, now, row).notes == [Note(CommandExpired, 0)]
    ensures IsLost(config, now, row) ==> SweepRow(config, now, row).notes == [Note(CommandFailed, 0)]
    ensures !IsExpired(now, row) && !IsLost(config, now, row) ==> SweepRow(config, now, row) == Same(row)
  {
  }

  lemma JoinedOrder(config: Config, store: Store, first: seq<Id>, second: seq<Id>, rest: seq<Id>)
    requires Lists(first, ExpiredIds(store)) && Lists(second, LostIds(config, store))
    requires Lists(rest, store.rows.Keys - ExpiredIds(store) - LostIds(config, store))
    ensures var order := first + second + rest;
      IsOrderOf(order, store.rows) && AllIn(order, store.rows)
  {
    hide IsExpired, IsLost;
    var order := first + second + rest;
    forall id | id in store.rows ensures id in order {
      if id !in ExpiredIds(store) && id !in LostIds(config, store) {
        assert id in rest;
      }
    }
    forall i | 0 <= i < |order| ensures order[i] in store.rows {
      assert order[i] in first || order[i] in second || order[i] in rest;
    }
    forall i, j | 0 <= i < j < |order| ensures order[i] != order[j] {
      JoinedIsDistinct(config, store, first, second, rest, i, j);
    }
  }

  lemma JoinedIsDistinct(config: Config, store: Store, first: seq<Id>, second: seq<Id>, rest: seq<Id>, i: nat, j: nat)
    requires Lists(first, ExpiredIds(store)) && Lists(second, LostIds(config, store))
    requires Lists(rest, store.rows.Keys - ExpiredIds(store) - LostIds(config, store))
    requires i < j < |first + second + rest|
    ensures (first + second + rest)[i] != (first + second + rest)[j]
  {
    var order := first + second + rest;
    var a, b := |first|, |first| + |second|;
    assert i < a ==> order[i] in first;
    assert a <= i < b ==> order[i] in second;
    assert b <= i ==> order[i] in rest;
    assert a <= j < b ==> order[j] in second;
    assert b <= j ==> order[j] in rest;
    if order[i] in ExpiredIds(store) && order[i] in LostIds(config, store) {
      NotExpiredAndLost(config, store.now, store.rows[order[i]]);
    }
    hide IsExpired, IsLost;
  }

  /** The events of the whole sweep: the expired commands first, then the lost ones. */
  lemma {:induction false} SweepEventsInTwoParts(
      config: Config, store: Store, first: seq<Id>, second: seq<Id>, rest: seq<Id>)
    requires Lists(first, ExpiredIds(store)) && Lists(second, LostIds(config, store))
    requires Lists(rest, store.rows.Keys - ExpiredIds(store) - LostIds(config, store))
    requires AllIn(first, store.rows) && AllIn(second, store.rows)
    ensures var order := first + second + rest;
      && IsOrderOf(order, store.rows)
      && SweepEvents(config, store, order, |order|)
         == Announce(first, 0, |first|, store.rows, CommandExpired)
          + Announce(second, 0, |second|, store.rows, CommandFailed)
  {
    hide *;
    var order, a, b := first + second + rest, |first|, |first| + |second|;
    JoinedOrder(config, store, first, second, rest);
    JoinedIsUniform(config, store, first, second, rest);
    NotedStretch(config, store, order, 0, a, CommandExpired);
    NotedStretch(config, store, order, a, b, CommandFailed);
    QuietStretch(config, store, order, b, |order|);
    NothingSweptFirst(config, store, order);
    SameAnnouncement(first, order, 0, store.rows, CommandExpired);
    SameAnnouncement(second, order, a, store.rows, CommandFailed);
  }

  lemma NothingSweptFirst(config: Config, store: Store, order: seq<Id>)
    requires IsOrderOf(order, store.rows)
    ensures SweepEvents(config, store, order, 0) == []
  {
  }

  lemma SameAnnouncement(ids: seq<Id>, order: seq<Id>, from: nat, rows: map<Id, Command>, eventType: EventType)
    requires from + |ids| <= |order| && order[from..from + |ids|] == ids && AllIn(order, rows) && AllIn(ids, rows)
    ensures Announce(order, from, from + |ids|, rows, eventType) == Announce(ids, 0, |ids|, rows, eventType)
  {
    assert forall i :: 0 <= i < |ids| ==> order[from..from + |ids|][i] == ids[i];
  }

  lemma ListedIsUniform(config: Config, store: Store, order: seq<Id>, from: nat, n: nat, notes: seq<Note>)
    requires from <= n <= |order| && AllIn(order, store.rows)
    requires forall i :: from <= i < n ==> SweepRow(config, store.now, store.rows[order[i]]).notes == notes
    ensures Uniform(config, store, order, from, n, notes)
  {
  }

  lemma JoinedIsUniform(config: Config, store: Store, first: seq<Id>, second: seq<Id>, rest: seq<Id>)
    requires Lists(first, ExpiredIds(store)) && Lists(second, LostIds(config, store))
    requires Lists(rest, store.rows.Keys - ExpiredIds(store) - LostIds(config, store))
    requires AllIn(first + second + rest, store.rows)
    ensures var order, a, b := first + second + rest, |first|, |first| + |second|;
      && Uniform(config, store, order, 0, a, [Note(CommandExpired, 0)])
      && Uniform(config, store, order, a, b, [Note(CommandFailed, 0)])
      && Uniform(config, store, order, b, |order|, [])
      && order[0..a] == first && order[a..b] == second
  {
    hide IsExpired, IsLost, SweepRow, Uniform;
    var order, a, b := first + second + rest, |first|, |first| + |second|;
    forall i | 0 <= i < |order|
      ensures SweepRow(config, store.now, store.rows[order[i]]).notes
           == if i < a then [Note(CommandExpired, 0)] else if i < b then [Note(CommandFailed, 0)] else []
    {
      assert i < a ==> order[i] in first;
      assert a <= i < b ==> order[i] in second;
      assert b <= i ==> order[i] in rest;
      NotExpiredAndLost(config, store.now, store.rows[order[i]]);
    }
    ListedIsUniform(config, store, order, 0, a, [Note(CommandExpired, 0)]);
    ListedIsUniform(config, store, order, a, b, [Note(CommandFailed, 0)]);
    ListedIsUniform(config, store, order, b, |order|, []);
  }

  /** A transaction on one row either changes nothing or updates the row and appends its events. */
  lemma PutIsUpdate(store: Store, id: Id, change: Change)
    requires id in store.rows
    ensures change == Same(store.rows[id]) ==> Put(store, id, change) == store
    ensures |change.notes| == 1 ==>
      Put(store, id, change).outbox == store.outbox + [Event(id, change.row.request.agent, change.notes[0])]
    ensures change.notes == [] ==> Put(store, id, change).outbox == store.outbox
  {
  }

  /** The first update of the sweep. */
  function Expiration(now: int, row: Command): Command {
    row.(status := Expired, completedAt := Some(now), errorCode := Some("TTL_EXPIRED"),
         errorSummary := Some("Comando expirou antes da execução."))
  }

  /** The second update of the sweep. */
  function Loss(now: int, row: Command): Command {
    row.(status := Failed, completedAt := Some(now), errorCode := Some("RUNNING_TIMEOUT"),
         errorSummary := Some("Comando permaneceu em execução além do limite operacional."))
  }

  lemma UpdatesAreSweep(config: Config, now: int, row: Command)
    ensures var once := if IsExpired(now, row) then Expiration(now, row) else row;
      && (if IsLost(config, now, once) then Loss(now, once) else once) == SweepRow(config, now, row).row
      && (IsLost(config, now, once) <==> IsLost(config, now, row))
      && once.request == row.request
  {
  }

  lemma AnnounceReadsAgents(ids: seq<Id>, before: map<Id, Command>, after: map<Id, Command>, eventType: EventType)
    requires AllIn(ids, after) && SameRequests(before, after)
    ensures AllIn(ids, before)
    ensures Announce(ids, 0, |ids|, before, eventType) == Announce(ids, 0, |ids|, after, eventType)
  {
  }

  /** The rows after the first update, and after the second. */
  function AfterExpiration(now: int, rows: map<Id, Command>): map<Id, Command> {
    map id | id in rows :: if IsExpired(now, rows[id]) then Expiration(now, rows[id]) else rows[id]
  }

  function AfterLoss(config: Config, now: int, rows: map<Id, Command>): map<Id, Command> {
    map id | id in rows :: if IsLost(config, now, rows[id]) then Loss(now, rows[id]) else rows[id]
  }

  function SweptRows(config: Config, store: Store): map<Id, Command> {
    map id | id in store.rows :: SweepRow(config, store.now, store.rows[id]).row
  }

  ghost predicate SameRequests(before: map<Id, Command>, after: map<Id, Command>) {
    before.Keys == after.Keys && forall id :: id in before ==> after[id].request == before[id].request
  }

  lemma SweepIsTwoUpdates(config: Config, store: Store)
    ensures var once := AfterExpiration(store.now, store.rows);
      && AfterLoss(config, store.now, once) == SweptRows(config, store)
      && SameRequests(store.rows, once)
      && LostIds(config, Store(store.now, once, store.outbox)) == LostIds(config, store)
  {
    hide IsExpired, IsLost, Expiration, Loss, SweepRow;
    forall id | id in store.rows {
      UpdatesAreSweep(config, store.now, store.rows[id]);
    }
  }

  lemma SweepIsStep(config: Config, store: Store, order: seq<Id>, after: Store)
    requires IsOrderOf(order, store.rows) && after.now == store.now
    requires after.rows == AfterLoss(config, store.now, AfterExpiration(store.now, store.rows))
    requires after.outbox == store.outbox + SweepEvents(config, store, order, |order|)
    ensures Next(config, store, Sweep(order)) == after
    ensures after.rows.Keys == store.rows.Keys
    ensures forall id :: id in after.rows ==> after.rows[id] == SweepRow(config, store.now, store.rows[id]).row
  {
    SweepIsTwoUpdates(config, store);
    hide SweepRow, SweepEvents, IsOrderOf, AfterLoss, AfterExpiration;
  }

  lemma TwoUpdatesAreSweep(
      config: Config, before: Store, first: seq<Id>, once: Store, second: seq<Id>, after: Store)
    returns (order: seq<Id>)
    requires once.now == before.now && once.rows == AfterExpiration(before.now, before.rows)
    requires Lists(first, ExpiredIds(before)) && AllIn(first, once.rows)
    requires once.outbox == before.outbox + Announce(first, 0, |first|, once.rows, CommandExpired)
    requires after.now == once.now && after.rows == AfterLoss(config, once.now, once.rows)
    requires Lists(second, LostIds(config, once)) && AllIn(second, after.rows)
    requires after.outbox == once.outbox + Announce(second, 0, |second|, after.rows, CommandFailed)
    ensures IsOrderOf(order, before.rows)
    ensures after.outbox == before.outbox + SweepEvents(config, before, order, |order|)
  {
    hide *;
    SweepIsTwoUpdates(config, before);
    LostReadsRows(config, once, Store(before.now, once.rows, before.outbox));
    SweepKeepsRequests(config, before, after.rows);
    AnnounceReadsAgents(first, before.rows, once.rows, CommandExpired);
    AnnounceReadsAgents(second, before.rows, after.rows, CommandFailed);
    var rest := SomeOrder(before.rows.Keys - ExpiredIds(before) - LostIds(config, before));
    SweepEventsInTwoParts(config, before, first, second, rest);
    order := first + second + rest;
  }

  lemma LostReadsRows(config: Config, a: Store, b: Store)
    requires a.now == b.now && a.rows == b.rows
    ensures LostIds(config, a) == LostIds(config, b)
  {
  }

  lemma SweepKeepsRequests(config: Config, store: Store, rows: map<Id, Command>)
    requires rows == SweptRows(config, store)
    ensures SameRequests(store.rows, rows)
  {
  }

  class CommandTable {
    const config: Config
    var now: int
    var rows: map<Id, Command>
    var outbox: seq<Event>
    /** The steps so far, since the tables were empty. */
    ghost var history: seq<Step>

    ghost function State(): Store
      reads this
    {
      Store(now, rows, outbox)
    }

    ghost predicate Valid()
      reads this
    {
      AllWellFormed(history) && State() == After(config, history)
    }

    constructor (config: Config)
      ensures Valid() && this.config == config && history == [] && State() == EMPTY
    {
      this.config := config;
      now, rows, outbox, history := 0, map[], [], [];
    }

    /** Appends a step to the history once the state has made it. */
    ghost method Record(step: Step, before: Store)
      requires AllWellFormed(history) && WellFormed(step) && before == After(config, history)
      requires State() == Next(config, before, step)
      modifies this`history
      ensures Valid() && history == old(history) + [step]
    {
      AfterOneMore(config, history, step);
      history := history + [step];
    }

    method Advance(elapsed: nat)
      requires Valid()
      modifies this
      ensures Valid() && history == old(history) + [Step.Advance(elapsed)]
      ensures State() == old(State()).(now := old(now) + elapsed)
    {
      ghost var before := State();
      now := now + elapsed;
      Record(Step.Advance(elapsed), before);
    }

    /** `createCommand`; `id` is the identifier that the database draws for a new row. */
    method Create(id: Id, input: Input) returns (creation: Creation)
      requires Valid() && CanonicalJson.Valid(input.payload) && id !in rows
      modifies this
      ensures Valid() && history == old(history) + [CreateCommand(id, input)]
      ensures creation == Outcome(old(State()), id, input)
      ensures State() == Commands.Create(config, old(State()), id, input)
      ensures creation == Created(id) <==> |input.key.idempotencyKey| >= 8 && KeyIsFree(old(State()), input.key)
      ensures if creation == Created(id) then CreatedIn(config, old(State()), State(), id, input)
              else State() == old(State())
    {
      ghost var before := State();
      CreationStoresRequest(config, before, id, input);
      hide CreatedIn, KeyIsFree;
      if |input.key.idempotencyKey| < MIN_KEY_LENGTH {
        creation := KeyRequired;
      } else {
        var text := CanonicalJson.RequestText(input.commandType, input.job, input.payload);
        var taken := exists other :: other in rows && HoldsKey(rows, other, input.key);
        if taken {
          var existing :| existing in rows && HoldsKey(rows, existing, input.key);
          ghost var holder := Holder(rows, input.key);
          EveryKeyHasOneCommand(config, history, existing, holder);
          creation := if rows[existing].request.payloadText != text then KeyConflict else Replayed(existing);
        } else {
          assert !KeyTaken(rows, input.key);
          rows := rows[id := NewCommand(config, now, input)];
          outbox := outbox + [Event(id, input.agent, Note(CommandQueued, 0))];
          creation := Created(id);
        }
      }
      Record(CreateCommand(id, input), before);
    }

    /** `claimDispatch` */
    method ClaimDispatch(id: Id) returns (claimed: bool)
      requires Valid()
      modifies this
      ensures Valid() && history == old(history) + [Step.ClaimDispatch(id)]
      ensures State() == Next(config, old(State()), Step.ClaimDispatch(id))
      ensures claimed == (id in old(rows) && Dispatchable(now, old(rows)[id]))
      ensures claimed == (id in old(rows) && Due(now, old(rows)[id]))
      ensures if claimed then ClaimedIn(old(State()), State(), id) else State() == old(State())
      ensures now == old(now) && rows.Keys == old(rows.Keys)
      ensures forall other :: other in rows ==>
        rows[other] == if other == id then Dispatch(now, old(rows)[id]).row else old(rows)[other]
    {
      ghost var before := State();
      claimed := id in rows && Dispatchable(now, rows[id]);
      if claimed {
        var row := rows[id];
        rows := rows[id := row.(
          status := Dispatched,
          dispatchedAt := if row.dispatchedAt.Some? then row.dispatchedAt else Some(now),
          lastDispatchAt := Some(now),
          dispatchAttempts := row.dispatchAttempts + 1,
          version := row.version + 1)];
        row := rows[id];
        var eventType := if row.dispatchAttempts > 1 then CommandRedispatched else CommandDispatched;
        outbox := outbox + [Event(id, row.request.agent, Note(eventType, row.dispatchAttempts))];
      }
      if id in before.rows {
        PutIsUpdate(before, id, Dispatch(before.now, before.rows[id]));
        EveryCommandIsSound(config, history, id);
        ClaimColumns(before.now, before.rows[id]);
      }
      Record(Step.ClaimDispatch(id), before);
    }

    /** The rejection of an unknown command type, outside the claiming transaction and without event. */
    method RejectType(id: Id)
      requires Valid()
      modifies this
      ensures Valid() && history == old(history) + [Step.RejectType(id)]
      ensures State() == Next(config, old(State()), Step.RejectType(id))
      ensures now == old(now) && outbox == old(outbox) && rows.Keys == old(rows.Keys)
      ensures forall other :: other in rows ==>
        rows[other] == if other == id then RejectUnsupported(now, old(rows)[id]).row else old(rows)[other]
    {
      ghost var before := State();
      if id in rows && rows[id].status.Dispatched? && MessageName(rows[id].request.commandType).None? {
        rows := rows[id := rows[id].(
          status := Rejected, completedAt := Some(now), errorCode := Some("UNSUPPORTED_COMMAND_TYPE"),
          errorSummary := Some("Tipo de comando não suportado pelo gateway."))];
      }
      if id in before.rows { PutIsUpdate(before, id, RejectUnsupported(before.now, before.rows[id])); }
      Record(Step.RejectType(id), before);
    }

    /** `commandTransition`: what a message of an agent does. */
    method CommandTransition(agent: Id, message: Message)
      requires Valid()
      modifies this
      ensures Valid() && history == old(history) + [Receive(agent, message)]
      ensures State() == Next(config, old(State()), Receive(agent, message))
    {
      ghost var before := State();
      var target := CommandIdOf(message);
      var transition := TransitionFor(message.body);
      if target.Some? && transition.Some? && target.value in rows {
        var id, row := target.value, rows[target.value];
        if row.request.agent == agent && row.status in transition.value.allowed {
          row := Stamped(now, row, transition.value.stamp);
          row := row.(status := transition.value.status,
                      result := Coalesce(message.result, row.result),
                      errorCode := Coalesce(message.errorCode, row.errorCode),
                      errorSummary := Coalesce(message.errorSummary, row.errorSummary),
                      version := row.version + 1);
          rows := rows[id := row];
          outbox := outbox + [Event(id, agent, Note(transition.value.eventType, 0))];
        }
      }
      if target.Some? && target.value in before.rows {
        PutIsUpdate(before, target.value, Transit(before.now, before.rows[target.value], agent, message));
      }
      Record(Receive(agent, message), before);
    }

    /** The loop that appends one event per updated row, in the order the database returns them. */
    method AppendEvents(ids: set<Id>, eventType: EventType) returns (ghost order: seq<Id>)
      requires ids <= rows.Keys
      modifies this`outbox
      ensures Lists(order, ids) && AllIn(order, rows)
      ensures outbox == old(outbox) + Announce(order, 0, |order|, rows, eventType)
    {
      var left := ids;
      order := [];
      while left != {}
        invariant left <= ids && Lists(order, ids - left) && AllIn(order, rows)
        invariant outbox == old(outbox) + Announce(order, 0, |order|, rows, eventType)
        decreases left
      {
        var id :| id in left;
        ListsOneMore(order, ids - left, id);
        assert ids - left + {id} == ids - (left - {id});
        outbox := outbox + [Event(id, rows[id].request.agent, Note(eventType, 0))];
        assert Announce(order + [id], 0, |order| + 1, rows, eventType)
            == Announce(order, 0, |order|, rows, eventType) + [Event(id, rows[id].request.agent, Note(eventType, 0))];
        order := order + [id];
        left := left - {id};
      }
      assert ids - left == ids;
    }

    method ExpireUnstarted() returns (ghost order: seq<Id>)
      modifies this`rows, this`outbox
      ensures rows == AfterExpiration(now, old(rows)) && Lists(order, ExpiredIds(old(State()))) && AllIn(order, rows)
      ensures outbox == old(outbox) + Announce(order, 0, |order|, rows, CommandExpired)
    {
      var expired := set id | id in rows && IsExpired(now, rows[id]);
      rows := map id | id in rows :: if id in expired then Expiration(now, rows[id]) else rows[id];
      order := AppendEvents(expired, CommandExpired);
    }

    method FailLost() returns (ghost order: seq<Id>)
      modifies this`rows, this`outbox
      ensures rows == AfterLoss(config, now, old(rows))
      ensures Lists(order, LostIds(config, old(State()))) && AllIn(order, rows)
      ensures outbox == old(outbox) + Announce(order, 0, |order|, rows, CommandFailed)
    {
      var lost := set id | id in rows && IsLost(config, now, rows[id]);
      rows := map id | id in rows :: if id in lost then Loss(now, rows[id]) else rows[id];
      order := AppendEvents(lost, CommandFailed);
    }

    /** `expireStaleCommands`: two updates, each followed by one event per updated row. */
    method ExpireStaleCommands() returns (ghost order: seq<Id>)
      requires Valid()
      modifies this
      ensures Valid() && IsOrderOf(order, old(rows)) && history == old(history) + [Sweep(order)]
      ensures now == old(now) && rows.Keys == old(rows.Keys)
      ensures forall id :: id in rows ==> rows[id] == SweepRow(config, now, old(rows)[id]).row
      ensures outbox == old(outbox) + SweepEvents(config, old(State()), order, |order|)
    {
      ghost var before := State();
      ghost var first := ExpireUnstarted();
      ghost var once := State();
      ghost var second := FailLost();
      order := TwoUpdatesAreSweep(config, before, first, once, second, State());
      SweepIsStep(config, before, order, State());
      hide SweepRow, Announce, SweepEvents, Lists, IsOrderOf, After, AllIn, Next;
      hide AfterExpiration, AfterLoss, ExpiredIds, LostIds;
      Record(Sweep(order), before);
    }

    /** The commands that the revocation of an agent cancels: one update, one event of the agent. */
    method RevokeAgent(agent: Id)
      requires Valid()
      modifies this
      ensures Valid() && history == old(history) + [Revoke(agent)]
      ensures now == old(now) && rows.Keys == old(rows.Keys)
      ensures forall id :: id in rows ==> rows[id] == RevokeRow(now, old(rows)[id], agent).row
      ensures outbox == old(outbox) + [Event(agent, agent, Note(AgentRevoked, 0))]
    {
      ghost var before := State();
      rows := map id | id in rows ::
        if rows[id].request.agent == agent && Unstarted(rows[id].status) then
          rows[id].(status := Cancelled, completedAt := Some(now), errorCode := Some("AGENT_REVOKED"),
                    errorSummary := Some("Agente revogado antes da conclusão."))
        else rows[id];
      outbox := outbox + [Event(agent, agent, Note(AgentRevoked, 0))];
      assert rows == Next(config, before, Revoke(agent)).rows;
      Record(Revoke(agent), before);
    }

    /** The candidates of `dispatchPending`: the oldest fifty of the commands of the agent that are due. */
    method Candidates(agent: Id) returns (page: seq<Id>)
      ensures IsPage(now, rows, agent, page)
      ensures |page| <= 50
      ensures forall i :: 0 <= i < |page| ==> page[i] in rows && rows[page[i]].request.agent == agent
      ensures forall i, j :: 0 <= i < j < |page| ==>
        rows[page[i]].request.createdAt <= rows[page[j]].request.createdAt
      ensures forall id :: id in rows && id !in page && IsCandidate(now, rows[id], agent) ==>
        |page| == 50 && forall i :: 0 <= i < 50 ==> rows[page[i]].request.createdAt <= rows[id].request.createdAt
    {
      var left := set id | id in rows && IsCandidate(now, rows[id], agent);
      page := [];
      while left != {} && |page| < PAGE_SIZE
        invariant |page| <= PAGE_SIZE && Distinct(page)
        invariant forall id :: id in left ==> id in rows && id !in page && IsCandidate(now, rows[id], agent)
        invariant forall id :: id in rows && id !in page && IsCandidate(now, rows[id], agent) ==> id in left
        invariant forall i :: 0 <= i < |page| ==> page[i] in rows && IsCandidate(now, rows[page[i]], agent)
        invariant forall i, j :: 0 <= i < j < |page| ==> NotYounger(rows, page[i], page[j])
        invariant forall i, id :: 0 <= i < |page| && id in left ==> NotYounger(rows, page[i], id)
        decreases left
      {
        ghost var oldest := OldestExists(rows, left);
        var id :| id in left && forall other :: other in left ==> NotYounger(rows, id, other);
        page := page + [id];
        left := left - {id};
      }
    }

    /** One round of the dispatch loop: claim the command again, and send it or reject its type. */
    method DispatchOne(id: Id, sendable: bool) returns (attempt: Attempt)
      requires Valid() && id in rows
      modifies this
      ensures Valid() && old(history) <= history && OnlyDispatches(history[|old(history)|..], id)
      ensures now == old(now) && rows.Keys == old(rows.Keys)
      ensures forall other :: other in rows && other != id ==> rows[other] == old(rows)[other]
      ensures attempt == if !Claims(now, old(rows)[id]) then Skipped else if sendable then Delivered else Lost
      ensures rows[id] == Handled(now, old(rows)[id])
    {
      hide Dispatch, RejectUnsupported, Dispatchable, Next, AllWellFormed, After;
      ghost var row := rows[id];
      var claimed := ClaimDispatch(id);
      KnownTypesAreKept(now, row);
      if !claimed {
        return Skipped;
      }
      if MessageName(rows[id].request.commandType).None? {
        RejectType(id);
        return Skipped;
      }
      attempt := if sendable then Delivered else Lost;
    }

    /**
     The loop of `dispatchPending` over a page that may be out of date; `sendable` says which
     messages the socket takes. The first one that it does not take ends the loop, after the
     claim of that command has been committed.
     */
    method DispatchPage(page: seq<Id>, sendable: seq<bool>) returns (count: nat, ghost stop: nat)
      requires Valid() && Distinct(page) && |sendable| == |page| && AllIn(page, rows)
      modifies this
      ensures Valid() && old(history) <= history
      ensures now == old(now) && rows.Keys == old(rows.Keys)
      ensures stop <= |page| && count == |Sent(now, old(rows), page, stop)|
      ensures HandledUpTo(now, old(rows), rows, page, if stop < |page| then stop + 1 else stop)
      ensures forall i :: 0 <= i < stop && Claims(now, old(rows)[page[i]]) ==> sendable[i]
      ensures stop < |page| ==> !sendable[stop] && Claims(now, old(rows)[page[stop]])
    {
      hide Handled, Claims, AllWellFormed, After, HandledUpTo, Sent, Distinct, Next;
      count, stop := 0, 0;
      NothingHandled(now, rows, page);
      var next := 0;
      while next < |page|
        invariant Valid() && old(history) <= history && stop == next <= |page|
        invariant now == old(now) && rows.Keys == old(rows.Keys)
        invariant count == |Sent(now, old(rows), page, next)|
        invariant HandledUpTo(now, old(rows), rows, page, next)
        invariant forall i :: 0 <= i < next && Claims(now, old(rows)[page[i]]) ==> sendable[i]
      {
        ghost var before := rows;
        var attempt := DispatchOne(page[next], sendable[next]);
        HandledOneMore(now, old(rows), before, rows, page, next);
        SentOneMore(now, old(rows), page, next);
        if attempt.Lost? {
          return;
        }
        if attempt.Delivered? {
          count := count + 1;
        }
        next := next + 1;
        stop := next;
      }
    }

    /** `dispatchPending`; returns the number of messages sent. */
    method DispatchPending(agent: Id, connected: bool, sendable: seq<bool>)
      returns (count: nat, ghost page: seq<Id>, ghost stop: nat)
      requires Valid() && |sendable| == PAGE_SIZE
      modifies this
      ensures Valid() && old(history) <= history
      ensures now == old(now) && rows.Keys == old(rows.Keys)
      ensures !connected ==> count == 0 && State() == old(State())
      ensures connected ==>
        && IsPage(now, old(rows), agent, page) && stop <= |page| && AllIn(page, old(rows))
        && HandledUpTo(now, old(rows), rows, page, if stop < |page| then stop + 1 else stop)
        && count == |Sent(now, old(rows), page, stop)|
        && (forall i :: 0 <= i < stop && Claims(now, old(rows)[page[i]]) ==> sendable[i])
        && (stop < |page| ==> !sendable[stop] && Claims(now, old(rows)[page[stop]]))
    {
      hide Handled, Claims, AllWellFormed, After, HandledUpTo, Sent, Next, NotYounger, IsCandidate;
      count, page, stop := 0, [], 0;
      if connected {
        var candidates := Candidates(agent);
        page := candidates;
        count, stop := DispatchPage(candidates, sendable[..|candidates|]);
      }
    }
  }
}
