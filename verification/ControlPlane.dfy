/**
 The two halves of the control plane on one clock: every event that a command transaction
 appends to the outbox is an event of the webhook pipeline, next to the events of other services.
 */
module ControlPlane {
  import opened Prelude
  import C = Commands
  import CR = CommandRuns
  import CG = CommandGuarantees
  import W = Webhooks
  import WR = WebhookRuns
  import WG = WebhookGuarantees

  /** The settings of both services, and the organization of each agent. */
  datatype Config = Config(commands: C.Config, webhooks: W.Config, homes: map<C.Id, W.Id>)

  /** What the database and the caller add to an event: its identifier and its payload. */
  datatype Draft = Draft(id: W.Id, payload: string)

  datatype Step =
    | Clock(elapsed: nat)
    | Act(act: C.Step, drafts: seq<Draft>)   // a command transaction with its outbox rows
    | Pipe(pipe: W.Step)                      // endpoints, workers, retention, events of other services

  /** Both halves; `ids` are the identifiers of the events of the command outbox. */
  datatype Plane = Plane(store: C.Store, pipeline: W.State, ids: seq<W.Id>)

  const EMPTY: Plane := Plane(C.EMPTY, W.EMPTY, [])

  function TypeName(event: C.EventType): string {
    match event
    case CommandQueued => "command.queued"
    case CommandDispatched => "command.dispatched"
    case CommandRedispatched => "command.redispatched"
    case CommandAccepted => "command.accepted"
    case CommandRunning => "command.running"
    case CommandSucceeded => "command.succeeded"
    case CommandFailed => "command.failed"
    case CommandCancelled => "command.cancelled"
    case CommandExpired => "command.expired"
    case CommandRejected => "command.rejected"
    case AgentRevoked => "agent.revoked"
  }

  /** The names under which endpoints ask for events. */
  lemma {:induction false} TypeNamesAre(event: C.EventType)
    ensures var names := map[
      "command.queued" := C.CommandQueued, "command.dispatched" := C.CommandDispatched,
      "command.redispatched" := C.CommandRedispatched, "command.accepted" := C.CommandAccepted,
      "command.running" := C.CommandRunning, "command.succeeded" := C.CommandSucceeded,
      "command.failed" := C.CommandFailed, "command.cancelled" := C.CommandCancelled,
      "command.expired" := C.CommandExpired, "command.rejected" := C.CommandRejected,
      "agent.revoked" := C.AgentRevoked];
      TypeName(event) in names && names[TypeName(event)] == event
  {
  }

  /** An event belongs to the organization of its command, or of its agent. */
  function Home(config: Config, store: C.Store, event: C.Event): Option<W.Id> {
    if !event.note.eventType.AgentRevoked? && event.aggregate in store.rows then
      Some(store.rows[event.aggregate].request.key.organization)
    else if event.agent in config.homes then Some(config.homes[event.agent])
    else None
  }

  function Publication(config: Config, store: C.Store, event: C.Event, draft: Draft): W.Step {
    W.AppendEvent(draft.id, Home(config, store, event), TypeName(event.note.eventType), draft.payload)
  }

  function Publications(config: Config, store: C.Store, events: seq<C.Event>, drafts: seq<Draft>): seq<W.Step>
    requires |drafts| == |events|
  {
    seq(|events|, i requires 0 <= i < |events| => Publication(config, store, events[i], drafts[i]))
  }

  /** The pipeline after some steps. */
  function Play(config: W.Config, state: W.State, steps: seq<W.Step>): W.State {
    if steps == [] then state
    else W.Next(config, Play(config, state, steps[..|steps| - 1]), steps[|steps| - 1])
  }

  function IdsOf(drafts: seq<Draft>): seq<W.Id> {
    seq(|drafts|, i requires 0 <= i < |drafts| => drafts[i].id)
  }

  /** The identifiers are new. */
  predicate Fresh(used: set<W.Id>, drafts: seq<Draft>) {
    && (forall i :: 0 <= i < |drafts| ==> drafts[i].id !in used)
    && (forall i, j :: 0 <= i < j < |drafts| ==> drafts[i].id != drafts[j].id)
  }

  /** The events that a command step appends. */
  ghost function NewEvents(config: Config, store: C.Store, step: C.Step): seq<C.Event>
    requires C.WellFormed(step)
  {
    var after := C.Next(config.commands, store, step).outbox;
    if |store.outbox| <= |after| then after[|store.outbox|..] else []
  }

  ghost predicate WellFormed(step: Step) {
    match step
    case Clock(_) => true
    case Act(act, _) => C.WellFormed(act) && !act.Advance?
    case Pipe(pipe) => W.WellFormed(pipe) && !pipe.Tick?
  }

  ghost predicate Happens(config: Config, plane: Plane, step: Step)
    requires WellFormed(step)
  {
    step.Act? ==>
      && |step.drafts| == |NewEvents(config, plane.store, step.act)|
      && Fresh(plane.pipeline.usedEvents, step.drafts)
  }

  /** The steps that one step of the plane is for the pipeline. */
  ghost function PipelineSteps(config: Config, plane: Plane, step: Step): seq<W.Step>
    requires WellFormed(step) && Happens(config, plane, step)
  {
    match step
    case Clock(elapsed) => [W.Tick(elapsed)]
    case Act(act, drafts) =>
      Publications(config, C.Next(config.commands, plane.store, act), NewEvents(config, plane.store, act), drafts)
    case Pipe(pipe) => [pipe]
  }

  ghost function CommandSteps(step: Step): seq<C.Step> {
    match step
    case Clock(elapsed) => [C.Advance(elapsed)]
    case Act(act, _) => [act]
    case Pipe(_) => []
  }

  ghost function Next(config: Config, plane: Plane, step: Step): Plane
    requires WellFormed(step)
  {
    if !Happens(config, plane, step) then plane
    else
      var pipeline := Play(config.webhooks, plane.pipeline, PipelineSteps(config, plane, step));
      match step
      case Clock(elapsed) => Plane(C.Next(config.commands, plane.store, C.Advance(elapsed)), pipeline, plane.ids)
      case Act(act, drafts) => Plane(C.Next(config.commands, plane.store, act), pipeline, plane.ids + IdsOf(drafts))
      case Pipe(_) => Plane(plane.store, pipeline, plane.ids)
  }

  ghost predicate AllWellFormed(run: seq<Step>) {
    forall i :: 0 <= i < |run| ==> WellFormed(run[i])
  }

  ghost function After(config: Config, run: seq<Step>): Plane
    requires AllWellFormed(run)
  {
    if run == [] then EMPTY
    else Next(config, After(config, run[..|run| - 1]), run[|run| - 1])
  }

  // ----- A run of the plane is a run of each half -----

  lemma AfterStep(config: Config, run: seq<Step>)
    requires AllWellFormed(run) && run != []
    ensures AllWellFormed(run[..|run| - 1]) && WellFormed(run[|run| - 1])
    ensures After(config, run) == Next(config, After(config, run[..|run| - 1]), run[|run| - 1])
  {
  }

  lemma {:induction false} PlayContinues(config: W.Config, run: seq<W.Step>, steps: seq<W.Step>)
    ensures W.After(config, run + steps) == Play(config, W.After(config, run), steps)
    decreases |steps|
  {
    if steps == [] {
      assert run + steps == run;
    } else {
      PlayContinues(config, run, steps[..|steps| - 1]);
      WG.RunOneMore(config, run, steps);
    }
  }

  lemma PipelineStepsAreWellFormed(config: Config, plane: Plane, step: Step, run: seq<W.Step>)
    requires WellFormed(step) && Happens(config, plane, step) && W.AllWellFormed(run)
    ensures W.AllWellFormed(run + PipelineSteps(config, plane, step))
  {
  }

  lemma CommandStepsFollow(config: Config, plane: Plane, step: Step, run: seq<C.Step>)
    requires WellFormed(step) && Happens(config, plane, step)
    requires C.AllWellFormed(run) && plane.store == C.After(config.commands, run)
    ensures C.AllWellFormed(run + CommandSteps(step))
    ensures Next(config, plane, step).store == C.After(config.commands, run + CommandSteps(step))
  {
    hide C.Next, C.After, Play;
    match step
    case Clock(elapsed) => CG.AfterOneMore(config.commands, run, C.Advance(elapsed));
    case Act(act, _) => CG.AfterOneMore(config.commands, run, act);
    case Pipe(_) => assert run + [] == run;
  }

  /** So every statement about runs of one half holds of the plane. */
  lemma {:induction false} PlaneRunsBoth(config: Config, run: seq<Step>)
    returns (commands: seq<C.Step>, pipes: seq<W.Step>)
    requires AllWellFormed(run)
    ensures C.AllWellFormed(commands) && After(config, run).store == C.After(config.commands, commands)
    ensures W.AllWellFormed(pipes) && After(config, run).pipeline == W.After(config.webhooks, pipes)
    decreases |run|
  {
    if run == [] {
      commands, pipes := [], [];
    } else {
      AfterStep(config, run);
      var before, step := run[..|run| - 1], run[|run| - 1];
      var plane := After(config, before);
      commands, pipes := PlaneRunsBoth(config, before);
      hide After, C.After, W.After, C.Next, Play, C.AllWellFormed, W.AllWellFormed;
      if Happens(config, plane, step) {
        CommandStepsFollow(config, plane, step, commands);
        PipelineStepsAreWellFormed(config, plane, step, pipes);
        PlayContinues(config.webhooks, pipes, PipelineSteps(config, plane, step));
        commands, pipes := commands + CommandSteps(step), pipes + PipelineSteps(config, plane, step);
      }
    }
  }

  /** A step of the pipeline alone is that step, and leaves the commands as they are. */
  lemma PipelineOnItsOwn(config: Config, plane: Plane, pipe: W.Step)
    requires WellFormed(Pipe(pipe))
    ensures var after := Next(config, plane, Pipe(pipe));
      after == Plane(plane.store, W.Next(config.webhooks, plane.pipeline, pipe), plane.ids)
  {
    assert [pipe][..0] == [];
    assert Play(config.webhooks, plane.pipeline, []) == plane.pipeline;
    hide W.Next;
  }

  lemma PipelineClock(config: W.Config, state: W.State, step: W.Step)
    ensures W.Next(config, state, step).now == if step.Tick? then state.now + step.elapsed else state.now
  {
  }

  lemma CommandClock(config: C.Config, store: C.Store, step: C.Step)
    requires C.WellFormed(step)
    ensures C.Next(config, store, step).now == if step.Advance? then store.now + step.elapsed else store.now
  {
    hide C.Dispatch, C.Transit, C.RejectUnsupported, C.SweepRow, C.RevokeRow, C.NewCommand;
  }

  lemma {:induction false} PlayWithoutTicks(config: W.Config, state: W.State, steps: seq<W.Step>)
    requires forall i :: 0 <= i < |steps| ==> !steps[i].Tick?
    ensures Play(config, state, steps).now == state.now
    decreases |steps|
  {
    if steps != [] {
      var n := |steps| - 1;
      PlayWithoutTicks(config, state, steps[..n]);
      PipelineClock(config, Play(config, state, steps[..n]), steps[n]);
      hide W.Next;
    }
  }

  lemma StepKeepsOneClock(config: Config, plane: Plane, step: Step)
    requires WellFormed(step) && plane.store.now == plane.pipeline.now
    ensures var after := Next(config, plane, step);
      after.store.now == after.pipeline.now == if step.Clock? then plane.store.now + step.elapsed else plane.store.now
  {
    hide W.Next, C.Next, NewEvents;
    match step
    case Clock(elapsed) =>
      CommandClock(config.commands, plane.store, C.Advance(elapsed));
      PipelineClock(config.webhooks, plane.pipeline, W.Tick(elapsed));
      assert [W.Tick(elapsed)][..0] == [];
      assert Play(config.webhooks, plane.pipeline, []) == plane.pipeline;
    case Act(act, _) =>
      CommandClock(config.commands, plane.store, act);
      if Happens(config, plane, step) {
        PlayWithoutTicks(config.webhooks, plane.pipeline, PipelineSteps(config, plane, step));
      }
    case Pipe(pipe) =>
      PipelineClock(config.webhooks, plane.pipeline, pipe);
      PipelineOnItsOwn(config, plane, pipe);
  }

  /** In every run both halves tell the same time. */
  lemma {:induction false} OneClock(config: Config, run: seq<Step>)
    requires AllWellFormed(run)
    ensures After(config, run).store.now == After(config, run).pipeline.now
    decreases |run|
  {
    if run != [] {
      AfterStep(config, run);
      OneClock(config, run[..|run| - 1]);
      StepKeepsOneClock(config, After(config, run[..|run| - 1]), run[|run| - 1]);
      hide After, Next;
    }
  }

  // ----- The outbox of the commands is the outbox of the pipeline -----

  lemma {:induction false} PlayKeeps(config: W.Config, state: W.State, steps: seq<W.Step>, id: W.Id)
    requires id in state.usedEvents
    ensures var after := Play(config, state, steps);
      id in after.usedEvents && (id in after.events ==> id in state.events && after.events[id] == state.events[id])
    decreases |steps|
  {
    if steps != [] {
      var before := Play(config, state, steps[..|steps| - 1]);
      PlayKeeps(config, state, steps[..|steps| - 1], id);
      WR.EventStep(config, before, steps[|steps| - 1], id);
      hide W.Next;
    }
  }

  /** A publication with a new identifier puts the event there. */
  lemma PublicationArrives(config: Config, state: W.State, store: C.Store, event: C.Event, draft: Draft)
    requires draft.id !in state.usedEvents
    ensures var after := W.Next(config.webhooks, state, Publication(config, store, event, draft));
      && after.usedEvents == state.usedEvents + {draft.id} && draft.id in after.events
      && after.events[draft.id].organization == Home(config, store, event)
      && after.events[draft.id].eventType == TypeName(event.note.eventType)
      && after.events[draft.id].payload == draft.payload
      && forall id :: id in state.events ==>
           id in after.events && (id != draft.id ==> after.events[id] == state.events[id])
  {
  }

  /** What an event of the pipeline says, if it is the given event of the command outbox. */
  predicate Says(config: Config, store: C.Store, event: C.Event, published: W.Event) {
    published.organization == Home(config, store, event) && published.eventType == TypeName(event.note.eventType)
  }

  predicate Arrived(config: Config, state: W.State, store: C.Store, event: C.Event, id: W.Id) {
    id in state.usedEvents && id in state.events && Says(config, store, event, state.events[id])
  }

  predicate ArrivedUpTo(
    config: Config, state: W.State, store: C.Store, events: seq<C.Event>, drafts: seq<Draft>, n: nat)
    requires n <= |events| == |drafts|
  {
    && (forall i :: 0 <= i < n ==> Arrived(config, state, store, events[i], drafts[i].id))
    && (forall i :: n <= i < |drafts| ==> drafts[i].id !in state.usedEvents)
  }

  lemma OneMoreArrives(
      config: Config, state: W.State, store: C.Store, events: seq<C.Event>, drafts: seq<Draft>, n: nat)
    requires n < |events| == |drafts| && ArrivedUpTo(config, state, store, events, drafts, n)
    requires forall i, j :: 0 <= i < j < |drafts| ==> drafts[i].id != drafts[j].id
    ensures var after := W.Next(config.webhooks, state, Publication(config, store, events[n], drafts[n]));
      ArrivedUpTo(config, after, store, events, drafts, n + 1)
  {
    PublicationArrives(config, state, store, events[n], drafts[n]);
    hide W.Next, Home, TypeName, Publication;
  }

  lemma PlayOneMore(config: W.Config, state: W.State, steps: seq<W.Step>, n: nat)
    requires 0 < n <= |steps|
    ensures Play(config, state, steps[..n]) == W.Next(config, Play(config, state, steps[..n - 1]), steps[n - 1])
  {
    assert steps[..n][..n - 1] == steps[..n - 1] && steps[..n][n - 1] == steps[n - 1];
    hide W.Next;
  }

  lemma {:induction false} PublicationsArrive(
      config: Config, state: W.State, store: C.Store, events: seq<C.Event>, drafts: seq<Draft>, n: nat)
    requires n <= |events| == |drafts| && Fresh(state.usedEvents, drafts)
    ensures ArrivedUpTo(
      config, Play(config.webhooks, state, Publications(config, store, events, drafts)[..n]), store, events, drafts, n)
    decreases n
  {
    hide W.Next, Home, TypeName, Arrived, Publication;
    var steps := Publications(config, store, events, drafts);
    if n == 0 {
      assert Play(config.webhooks, state, steps[..0]) == state;
    } else {
      hide Play, ArrivedUpTo;
      PlayOneMore(config.webhooks, state, steps, n);
      PublicationsArrive(config, state, store, events, drafts, n - 1);
      OneMoreArrives(config, Play(config.webhooks, state, steps[..n - 1]), store, events, drafts, n - 1);
    }
  }

  lemma OutboxGrows(config: C.Config, store: C.Store, step: C.Step)
    requires C.WellFormed(step)
    ensures store.outbox <= C.Next(config, store, step).outbox
  {
    hide C.Dispatch, C.RejectUnsupported, C.Transit, C.SweepRow, C.RevokeRow, C.Outcome, C.SweepEvents, C.NewCommand;
  }

  /** Position `k` of the command outbox is the event `ids[k]` of the pipeline. */
  predicate Published(config: Config, plane: Plane, k: nat) {
    && k < |plane.store.outbox| == |plane.ids|
    && plane.ids[k] in plane.pipeline.usedEvents
    && (plane.ids[k] in plane.pipeline.events ==>
          Says(config, plane.store, plane.store.outbox[k], plane.pipeline.events[plane.ids[k]]))
  }

  lemma {:induction false} NotesHold(outbox: seq<C.Event>, k: nat, id: C.Id) returns (a: nat)
    requires k < |outbox| && C.ForCommand(outbox[k], id)
    ensures a < |C.EventsOf(outbox, id)| && C.EventsOf(outbox, id)[a] == outbox[k].note
    ensures a == |C.EventsOf(outbox[..k], id)|
    decreases |outbox|
  {
    if k == |outbox| - 1 {
      a := |C.EventsOf(outbox[..k], id)|;
    } else {
      assert outbox[..|outbox| - 1][..k] == outbox[..k];
      a := NotesHold(outbox[..|outbox| - 1], k, id);
    }
  }

  /** An event of a command has its row, and keeps its organization. */
  lemma HomeStays(config: Config, commands: seq<C.Step>, step: C.Step, event: C.Event)
    requires C.AllWellFormed(commands) && C.WellFormed(step) && event in C.After(config.commands, commands).outbox
    ensures var before := C.After(config.commands, commands);
      Home(config, C.Next(config.commands, before, step), event) == Home(config, before, event)
  {
    var store, id := C.After(config.commands, commands), event.aggregate;
    if !event.note.eventType.AgentRevoked? {
      if id in store.rows {
        CG.EveryCommandIsSound(config.commands, commands, id);
        CG.KeysAreKept(config.commands, store, step, id);
      } else {
        CG.NoEventsBeforeCreation(config.commands, commands, id);
        var k :| 0 <= k < |store.outbox| && store.outbox[k] == event;
        var a := NotesHold(store.outbox, k, id);
      }
    }
    hide C.Next, C.After;
  }

  lemma {:induction false} IdsMatchOutbox(config: Config, run: seq<Step>)
    requires AllWellFormed(run)
    ensures |After(config, run).ids| == |After(config, run).store.outbox|
    decreases |run|
  {
    if run != [] {
      AfterStep(config, run);
      var before, step := run[..|run| - 1], run[|run| - 1];
      var plane := After(config, before);
      IdsMatchOutbox(config, before);
      hide After, Play;
      if step.Act? {
        OutboxGrows(config.commands, plane.store, step.act);
      }
      hide C.Create, C.Dispatch, C.RejectUnsupported, C.Transit, C.SweepRow, C.RevokeRow, C.SweepEvents;
    }
  }

  /** What a step of the plane does to the command outbox. */
  lemma OutboxStep(config: Config, plane: Plane, step: Step)
    requires WellFormed(step) && |plane.ids| == |plane.store.outbox|
    ensures var next := Next(config, plane, step);
      && plane.store.outbox <= next.store.outbox && plane.ids <= next.ids
      && (!step.Act? || !Happens(config, plane, step) ==>
            next.store.outbox == plane.store.outbox && next.ids == plane.ids)
      && (step.Act? && Happens(config, plane, step) ==>
            && next.store == C.Next(config.commands, plane.store, step.act)
            && next.store.outbox == plane.store.outbox + NewEvents(config, plane.store, step.act)
            && next.ids == plane.ids + IdsOf(step.drafts))
  {
    if step.Act? {
      OutboxGrows(config.commands, plane.store, step.act);
    }
    hide C.Create, C.Dispatch, C.RejectUnsupported, C.Transit, C.SweepRow, C.RevokeRow, C.SweepEvents, Play;
  }

  lemma PipelineStep(config: Config, plane: Plane, step: Step)
    requires WellFormed(step)
    ensures var next := Next(config, plane, step).pipeline;
      next == if Happens(config, plane, step) then
          Play(config.webhooks, plane.pipeline, PipelineSteps(config, plane, step))
        else plane.pipeline
  {
    hide C.Next, Play, PipelineSteps;
  }

  lemma HomesStay(config: Config, run: seq<Step>, step: Step, event: C.Event)
    requires AllWellFormed(run) && WellFormed(step) && event in After(config, run).store.outbox
    ensures Home(config, Next(config, After(config, run), step).store, event)
         == Home(config, After(config, run).store, event)
  {
    var commands, pipes := PlaneRunsBoth(config, run);
    hide After, C.After, W.After, C.Next, Home, Play;
    match step
    case Clock(elapsed) => HomeStays(config, commands, C.Advance(elapsed), event);
    case Act(act, _) => HomeStays(config, commands, act, event);
    case Pipe(_) =>
  }

  lemma OldStaysPublished(config: Config, run: seq<Step>, step: Step, k: nat)
    requires AllWellFormed(run) && WellFormed(step) && Published(config, After(config, run), k)
    ensures Published(config, Next(config, After(config, run), step), k)
  {
    var plane, next := After(config, run), Next(config, After(config, run), step);
    IdsMatchOutbox(config, run);
    OutboxStep(config, plane, step);
    PipelineStep(config, plane, step);
    HomesStay(config, run, step, plane.store.outbox[k]);
    if Happens(config, plane, step) {
      PlayKeeps(config.webhooks, plane.pipeline, PipelineSteps(config, plane, step), plane.ids[k]);
    }
    hide After, Next, Home, TypeName, Play, PipelineSteps, C.Next, Happens, NewEvents;
  }

  lemma ArrivedIsPublished(
      config: Config, plane: Plane, before: Plane, events: seq<C.Event>, drafts: seq<Draft>, k: nat)
    requires |before.ids| == |before.store.outbox| <= k < |plane.store.outbox| && |events| == |drafts|
    requires plane.store.outbox == before.store.outbox + events && plane.ids == before.ids + IdsOf(drafts)
    requires var i := k - |before.ids|; Arrived(config, plane.pipeline, plane.store, events[i], drafts[i].id)
    ensures Published(config, plane, k)
  {
    hide Says;
  }

  lemma NewIsPublished(config: Config, plane: Plane, step: Step, k: nat)
    requires WellFormed(step) && step.Act? && Happens(config, plane, step) && |plane.ids| == |plane.store.outbox| <= k
    requires k < |Next(config, plane, step).store.outbox|
    ensures Published(config, Next(config, plane, step), k)
  {
    var store, events := C.Next(config.commands, plane.store, step.act), NewEvents(config, plane.store, step.act);
    var steps := Publications(config, store, events, step.drafts);
    OutboxStep(config, plane, step);
    PipelineStep(config, plane, step);
    PublicationsArrive(config, plane.pipeline, store, events, step.drafts, |events|);
    assert steps[..|events|] == steps;
    hide C.Next, NewEvents, Play, Next, Fresh, Arrived, Published;
    ArrivedIsPublished(config, Next(config, plane, step), plane, events, step.drafts, k);
  }

  /** Each event of the command outbox has its identifier, and while it is in the table, its type and organization. */
  lemma {:induction false} EventsArePublished(config: Config, run: seq<Step>, k: nat)
    requires AllWellFormed(run) && k < |After(config, run).store.outbox|
    ensures Published(config, After(config, run), k)
    decreases |run|
  {
    AfterStep(config, run);
    var before, step := run[..|run| - 1], run[|run| - 1];
    var plane := After(config, before);
    IdsMatchOutbox(config, before);
    OutboxStep(config, plane, step);
    hide After, Next, Happens, Published;
    if k < |plane.store.outbox| {
      EventsArePublished(config, before, k);
      OldStaysPublished(config, before, step, k);
    } else {
      NewIsPublished(config, plane, step, k);
    }
  }

  // ----- Published events leave only by retention -----

  lemma {:induction false} PlayKeepsUnlessRemoved(config: W.Config, state: W.State, steps: seq<W.Step>, id: W.Id)
    requires id in state.usedEvents && id in state.events && W.Remove(id) !in steps
    ensures id in Play(config, state, steps).events
    decreases |steps|
  {
    if steps != [] {
      var less := steps[..|steps| - 1];
      PlayKeepsUnlessRemoved(config, state, less, id);
      PlayKeeps(config, state, less, id);
      WR.EventStep(config, Play(config, state, less), steps[|steps| - 1], id);
      hide W.Next;
    }
  }

  lemma OnlyRetentionRemoves(config: Config, plane: Plane, step: Step, id: W.Id)
    requires WellFormed(step) && id in plane.pipeline.usedEvents && id in plane.pipeline.events
    requires id !in Next(config, plane, step).pipeline.events
    ensures step == Pipe(W.Remove(id)) && W.Removable(config.webhooks, plane.pipeline, id)
  {
    PipelineStep(config, plane, step);
    if Happens(config, plane, step) {
      var steps := PipelineSteps(config, plane, step);
      if W.Remove(id) !in steps {
        PlayKeepsUnlessRemoved(config.webhooks, plane.pipeline, steps, id);
      } else {
        RemovesAlone(config, plane, step, id);
        assert steps == [W.Remove(id)] && steps[..0] == [];
        WR.EventStep(config.webhooks, plane.pipeline, W.Remove(id), id);
      }
    }
    hide Next, W.Next, W.Removable, C.Next, Happens, PipelineSteps;
  }

  lemma RemovesAlone(config: Config, plane: Plane, step: Step, id: W.Id)
    requires WellFormed(step) && Happens(config, plane, step) && W.Remove(id) in PipelineSteps(config, plane, step)
    ensures step == Pipe(W.Remove(id)) && PipelineSteps(config, plane, step) == [W.Remove(id)]
  {
  }

  /** Step `i` of the run is a removal of the event, old enough, marked and with every delivery resolved. */
  ghost predicate RemovedAt(config: Config, run: seq<Step>, i: nat, id: W.Id)
    requires AllWellFormed(run) && i < |run|
  {
    assert AllWellFormed(run[..i]);
    run[i] == Pipe(W.Remove(id)) && W.Removable(config.webhooks, After(config, run[..i]).pipeline, id)
  }

  ghost predicate WasRemoved(config: Config, run: seq<Step>, id: W.Id)
    requires AllWellFormed(run)
  {
    exists i :: 0 <= i < |run| && RemovedAt(config, run, i, id)
  }

  lemma RemovedStays(config: Config, run: seq<Step>, id: W.Id)
    requires AllWellFormed(run) && run != [] && AllWellFormed(run[..|run| - 1])
    requires WasRemoved(config, run[..|run| - 1], id) || RemovedAt(config, run, |run| - 1, id)
    ensures WasRemoved(config, run, id)
  {
    var before := run[..|run| - 1];
    hide After, W.Removable;
    if !RemovedAt(config, run, |run| - 1, id) {
      var i :| 0 <= i < |before| && RemovedAt(config, before, i, id);
      assert before[..i] == run[..i];
      assert RemovedAt(config, run, i, id);
    }
  }

  /** The event is in the table, or retention removed it after it was marked and its deliveries resolved. */
  ghost predicate PresentOrRemoved(config: Config, run: seq<Step>, id: W.Id)
    requires AllWellFormed(run)
  {
    id in After(config, run).pipeline.events || WasRemoved(config, run, id)
  }

  lemma PresentOrRemovedStep(config: Config, run: seq<Step>, id: W.Id)
    requires AllWellFormed(run) && run != [] && AllWellFormed(run[..|run| - 1])
    requires PresentOrRemoved(config, run[..|run| - 1], id)
    requires id in After(config, run[..|run| - 1]).pipeline.usedEvents
    ensures PresentOrRemoved(config, run, id)
  {
    AfterStep(config, run);
    var before, step := run[..|run| - 1], run[|run| - 1];
    hide Next, W.Removable;
    if id in After(config, before).pipeline.events && id !in After(config, run).pipeline.events {
      OnlyRetentionRemoves(config, After(config, before), step, id);
      assert RemovedAt(config, run, |run| - 1, id);
    }
    hide After;
    if WasRemoved(config, before, id) || RemovedAt(config, run, |run| - 1, id) {
      RemovedStays(config, run, id);
    }
  }

  lemma NewIsPresent(config: Config, plane: Plane, step: Step, k: nat)
    requires WellFormed(step) && step.Act? && Happens(config, plane, step) && |plane.ids| == |plane.store.outbox| <= k
    requires k < |Next(config, plane, step).ids|
    ensures Next(config, plane, step).ids[k] in Next(config, plane, step).pipeline.events
  {
    var store, events := C.Next(config.commands, plane.store, step.act), NewEvents(config, plane.store, step.act);
    var steps := Publications(config, store, events, step.drafts);
    OutboxStep(config, plane, step);
    PipelineStep(config, plane, step);
    PublicationsArrive(config, plane.pipeline, store, events, step.drafts, |events|);
    assert steps[..|events|] == steps;
    hide C.Next, NewEvents, Play, Next, Fresh, Says;
    var i := k - |plane.ids|;
    assert Arrived(config, Next(config, plane, step).pipeline, store, events[i], step.drafts[i].id);
  }

  /**
   In every run of the plane, each event of the command outbox is in the event table with its
   type and the organization of its command, or retention has removed it, and then only after it
   was marked and all its deliveries were resolved.
   */
  lemma {:induction false} OutboxIsPublished(config: Config, run: seq<Step>, k: nat)
    requires AllWellFormed(run) && k < |After(config, run).store.outbox|
    ensures Published(config, After(config, run), k)
    ensures PresentOrRemoved(config, run, After(config, run).ids[k])
    decreases |run|
  {
    AfterStep(config, run);
    EventsArePublished(config, run, k);
    var before, step := run[..|run| - 1], run[|run| - 1];
    var plane := After(config, before);
    IdsMatchOutbox(config, before);
    OutboxStep(config, plane, step);
    if k < |plane.store.outbox| {
      OutboxIsPublished(config, before, k);
      PresentOrRemovedStep(config, run, plane.ids[k]);
    } else {
      NewIsPresent(config, plane, step, k);
    }
    hide After, Next, Happens, WasRemoved;
  }

  // ----- What the endpoints learn about a command -----

  lemma FreshIdsDiffer(ids: seq<W.Id>, used: set<W.Id>, drafts: seq<Draft>, k: nat, l: nat)
    requires Fresh(used, drafts) && k < l < |ids| + |drafts| && |ids| <= l
    requires k < |ids| ==> ids[k] in used
    ensures (ids + IdsOf(drafts))[k] != (ids + IdsOf(drafts))[l]
  {
  }

  lemma NewIdIsNew(config: Config, plane: Plane, step: Step, k: nat, l: nat)
    requires WellFormed(step) && Happens(config, plane, step) && step.Act? && |plane.ids| == |plane.store.outbox|
    requires |plane.ids| <= l < |Next(config, plane, step).ids| && k < l
    requires k < |plane.ids| ==> plane.ids[k] in plane.pipeline.usedEvents
    ensures Next(config, plane, step).ids[k] != Next(config, plane, step).ids[l]
  {
    OutboxStep(config, plane, step);
    DraftsAreFresh(config, plane, step);
    hide Next, NewEvents, Happens, Fresh;
    FreshIdsDiffer(plane.ids, plane.pipeline.usedEvents, step.drafts, k, l);
  }

  lemma DraftsAreFresh(config: Config, plane: Plane, step: Step)
    requires WellFormed(step) && Happens(config, plane, step) && step.Act?
    ensures Fresh(plane.pipeline.usedEvents, step.drafts)
  {
  }

  /** Different events of the command outbox are different events of the pipeline. */
  lemma {:induction false} IdsAreDistinct(config: Config, run: seq<Step>, k: nat, l: nat)
    requires AllWellFormed(run) && k < l < |After(config, run).ids|
    ensures After(config, run).ids[k] != After(config, run).ids[l]
    decreases |run|
  {
    AfterStep(config, run);
    var before, step := run[..|run| - 1], run[|run| - 1];
    var plane := After(config, before);
    IdsMatchOutbox(config, before);
    OutboxStep(config, plane, step);
    hide After, Next, Happens;
    if l < |plane.ids| {
      IdsAreDistinct(config, before, k, l);
    } else {
      if k < |plane.ids| { EventsArePublished(config, before, k); }
      NewIdIsNew(config, plane, step, k, l);
    }
  }

  /**
   Over every run of the plane, no two events of commands share an identifier, each is
   materialized at most once, and each endpoint is tried for it at most as often as the limit
   allows.
   */
  lemma {:induction false} EachEventIsDeliveredOnce(config: Config, run: seq<Step>, k: nat, l: nat, endpoint: W.Id)
    requires AllWellFormed(run) && k < |After(config, run).ids| && l < |After(config, run).ids|
    ensures var plane := After(config, run);
      && (plane.ids[k] == plane.ids[l] <==> k == l)
      && WG.Materializations(plane.pipeline.log, plane.ids[k]) <= 1
      && WG.Claims(plane.pipeline.log, W.Key(endpoint, plane.ids[k])) <= WR.MaxAttempts(config.webhooks)
  {
    var commands, pipes := PlaneRunsBoth(config, run);
    hide After, W.After, C.After;
    var id := After(config, run).ids[k];
    if k < l { IdsAreDistinct(config, run, k, l); }
    if l < k { IdsAreDistinct(config, run, l, k); }
    WG.EventsMaterializeOnce(config.webhooks, pipes, id);
    WG.ClaimsAreBounded(config.webhooks, pipes, W.Key(endpoint, id));
  }

  /** The endpoints that an event of a command is for. */
  predicate IsFor(endpoint: W.Endpoint, organization: W.Id, eventType: string) {
    && endpoint.enabled && endpoint.organization == organization
    && (endpoint.eventTypes == [] || eventType in endpoint.eventTypes)
  }

  /**
   When the event of a command is materialized, exactly the enabled endpoints of the command's
   own organization that want its type get a delivery, each one of it.
   */
  lemma {:induction false} EventsReachTheirOrganization(
      config: Config, run: seq<Step>, k: nat, id: C.Id, endpoint: W.Id)
    requires AllWellFormed(run) && k < |After(config, run).ids| == |After(config, run).store.outbox|
    requires C.ForCommand(After(config, run).store.outbox[k], id) && id in After(config, run).store.rows
    requires W.Unmarked(After(config, run).pipeline, After(config, run).ids[k])
    ensures var plane, key := After(config, run), W.Key(endpoint, After(config, run).ids[k]);
      var after := W.Next(config.webhooks, plane.pipeline, W.Materialize(plane.ids[k]));
      var eventType := TypeName(plane.store.outbox[k].note.eventType);
      && key !in plane.pipeline.deliveries
      && (key in after.deliveries <==>
            && endpoint in plane.pipeline.endpoints
            && IsFor(plane.pipeline.endpoints[endpoint], plane.store.rows[id].request.key.organization, eventType))
      && (key in after.deliveries ==>
            after.deliveries[key].eventType == eventType && after.deliveries[key].status.Pending?)
  {
    var commands, pipes := PlaneRunsBoth(config, run);
    EventsArePublished(config, run, k);
    hide After, W.After, C.After, TypeName, W.Next;
    var plane := After(config, run);
    WG.MaterializesExactlyTheMatches(config.webhooks, pipes, plane.ids[k], W.Key(endpoint, plane.ids[k]));
    WG.AfterOneMore(config.webhooks, pipes, W.Materialize(plane.ids[k]));
  }

  /** The event at position `k` of the outbox announces the end of the command. */
  predicate IsEnd(store: C.Store, k: nat, id: C.Id)
    requires k < |store.outbox|
  {
    C.ForCommand(store.outbox[k], id) && CG.Ends(store.outbox[k].note)
  }

  lemma EndsAreLast(config: Config, run: seq<Step>, id: C.Id, k: nat)
    requires AllWellFormed(run) && id in After(config, run).store.rows
    requires k < |After(config, run).store.outbox| && IsEnd(After(config, run).store, k, id)
    ensures var store := After(config, run).store;
      && C.Terminal(store.rows[id].status)
      && store.outbox[k].note.eventType == CR.EndEvent(store.rows[id].status)
      && |C.EventsOf(store.outbox[..k], id)| == |C.EventsOf(store.outbox, id)| - 1
  {
    var commands, pipes := PlaneRunsBoth(config, run);
    var a := NotesHold(After(config, run).store.outbox, k, id);
    hide After, W.After, C.After, C.EventsOf;
    CG.AtMostOneEnd(config.commands, commands, id, a);
  }

  lemma {:induction false} NotesOfPrefix(outbox: seq<C.Event>, k: nat, l: nat, id: C.Id)
    requires k < l <= |outbox| && C.ForCommand(outbox[k], id)
    ensures |C.EventsOf(outbox[..k], id)| < |C.EventsOf(outbox[..l], id)|
    decreases l
  {
    assert outbox[..l][..l - 1] == outbox[..l - 1] && outbox[..l][l - 1] == outbox[l - 1];
    if k < l - 1 {
      NotesOfPrefix(outbox, k, l - 1, id);
    }
  }

  /**
   What any endpoint is ever told about the end of a command is the final status of the row: the
   outbox has one such event at most, and each delivery of it carries the type of that status.
   */
  lemma {:induction false} EndpointsLearnTheTrueEnd(
      config: Config, run: seq<Step>, id: C.Id, k: nat, l: nat, endpoint: W.Id)
    requires AllWellFormed(run) && id in After(config, run).store.rows
    requires k < |After(config, run).store.outbox| == |After(config, run).ids| && IsEnd(After(config, run).store, k, id)
    requires l < |After(config, run).store.outbox| && IsEnd(After(config, run).store, l, id)
    ensures k == l
    ensures var plane, key := After(config, run), W.Key(endpoint, After(config, run).ids[k]);
      && C.Terminal(plane.store.rows[id].status)
      && (key in plane.pipeline.deliveries ==>
            plane.pipeline.deliveries[key].eventType == TypeName(CR.EndEvent(plane.store.rows[id].status)))
  {
    EndsAreLast(config, run, id, k);
    EndsAreLast(config, run, id, l);
    hide After, C.EventsOf, TypeName, CG.Ends;
    var plane := After(config, run);
    if k < l {
      NotesOfPrefix(plane.store.outbox, k, l, id);
    } else if l < k {
      NotesOfPrefix(plane.store.outbox, l, k, id);
    }
    DeliveredType(config, run, k, endpoint);
  }

  lemma DeliveredType(config: Config, run: seq<Step>, k: nat, endpoint: W.Id)
    requires AllWellFormed(run) && k < |After(config, run).store.outbox| == |After(config, run).ids|
    ensures var plane, key := After(config, run), W.Key(endpoint, After(config, run).ids[k]);
      key in plane.pipeline.deliveries ==>
        plane.pipeline.deliveries[key].eventType == TypeName(plane.store.outbox[k].note.eventType)
  {
    var commands, pipes := PlaneRunsBoth(config, run);
    EventsArePublished(config, run, k);
    hide After, W.After, C.After, TypeName;
    var plane, key := After(config, run), W.Key(endpoint, After(config, run).ids[k]);
    if key in plane.pipeline.deliveries {
      WR.DeliveriesAreLinked(config.webhooks, pipes, key);
    }
  }
}
