/**
  A self-host ceremony of n nodes over one shared store: key generation or signing.
  Node 0 is the primary, node i > 0 is worker i-1.  Engine callbacks, process steps, worker steps and the primary's
  steps interleave without restriction; a run is any sequence of events, disabled events change nothing.
 */
module SelfHost {
  import opened Basics
  import opened Curve
  import opened Records
  import opened Fsm
  import opened BadgerStore
  import opened StoreInterface
  import opened StoreHistory
  import opened Keys
  import opened Session
  import W = Workers

  datatype Ceremony = Ceremony(suite: Suite, secret: Secret, calls: Calls, job: Job, n: nat)

  /** Self-host mode generates keys and signs, over the encrypted store; it has no reshare. */
  ghost predicate Wf(e: Ceremony)
  {
    e.n >= 1 && e.job.selfHost && !e.job.kind.Reshare? && e.calls == Badger(e.suite, e.secret)
  }

  datatype State = State(control: W.Control, nodes: seq<Node>, keys: seq<Option<EngineKey>>, db: Db)

  datatype Event =
    | WorkerBuilds(w: nat, engineOk: bool)
    | PrimaryBuilds(engineOk: bool)
    | Ctl(step: W.Step)        // any control step that builds nothing
    | NodeActs(i: nat, act: Action)

  function Init(e: Ceremony, db: Db): State
    requires e.n >= 1
  {
    State(W.Init(e.n), seq(e.n, _ => ABSENT), seq(e.n, _ => None), db)
  }

  /** The share a signing session is built with: read from the store and converted for the engine. */
  function LoadKey(e: Ceremony, i: nat, db: Db): Result<EngineKey>
  {
    Load(e.calls, db, ShareKey(e.job, i), e.job.pubkey)
  }

  /** Whether building the session of node `i` succeeds; the engine itself may refuse. */
  function Builds(e: Ceremony, i: nat, db: Db, engineOk: bool): bool
  {
    engineOk && (e.job.kind.Sign? ==> LoadKey(e, i, db).Ok?)
  }

  predicate Shape(e: Ceremony, s: State)
  {
    |s.nodes| == |s.keys| == e.n >= 1 && |s.control.workers| == e.n - 1
  }

  /** NewDkgService or NewSignerService on node `i`. */
  function Build(e: Ceremony, s: State, i: nat, engineOk: bool): (s': State)
    requires Shape(e, s) && i < e.n
    ensures Shape(e, s')
  {
    if !Builds(e, i, s.db, engineOk) then s
    else
      var s' := s.(nodes := s.nodes[i := BUILT]);
      if e.job.kind.Sign? then s'.(keys := s.keys[i := Some(LoadKey(e, i, s.db).value)]) else s'
  }

  function Next(e: Ceremony, s: State, ev: Event): (s': State)
    requires Shape(e, s)
    ensures Shape(e, s')
  {
    match ev
    case WorkerBuilds(w, engineOk) =>
      if w < e.n - 1 && s.control.workers[w] == W.Spawned then
        Build(e, s, w + 1, engineOk).(control := W.Next(s.control, W.WorkerBuilds(w, Builds(e, w + 1, s.db, engineOk))))
      else s
    case PrimaryBuilds(engineOk) =>
      if s.control.primary == W.Fresh then
        Build(e, s, 0, engineOk).(control := W.Next(s.control, W.PrimaryBuilds(Builds(e, 0, s.db, engineOk))))
      else s
    case Ctl(step) =>
      if step.WorkerBuilds? || step.PrimaryBuilds? then s
      else if step.PrimaryStarts? then
        if s.control.primary == W.Proceeding then
          s.(control := W.Next(s.control, step),
             nodes := s.nodes[0 := Act(e.suite, e.calls, e.job, 0, s.nodes[0], s.db, Start).0])
        else s
      else if step.PrimaryReplies? && !(s.nodes[0].session.Some? && s.nodes[0].session.value.resumed) then s
      else s.(control := W.Next(s.control, step))
    case NodeActs(i, act) =>
      // The primary's Process is started by the primary's own step.
      if i < e.n && (i == 0 ==> !act.Start?) then
        var (h, db) := Act(e.suite, e.calls, e.job, i, s.nodes[i], s.db, act);
        s.(nodes := s.nodes[i := h], db := db)
      else s
  }

  function After(e: Ceremony, db: Db, events: seq<Event>): (s: State)
    requires e.n >= 1
    ensures Shape(e, s)
  {
    if events == [] then Init(e, db) else Next(e, After(e, db, events[..|events| - 1]), events[|events| - 1])
  }

  // ----- sessions and control agree -----

  predicate HasSession(p: W.Primary)
  {
    p != W.Fresh && p != W.BuildFailed
  }

  predicate HasStarted(p: W.Primary)
  {
    p == W.Running || p == W.Replied
  }

  /** Every host keeps its session invariant, and exists and runs as the control says. */
  ghost predicate NodesInv(e: Ceremony, s: State)
  {
    && Shape(e, s)
    && (forall i :: 0 <= i < e.n ==> NodeInv(e.job, s.nodes[i]))
    && (forall w :: 0 <= w < e.n - 1 ==>
          (s.nodes[w + 1].session.Some? <==> s.control.workers[w] == W.Built || s.control.workers[w] == W.Exited(true)))
    && (s.nodes[0].session.Some? <==> HasSession(s.control.primary))
    && (s.nodes[0].session.Some? ==> (s.nodes[0].session.value.started <==> HasStarted(s.control.primary)))
    && (s.control.primary == W.Replied ==> s.nodes[0].session.value.resumed)
    && (e.job.kind.Sign? ==> forall i :: 0 <= i < e.n ==> (s.keys[i].Some? <==> s.nodes[i].session.Some?))
  }

  lemma NodeMoves(e: Ceremony, s: State, i: nat, h: Node, db: Db, act: Action)
    requires NodesInv(e, s) && i < e.n && NodeInv(e.job, h) && Follows(s.nodes[i], h, act)
    requires i == 0 ==> !act.Start?
    ensures NodesInv(e, s.(nodes := s.nodes[i := h], db := db))
  {
  }

  lemma PrimaryStarts(e: Ceremony, s: State, h: Node)
    requires NodesInv(e, s) && s.control.primary == W.Proceeding
    requires NodeInv(e.job, h) && Follows(s.nodes[0], h, Start)
    ensures NodesInv(e, s.(control := s.control.(primary := W.Running), nodes := s.nodes[0 := h]))
  {
  }

  lemma ControlMoves(e: Ceremony, s: State, step: W.Step)
    requires NodesInv(e, s)
    requires !step.WorkerBuilds? && !step.PrimaryBuilds? && !step.PrimaryStarts?
    requires step.PrimaryReplies? ==> s.nodes[0].session.Some? && s.nodes[0].session.value.resumed
    ensures NodesInv(e, s.(control := W.Next(s.control, step)))
  {
  }

  lemma NodeAppears(e: Ceremony, s: State, w: nat, keys: seq<Option<EngineKey>>)
    requires NodesInv(e, s) && w < e.n - 1 && s.control.workers[w] == W.Spawned
    requires |keys| == e.n && keys == s.keys[w + 1 := keys[w + 1]] && (e.job.kind.Sign? ==> keys[w + 1].Some?)
    ensures NodesInv(e, State(s.control.(workers := s.control.workers[w := W.Built]), s.nodes[w + 1 := BUILT], keys,
                              s.db))
  {
  }

  lemma WorkerFails(e: Ceremony, s: State, w: nat)
    requires NodesInv(e, s) && w < e.n - 1 && s.control.workers[w] == W.Spawned
    ensures NodesInv(e, s.(control := s.control.(workers := s.control.workers[w := W.Erred])))
  {
  }

  lemma NextBuilds(e: Ceremony, s: State, w: nat, engineOk: bool)
    requires Shape(e, s) && w < e.n - 1 && s.control.workers[w] == W.Spawned
    ensures Next(e, s, WorkerBuilds(w, engineOk)) ==
            if Builds(e, w + 1, s.db, engineOk)
            then State(s.control.(workers := s.control.workers[w := W.Built]), s.nodes[w + 1 := BUILT],
                       Build(e, s, w + 1, engineOk).keys, s.db)
            else s.(control := s.control.(workers := s.control.workers[w := W.Erred]))
  {
  }

  lemma BuiltKeys(e: Ceremony, s: State, i: nat, engineOk: bool)
    requires Shape(e, s) && i < e.n && Builds(e, i, s.db, engineOk)
    ensures var keys := Build(e, s, i, engineOk).keys;
            |keys| == e.n && keys == s.keys[i := keys[i]] && (e.job.kind.Sign? ==> keys[i].Some?)
  {
  }

  lemma WorkerBuilt(e: Ceremony, s: State, w: nat, engineOk: bool)
    requires NodesInv(e, s) && w < e.n - 1 && s.control.workers[w] == W.Spawned
    ensures NodesInv(e, Next(e, s, WorkerBuilds(w, engineOk)))
  {
    NextBuilds(e, s, w, engineOk);
    if Builds(e, w + 1, s.db, engineOk) {
      BuiltKeys(e, s, w + 1, engineOk);
      NodeAppears(e, s, w, Build(e, s, w + 1, engineOk).keys);
    } else {
      WorkerFails(e, s, w);
    }
  }

  lemma NodesInvNext(e: Ceremony, s: State, ev: Event)
    requires NodesInv(e, s)
    ensures NodesInv(e, Next(e, s, ev))
  {
    match ev
    case WorkerBuilds(w, engineOk) =>
      if w < e.n - 1 && s.control.workers[w] == W.Spawned {
        WorkerBuilt(e, s, w, engineOk);
      }
    case PrimaryBuilds(engineOk) =>
    case Ctl(step) =>
      if step.PrimaryStarts? {
        if s.control.primary == W.Proceeding {
          ActKeepsInv(e.suite, e.calls, e.job, 0, s.nodes[0], s.db, Start);
          PrimaryStarts(e, s, Act(e.suite, e.calls, e.job, 0, s.nodes[0], s.db, Start).0);
        }
      } else if !step.WorkerBuilds? && !step.PrimaryBuilds? {
        if step.PrimaryReplies? ==> s.nodes[0].session.Some? && s.nodes[0].session.value.resumed {
          ControlMoves(e, s, step);
        }
      }
    case NodeActs(i, act) =>
      if i < e.n && (i == 0 ==> !act.Start?) {
        ActKeepsInv(e.suite, e.calls, e.job, i, s.nodes[i], s.db, act);
        var (h, db) := Act(e.suite, e.calls, e.job, i, s.nodes[i], s.db, act);
        NodeMoves(e, s, i, h, db, act);
      }
  }

  // ----- what every run guarantees -----

  lemma AfterExtend(e: Ceremony, db: Db, events: seq<Event>, ev: Event)
    requires e.n >= 1
    ensures After(e, db, events + [ev]) == Next(e, After(e, db, events), ev)
  {
    assert (events + [ev])[..|events|] == events;
  }

  /** An event makes at most one step of the workers' skeleton. */
  lemma ControlNext(e: Ceremony, s: State, ev: Event) returns (step: W.Step)
    requires Shape(e, s)
    ensures Next(e, s, ev).control == s.control || Next(e, s, ev).control == W.Next(s.control, step)
  {
    match ev
    case WorkerBuilds(w, engineOk) => step := W.WorkerBuilds(w, Builds(e, w + 1, s.db, engineOk));
    case PrimaryBuilds(engineOk) => step := W.PrimaryBuilds(Builds(e, 0, s.db, engineOk));
    case Ctl(st) => step := st;
    case NodeActs(_, _) => step := W.PrimaryWaits;
  }

  /** What a state promises: see SelfHostSafety. */
  ghost predicate Safe(e: Ceremony, s: State)
    requires Shape(e, s)
  {
    && !s.control.dropped
    && (forall i :: 0 <= i < e.n && s.nodes[i].session.Some? ==>
          && s.nodes[i].session.value.closes <= 1
          && (s.nodes[i].session.value.resumed ==> s.nodes[i].session.value.closes == 1))
    && (HasStarted(s.control.primary) ==>
          && s.nodes[0].session.Some?
          && (!s.nodes[0].handler ==> !e.job.kind.Dkg? && s.nodes[0].session.value.closes == 1)
          && (forall w :: 0 <= w < e.n - 1 ==>
                && s.control.workers[w].Exited?
                && (s.nodes[w + 1].session.Some? <==> w !in s.control.errors)))
  }

  lemma ReachableIsSafe(e: Ceremony, s: State)
    requires NodesInv(e, s) && W.Reachable(e.n, s.control)
    ensures Safe(e, s)
  {
    var steps :| W.Run(e.n, steps) == s.control;
    W.NoErrorLost(e.n, steps);
    assert NodeInv(e.job, s.nodes[0]);
    if HasStarted(s.control.primary) {
      W.NilMeansAllExited(e.n, steps);
    }
  }

  /** One event keeps both invariants. */
  lemma ReachableNext(e: Ceremony, s: State, ev: Event)
    requires NodesInv(e, s) && W.Reachable(e.n, s.control)
    ensures NodesInv(e, Next(e, s, ev)) && W.Reachable(e.n, Next(e, s, ev).control)
  {
    NodesInvNext(e, s, ev);
    var step := ControlNext(e, s, ev);
    W.ReachNext(e.n, s.control, step);
  }

  lemma ReachableInit(e: Ceremony, db: Db)
    requires e.n >= 1
    ensures NodesInv(e, Init(e, db)) && W.Reachable(e.n, Init(e, db).control)
  {
    W.ReachInit(e.n);
  }

  /**
    In every interleaving of n nodes: no error is dropped; no node closes its done channel twice or resumes before its
    terminal callback; and once the primary's process has started, every worker has exited and has a session exactly
    when it left no error behind, while the primary's own session is there with its handler, until its own terminal
    callback takes it away.
   */
  lemma {:induction false} SelfHostSafety(e: Ceremony, db: Db, events: seq<Event>)
    requires e.n >= 1
    ensures NodesInv(e, After(e, db, events)) && W.Reachable(e.n, After(e, db, events).control)
    ensures Safe(e, After(e, db, events))
  {
    if events == [] {
      ReachableInit(e, db);
    } else {
      SelfHostSafety(e, db, events[..|events| - 1]);
      ReachableNext(e, After(e, db, events[..|events| - 1]), events[|events| - 1]);
    }
    ReachableIsSafe(e, After(e, db, events));
  }

  lemma AnswerStep(e: Ceremony, s: State, ev: Event, i: nat)
    requires NodesInv(e, s) && i < e.n && s.nodes[i].session.Some? && !s.nodes[i].session.value.callback.Quiet?
    ensures var h := Next(e, s, ev).nodes[i];
            && h.session.Some? && !h.session.value.callback.Quiet?
            && ResultOf(h) == ResultOf(s.nodes[i])
  {
    match ev
    case WorkerBuilds(w, _) =>
    case PrimaryBuilds(_) =>
    case Ctl(_) => ActKeepsInv(e.suite, e.calls, e.job, 0, s.nodes[0], s.db, Start);
    case NodeActs(j, act) =>
      if j < e.n {
        ActKeepsInv(e.suite, e.calls, e.job, j, s.nodes[j], s.db, act);
      }
  }

  /** Unlike on the RPC path, a worker's engine may run before the primary listens. */
  lemma WorkersMayStartFirst(e: Ceremony, db: Db)
    requires Wf(e) && e.n >= 2 && e.job.kind.Dkg?
    ensures exists events :: var s := After(e, db, events);
              s.nodes[1].session.Some? && s.nodes[1].session.value.started && !s.nodes[0].handler
  {
    var s0 := Init(e, db);
    var s1 := Next(e, s0, WorkerBuilds(0, true));
    AfterExtend(e, db, [], WorkerBuilds(0, true));
    AfterExtend(e, db, [] + [WorkerBuilds(0, true)], NodeActs(1, Start));
    assert s0.control.workers[0] == W.Spawned;
    assert s1.nodes[1] == BUILT && s1.nodes[0] == ABSENT;
    assert After(e, db, [] + [WorkerBuilds(0, true)] + [NodeActs(1, Start)]) == Next(e, s1, NodeActs(1, Start));
  }

  // ----- progress -----

  /** An event the ceremony does not make by itself: a report of the engine, or a cancelled context. */
  predicate FromOutside(ev: Event)
  {
    (ev.NodeActs? && (ev.act.Notify? || ev.act.Start?)) || (ev.Ctl? && ev.step.SelectCancelled?)
  }

  ghost predicate Stuck(e: Ceremony, s: State)
    requires Shape(e, s)
  {
    forall ev: Event :: !FromOutside(ev) ==> Next(e, s, ev) == s
  }

  lemma StuckWorker(e: Ceremony, s: State, w: nat)
    requires NodesInv(e, s) && W.Inv(e.n, s.control) && Stuck(e, s) && w < e.n - 1
    ensures s.control.workers[w].Exited?
  {
    assert Next(e, s, WorkerBuilds(w, false)) == s;
    assert Next(e, s, Ctl(W.WorkerSends(w))) == s;
    assert Next(e, s, Ctl(W.WorkerExits(w))) == s;
    if !s.control.workers[w].Exited? {
      W.AliveCounts(e.n, s.control, w);
    }
  }

  lemma StuckPrimary(e: Ceremony, s: State)
    requires NodesInv(e, s) && Stuck(e, s) && s.control.primary == W.Running
    ensures s.nodes[0].session.Some? && s.nodes[0].session.value.callback.Quiet?
  {
    assert NodeInv(e.job, s.nodes[0]);
    assert Next(e, s, Ctl(W.PrimaryReplies)) == s;
    assert Next(e, s, NodeActs(0, Resume)) == s;
    assert Next(e, s, NodeActs(0, CloseDone)) == s;
  }

  lemma StuckWait(e: Ceremony, s: State)
    requires NodesInv(e, s) && W.Inv(e.n, s.control) && Stuck(e, s)
    requires forall w :: 0 <= w < e.n - 1 ==> s.control.workers[w].Exited?
    ensures var p := s.control.primary; p == W.BuildFailed || p.Aborted? || p == W.Running || p == W.Replied
  {
    W.ExitedCount(e.n, s.control);
    assert Next(e, s, PrimaryBuilds(false)) == s;
    assert Next(e, s, Ctl(W.PrimaryWaits)) == s;
    assert Next(e, s, Ctl(W.CloseFinished)) == s;
    assert Next(e, s, Ctl(W.SelectFinished)) == s;
    assert Next(e, s, Ctl(W.PrimaryStarts)) == s;
  }

  /**
    A self-host ceremony never hangs by itself.  Where nothing more can happen without the engine, every worker has
    exited, and the primary has failed, was stopped, has replied, or waits for its own engine's report and nothing else.
   */
  lemma OnlyEngineHolds(e: Ceremony, db: Db, events: seq<Event>)
    requires e.n >= 1 && Stuck(e, After(e, db, events))
    ensures var s := After(e, db, events);
            && (forall w :: 0 <= w < e.n - 1 ==> s.control.workers[w].Exited?)
            && (|| s.control.primary == W.BuildFailed
                || s.control.primary.Aborted?
                || s.control.primary == W.Replied
                || (s.control.primary == W.Running
                    && s.nodes[0].session.Some? && s.nodes[0].session.value.callback.Quiet?))
  {
    var s := After(e, db, events);
    SelfHostSafety(e, db, events);
    var steps :| W.Run(e.n, steps) == s.control;
    W.RunInv(e.n, steps);
    forall w | 0 <= w < e.n - 1
      ensures s.control.workers[w].Exited?
    {
      StuckWorker(e, s, w);
    }
    StuckWait(e, s);
    if s.control.primary == W.Running {
      StuckPrimary(e, s);
    }
  }
}
