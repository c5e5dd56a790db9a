/**
  The skeleton of a self-host ceremony: n-1 worker goroutines, a wait group, an error channel of capacity n-1,
  and a primary that builds its own session, waits for the workers and only then starts.
  A run is any sequence of steps; a step that is not enabled changes nothing.
 */
module Workers {
  import opened Basics

  /** A worker goroutine; `Exited` has passed its deferred Done. */
  datatype Worker = Spawned | Built | Erred | Sent | Exited(built: bool)

  datatype Primary =
    | Fresh
    | BuildFailed
    | Ready                         // session built, about to wait for the others
    | Waiting                       // in the select
    | Aborted(cause: Option<nat>)   // the select gave worker `cause`'s error, or the cancelled context
    | Proceeding                    // the select gave nil
    | Running                       // Process has started
    | Replied

  /** `pending` is the wait-group counter, `finished` the channel closed after wg.Wait, `errors` the error channel. */
  datatype Control = Control(
    primary: Primary,
    workers: seq<Worker>,
    pending: nat,
    finished: bool,
    errors: seq<nat>,
    dropped: bool)

  datatype Step =
    | WorkerBuilds(w: nat, ok: bool)
    | WorkerSends(w: nat)
    | WorkerExits(w: nat)
    | PrimaryBuilds(ok: bool)
    | PrimaryWaits
    | CloseFinished
    | SelectFinished
    | SelectError
    | SelectCancelled
    | PrimaryStarts
    | PrimaryReplies

  function Init(n: nat): Control
    requires n >= 1
  {
    Control(Fresh, seq(n - 1, _ => Spawned), n - 1, false, [], false)
  }

  function Next(c: Control, step: Step): Control
  {
    match step
    case WorkerBuilds(w, ok) =>
      if w < |c.workers| && c.workers[w] == Spawned then
        c.(workers := c.workers[w := if ok then Built else Erred])
      else c
    case WorkerSends(w) =>
      if w < |c.workers| && c.workers[w] == Erred then
        // The select falls through to its default when the channel is full.
        if |c.errors| < |c.workers| then c.(workers := c.workers[w := Sent], errors := c.errors + [w])
        else c.(workers := c.workers[w := Sent], dropped := true)
      else c
    case WorkerExits(w) =>
      if w < |c.workers| && (c.workers[w] == Built || c.workers[w] == Sent) && c.pending > 0 then
        c.(workers := c.workers[w := Exited(c.workers[w] == Built)], pending := c.pending - 1)
      else c
    case PrimaryBuilds(ok) =>
      if c.primary == Fresh then c.(primary := if ok then Ready else BuildFailed) else c
    case PrimaryWaits =>
      if c.primary == Ready then c.(primary := Waiting) else c
    case CloseFinished =>
      // The helper goroutine exists from the wait on, whatever the select has chosen meanwhile.
      if (c.primary == Waiting || c.primary.Aborted?) && c.pending == 0 then c.(finished := true) else c
    case SelectFinished =>
      if c.primary == Waiting && c.finished then c.(primary := Proceeding) else c
    case SelectError =>
      if c.primary == Waiting && c.errors != [] then c.(primary := Aborted(Some(c.errors[0])), errors := c.errors[1..])
      else c
    case SelectCancelled =>
      if c.primary == Waiting then c.(primary := Aborted(None)) else c
    case PrimaryStarts =>
      if c.primary == Proceeding then c.(primary := Running) else c
    case PrimaryReplies =>
      if c.primary == Running then c.(primary := Replied) else c
  }

  function Run(n: nat, steps: seq<Step>): Control
    requires n >= 1
  {
    if steps == [] then Init(n) else Next(Run(n, steps[..|steps| - 1]), steps[|steps| - 1])
  }

  predicate Alive(w: Worker)
  {
    !w.Exited?
  }

  predicate HasSent(w: Worker)
  {
    w == Sent || w == Exited(false)
  }

  /** The primary's select has returned nil. */
  predicate Passed(p: Primary)
  {
    p == Proceeding || p == Running || p == Replied
  }

  function Taken(c: Control): nat
  {
    if c.primary.Aborted? && c.primary.cause.Some? then 1 else 0
  }

  /** The inductive invariant. */
  ghost predicate Inv(n: nat, c: Control)
  {
    && n >= 1
    && |c.workers| == n - 1
    && c.pending == Count(Alive, c.workers)
    && |c.errors| + Taken(c) == Count(HasSent, c.workers)
    && !c.dropped
    && (c.finished ==> c.pending == 0)
    && (Passed(c.primary) ==> c.finished)
    && (forall w :: 0 <= w < n - 1 && HasSent(c.workers[w]) ==> w in c.errors || c.primary == Aborted(Some(w)))
    && (forall e :: e in c.errors ==> e < n - 1 && HasSent(c.workers[e]))
  }

  lemma {:induction false} CountAll(n: nat)
    ensures Count(Alive, seq(n, _ => Spawned)) == n
    ensures Count(HasSent, seq(n, _ => Spawned)) == 0
  {
    if n > 0 {
      CountAll(n - 1);
      assert seq(n, _ => Spawned)[1..] == seq(n - 1, _ => Spawned);
    }
  }

  lemma InitInv(n: nat)
    requires n >= 1
    ensures Inv(n, Init(n))
  {
    CountAll(n - 1);
  }

  lemma WorkerStepKeepsInv(n: nat, c: Control, step: Step)
    requires Inv(n, c)
    requires step.WorkerBuilds? || step.WorkerSends? || step.WorkerExits?
    ensures Inv(n, Next(c, step))
  {
    var w, c' := step.w, Next(c, step);
    if c' != c {
      CountUpdate(Alive, c.workers, w, c'.workers[w]);
      CountUpdate(HasSent, c.workers, w, c'.workers[w]);
      if c.workers[w] == Erred {
        // The sender itself is not counted yet, so there is room in the channel.
        CountBelow(HasSent, c.workers, w);
      }
      assert c'.workers == c.workers[w := c'.workers[w]];
    }
  }

  lemma PrimaryStepKeepsInv(n: nat, c: Control, step: Step)
    requires Inv(n, c)
    requires !step.WorkerBuilds? && !step.WorkerSends? && !step.WorkerExits?
    ensures Inv(n, Next(c, step))
  {
    if step.SelectError? && c.errors != [] {
      assert c.errors == [c.errors[0]] + c.errors[1..];
    }
  }

  lemma {:induction false} RunInv(n: nat, steps: seq<Step>)
    requires n >= 1
    ensures Inv(n, Run(n, steps))
  {
    if steps == [] {
      InitInv(n);
    } else {
      RunInv(n, steps[..|steps| - 1]);
      var c, step := Run(n, steps[..|steps| - 1]), steps[|steps| - 1];
      if step.WorkerBuilds? || step.WorkerSends? || step.WorkerExits? {
        WorkerStepKeepsInv(n, c, step);
      } else {
        PrimaryStepKeepsInv(n, c, step);
      }
    }
  }

  /**
    In every interleaving no worker's error is dropped: the channel has room whenever a worker sends, the wait group
    counts the workers that are still alive, and every error sent is queued or is the one the primary returned.
   */
  lemma NoErrorLost(n: nat, steps: seq<Step>)
    requires n >= 1
    ensures var c := Run(n, steps);
            && !c.dropped
            && |c.workers| == n - 1
            && |c.errors| <= n - 1
            && (forall w :: 0 <= w < n - 1 && c.workers[w] == Erred ==> |c.errors| < n - 1)
            && (forall w :: 0 <= w < n - 1 && HasSent(c.workers[w]) ==> w in c.errors || c.primary == Aborted(Some(w)))
  {
    RunInv(n, steps);
    var c := Run(n, steps);
    forall w | 0 <= w < n - 1 && c.workers[w] == Erred
      ensures |c.errors| < n - 1
    {
      CountBelow(HasSent, c.workers, w);
    }
  }

  /**
    When the wait has returned nil every worker has exited, and each has either built its session or left its error
    in the channel: all sessions exist exactly when the channel is empty.
   */
  lemma NilMeansAllExited(n: nat, steps: seq<Step>)
    requires n >= 1 && Passed(Run(n, steps).primary)
    ensures var c := Run(n, steps);
            && |c.workers| == n - 1
            && (forall w :: 0 <= w < n - 1 ==> c.workers[w].Exited? && (c.workers[w].built <==> w !in c.errors))
            && ((forall w :: 0 <= w < n - 1 ==> c.workers[w] == Exited(true)) <==> c.errors == [])
  {
    RunInv(n, steps);
    var c := Run(n, steps);
    CountZero(Alive, c.workers);
    CountZero(HasSent, c.workers);
  }

  /** While some worker lives the wait group is not done, so the primary has not been let through. */
  lemma AliveHoldsPrimary(n: nat, c: Control, w: nat)
    requires Inv(n, c) && w < n - 1 && Alive(c.workers[w])
    ensures !c.finished && !Passed(c.primary)
  {
    CountZero(Alive, c.workers);
  }

  /** From a wait with errors queued, one step that does not cancel keeps waiting for the first error or takes it. */
  lemma WaitStep(c: Control, step: Step, first: nat)
    requires !c.finished && !step.SelectCancelled?
    requires c.primary == Aborted(Some(first)) || (c.primary == Waiting && c.errors != [] && c.errors[0] == first)
    ensures var c' := Next(c, step);
            c'.primary == Aborted(Some(first)) || (c'.primary == Waiting && c'.errors != [] && c'.errors[0] == first)
  {
  }

  lemma ExitedStays(c: Control, step: Step, w: nat)
    requires w < |c.workers| && c.workers[w].Exited?
    ensures w < |Next(c, step).workers| && Next(c, step).workers[w].Exited?
  {
  }

  /**
    A primary that waits with an error queued, while its context lives and some worker has not exited, cannot get past
    that error: through any further steps it is still waiting with the same error first, or has returned that error.
   */
  lemma {:induction false} OnlyErrorReady(n: nat, steps: seq<Step>, more: seq<Step>, w: nat)
    requires n >= 1 && w < n - 1
    requires Run(n, steps).primary == Waiting && Run(n, steps).errors != []
    requires forall step :: step in more ==> !step.SelectCancelled?
    requires |Run(n, steps + more).workers| == n - 1 && Alive(Run(n, steps + more).workers[w])
    ensures var first, c := Run(n, steps).errors[0], Run(n, steps + more);
            c.primary == Aborted(Some(first)) || (c.primary == Waiting && c.errors != [] && c.errors[0] == first)
  {
    if more == [] {
      assert steps + more == steps;
    } else {
      var fewer, step := more[..|more| - 1], more[|more| - 1];
      assert (steps + more)[..|steps + more| - 1] == steps + fewer;
      assert step in more && forall st :: st in fewer ==> st in more;
      var c := Run(n, steps + fewer);
      RunInv(n, steps + fewer);
      if c.workers[w].Exited? {
        ExitedStays(c, step, w);
      }
      OnlyErrorReady(n, steps, fewer, w);
      AliveHoldsPrimary(n, c, w);
      WaitStep(c, step, Run(n, steps).errors[0]);
    }
  }

  ghost predicate Reachable(n: nat, c: Control)
    requires n >= 1
  {
    exists steps :: Run(n, steps) == c
  }

  lemma ReachInit(n: nat)
    requires n >= 1
    ensures Reachable(n, Init(n))
  {
    assert Run(n, []) == Init(n);
  }

  lemma ReachNext(n: nat, c: Control, step: Step)
    requires n >= 1 && Reachable(n, c)
    ensures Reachable(n, Next(c, step))
  {
    var steps :| Run(n, steps) == c;
    assert (steps + [step])[..|steps|] == steps;
    assert Run(n, steps + [step]) == Next(c, step);
  }

  lemma WorkerGivesUp()
    ensures Reachable(2, Control(Fresh, [Exited(false)], 0, false, [0], false))
  {
    ReachInit(2);
    assert Init(2) == Control(Fresh, [Spawned], 1, false, [], false);
    ReachNext(2, Control(Fresh, [Spawned], 1, false, [], false), WorkerBuilds(0, false));
    ReachNext(2, Control(Fresh, [Erred], 1, false, [], false), WorkerSends(0));
    ReachNext(2, Control(Fresh, [Sent], 1, false, [0], false), WorkerExits(0));
  }

  /** But when both are ready the select may choose completion: a failed worker does not always stop the primary. */
  lemma FailureMayBeIgnored()
    ensures Reachable(2, Control(Proceeding, [Exited(false)], 0, true, [0], false))
  {
    WorkerGivesUp();
    ReachNext(2, Control(Fresh, [Exited(false)], 0, false, [0], false), PrimaryBuilds(true));
    ReachNext(2, Control(Ready, [Exited(false)], 0, false, [0], false), PrimaryWaits);
    ReachNext(2, Control(Waiting, [Exited(false)], 0, false, [0], false), CloseFinished);
    ReachNext(2, Control(Waiting, [Exited(false)], 0, true, [0], false), SelectFinished);
  }

  // ----- progress -----

  /** How many steps a worker has left at most. */
  function Rank(w: Worker): nat
  {
    match w
    case Spawned => 3
    case Erred => 2
    case Built => 1
    case Sent => 1
    case Exited(_) => 0
  }

  function Ranks(ws: seq<Worker>): nat
  {
    if ws == [] then 0 else Rank(ws[0]) + Ranks(ws[1..])
  }

  lemma {:induction false} RanksUpdate(ws: seq<Worker>, i: nat, w: Worker)
    requires i < |ws|
    ensures Ranks(ws[i := w]) == Ranks(ws) - Rank(ws[i]) + Rank(w)
  {
    if i == 0 {
      assert ws[i := w][1..] == ws[1..];
    } else {
      assert ws[i := w][1..] == ws[1..][i - 1 := w];
      RanksUpdate(ws[1..], i - 1, w);
    }
  }

  lemma {:induction false} RanksAtFirst(n: nat)
    ensures Ranks(seq(n, _ => Spawned)) == 3 * n
  {
    if n > 0 {
      assert seq(n, _ => Spawned)[1..] == seq(n - 1, _ => Spawned);
      RanksAtFirst(n - 1);
    }
  }

  function PrimaryRank(p: Primary): nat
  {
    match p
    case Fresh => 5
    case Ready => 4
    case Waiting => 3
    case Proceeding => 2
    case Running => 1
    case _ => 0
  }

  function Measure(c: Control): nat
  {
    Ranks(c.workers) + (if c.finished then 0 else 1) + PrimaryRank(c.primary)
  }

  /** Every step that does something comes closer to the end. */
  lemma StepDecreases(c: Control, step: Step)
    ensures Next(c, step) == c || Measure(Next(c, step)) < Measure(c)
  {
    var c' := Next(c, step);
    if (step.WorkerBuilds? || step.WorkerSends? || step.WorkerExits?) && c' != c {
      RanksUpdate(c.workers, step.w, c'.workers[step.w]);
    }
  }

  /** The number of steps that did something. */
  function Effective(n: nat, steps: seq<Step>): nat
    requires n >= 1
  {
    if steps == [] then 0
    else
      var fewer := steps[..|steps| - 1];
      Effective(n, fewer) + if Run(n, steps) == Run(n, fewer) then 0 else 1
  }

  /** No run goes on for ever: at most three steps for each worker and six for the primary and its wait. */
  lemma {:induction false} RunsEnd(n: nat, steps: seq<Step>)
    requires n >= 1
    ensures Effective(n, steps) + Measure(Run(n, steps)) <= 3 * (n - 1) + 6
  {
    if steps == [] {
      RanksAtFirst(n - 1);
    } else {
      RunsEnd(n, steps[..|steps| - 1]);
      StepDecreases(Run(n, steps[..|steps| - 1]), steps[|steps| - 1]);
    }
  }

  /** Nothing more can happen, short of a cancelled context. */
  ghost predicate Stuck(c: Control)
  {
    forall step: Step :: !step.SelectCancelled? ==> Next(c, step) == c
  }

  /** A worker that is alive is counted. */
  lemma AliveCounts(n: nat, c: Control, w: nat)
    requires Inv(n, c) && w < n - 1 && Alive(c.workers[w])
    ensures c.pending > 0
  {
    CountZero(Alive, c.workers);
  }

  lemma ExitedCount(n: nat, c: Control)
    requires Inv(n, c) && forall w :: 0 <= w < n - 1 ==> c.workers[w].Exited?
    ensures c.pending == 0
  {
    CountZero(Alive, c.workers);
  }

  lemma StuckWorkers(n: nat, c: Control)
    requires Inv(n, c) && Stuck(c)
    ensures forall w :: 0 <= w < n - 1 ==> c.workers[w].Exited?
    ensures c.pending == 0
  {
    forall w: nat | w < n - 1
      ensures !Alive(c.workers[w])
    {
      assert Next(c, WorkerBuilds(w, true)) == c;
      assert Next(c, WorkerSends(w)) == c;
      assert Next(c, WorkerExits(w)) == c;
      if Alive(c.workers[w]) {
        AliveCounts(n, c, w);
      }
    }
    ExitedCount(n, c);
  }

  /**
    And no run gets stuck on the way: where nothing more can happen every worker has exited, the primary has failed to
    build, has been stopped by an error or a cancellation, or has replied, and the goroutine that waits for the workers
    has come to its end as well.
   */
  lemma StuckIsDone(n: nat, steps: seq<Step>)
    requires n >= 1 && Stuck(Run(n, steps))
    ensures var c := Run(n, steps);
            && |c.workers| == n - 1
            && (forall w :: 0 <= w < n - 1 ==> c.workers[w].Exited?)
            && (c.primary == BuildFailed || c.primary.Aborted? || c.primary == Replied)
            && (c.primary != BuildFailed ==> c.finished)
  {
    RunInv(n, steps);
    StuckWorkers(n, Run(n, steps));
    StuckPrimary(Run(n, steps));
  }

  lemma StuckPrimary(c: Control)
    requires Stuck(c) && c.pending == 0
    ensures c.primary == BuildFailed || c.primary.Aborted? || c.primary == Replied
    ensures c.primary.Aborted? ==> c.finished
  {
    assert Next(c, PrimaryBuilds(true)) == c;
    assert Next(c, PrimaryWaits) == c;
    assert Next(c, CloseFinished) == c;
    assert Next(c, SelectFinished) == c;
    assert Next(c, PrimaryStarts) == c;
    assert Next(c, PrimaryReplies) == c;
  }
}
