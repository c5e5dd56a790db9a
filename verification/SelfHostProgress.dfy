/** What self-host ceremonies can always get done: reports arrive, and every ceremony can be brought to its end. */
module SelfHostProgress {
  import opened Basics
  import opened Curve
  import opened Records
  import opened Fsm
  import opened BadgerStore
  import opened StoreInterface
  import opened StoreHistory
  import opened Keys
  import opened Numbers
  import opened Session
  import opened SelfHost
  import opened SelfHostStore
  import W = Workers

  // ----- one ceremony, from any state -----

  function Go(e: Ceremony, s: State, events: seq<Event>): (s': State)
    requires Shape(e, s)
    ensures Shape(e, s')
  {
    if events == [] then s else Next(e, Go(e, s, events[..|events| - 1]), events[|events| - 1])
  }

  lemma GoOn(e: Ceremony, s: State, events: seq<Event>, ev: Event)
    requires Shape(e, s)
    ensures Go(e, s, events + [ev]) == Next(e, Go(e, s, events), ev)
  {
    assert (events + [ev])[..|events|] == events;
  }

  lemma {:induction false} GoConcat(e: Ceremony, s: State, a: seq<Event>, b: seq<Event>)
    requires Shape(e, s)
    ensures Go(e, s, a + b) == Go(e, Go(e, s, a), b)
  {
    if b == [] {
      assert a + b == a;
    } else {
      GoConcat(e, s, a, b[..|b| - 1]);
      assert (a + b)[..|a + b| - 1] == a + b[..|b| - 1];
    }
  }

  lemma Chained(e: Ceremony, s: State, first: seq<Event>, mid: State, next: seq<Event>, end: State)
      returns (events: seq<Event>)
    requires Shape(e, s) && Shape(e, mid) && Go(e, s, first) == mid && Go(e, mid, next) == end
    ensures events == first + next && Go(e, s, events) == end
  {
    events := first + next;
    GoConcat(e, s, first, next);
  }

  // ----- one node -----

  function Acts(i: nat, acts: seq<Action>): (events: seq<Event>)
    ensures |events| == |acts|
  {
    seq(|acts|, k requires 0 <= k < |acts| => NodeActs(i, acts[k]))
  }

  /** What the node does on its own is what it does in the ceremony. */
  lemma {:induction false} NodeRuns(e: Ceremony, s: State, i: nat, acts: seq<Action>)
    requires Shape(e, s) && i < e.n && (i == 0 ==> Start !in acts)
    ensures var (h, db) := RunActions(e.suite, e.calls, e.job, i, s.nodes[i], s.db, acts);
            Go(e, s, Acts(i, acts)) == s.(nodes := s.nodes[i := h], db := db)
  {
    if acts == [] {
      assert s.nodes[i := s.nodes[i]] == s.nodes;
    } else {
      var n := |acts| - 1;
      assert Acts(i, acts) == Acts(i, acts[..n]) + [NodeActs(i, acts[n])];
      assert acts[n] in acts && forall a :: a in acts[..n] ==> a in acts;
      NodeRuns(e, s, i, acts[..n]);
      var (h, db) := RunActions(e.suite, e.calls, e.job, i, s.nodes[i], s.db, acts[..n]);
      var t := s.(nodes := s.nodes[i := h], db := db);
      GoOn(e, s, Acts(i, acts[..n]), NodeActs(i, acts[n]));
      NextActs(e, t, i, acts[n]);
      var (h', db') := Act(e.suite, e.calls, e.job, i, h, db, acts[n]);
      assert t.nodes[i := h'] == s.nodes[i := h'];
    }
  }

  lemma WriteSucceeds(e: Ceremony, i: nat, db: Db, out: Outcome)
    requires Wf(e) && Fits(e.job, Some(out))
    ensures var (db', r) := e.calls.apply(db, WriteOf(e.suite, e.job, i, out, true));
            r.Ok? && db' == db[KeyAt(e, i) := ResultJson(e, i, out)]
  {
  }

  lemma NodeEnds(e: Ceremony, s: State, i: nat, out: Outcome)
    requires Wf(e) && Shape(e, s) && i < e.n && s.nodes[i] == STARTED && Fits(e.job, Some(out))
    ensures Go(e, s, Acts(i, ToTheEnd(out))) == WithDone(e, s, i, out)
  {
    WriteSucceeds(e, i, s.db, out);
    SessionEnds(e.suite, e.calls, e.job, i, true, s.db, out);
    NodeRuns(e, s, i, ToTheEnd(out));
  }

  lemma WorkerStarts(e: Ceremony, s: State, i: nat)
    requires Shape(e, s) && 0 < i < e.n && s.nodes[i] == BUILT
    ensures Next(e, s, NodeActs(i, Start)) == s.(nodes := s.nodes[i := STARTED])
  {
    NextActs(e, s, i, Start);
  }

  /** Node `i` is done, and its result is in the store. */
  function WithDone(e: Ceremony, s: State, i: nat, out: Outcome): (s': State)
    requires Shape(e, s) && i < e.n
    ensures Shape(e, s')
  {
    s.(nodes := s.nodes[i := Done(e.job, out)], db := s.db[KeyAt(e, i) := ResultJson(e, i, out)])
  }

  /** The nodes before `k` are done, one after the other. */
  function DoneBefore(e: Ceremony, s: State, outs: seq<Outcome>, k: nat): (s': State)
    requires Shape(e, s) && |outs| == e.n && k <= e.n
    ensures Shape(e, s')
  {
    if k == 0 then s else WithDone(e, DoneBefore(e, s, outs, k - 1), k - 1, outs[k - 1])
  }

  lemma DoneMore(e: Ceremony, s: State, outs: seq<Outcome>, k: nat)
    requires Shape(e, s) && |outs| == e.n && k < e.n
    ensures DoneBefore(e, s, outs, k + 1) == WithDone(e, DoneBefore(e, s, outs, k), k, outs[k])
  {
  }

  predicate NodeAfter(e: Ceremony, s: State, outs: seq<Outcome>, k: nat, i: nat)
    requires Shape(e, s) && |outs| == e.n
  {
    i < e.n && k <= e.n && DoneBefore(e, s, outs, k).nodes[i] == if i < k then Done(e.job, outs[i]) else s.nodes[i]
  }

  lemma NodeNext(e: Ceremony, s: State, outs: seq<Outcome>, k: nat, i: nat)
    requires Shape(e, s) && |outs| == e.n && k < e.n && NodeAfter(e, s, outs, k, i)
    ensures NodeAfter(e, s, outs, k + 1, i)
  {
    DoneMore(e, s, outs, k);
  }

  lemma DoneNodes(e: Ceremony, s: State, outs: seq<Outcome>, k: nat, i: nat)
    requires Shape(e, s) && |outs| == e.n && k <= e.n && i < e.n
    ensures NodeAfter(e, s, outs, k, i)
  {
    var after := (l: nat) => NodeAfter(e, s, outs, l, i);
    forall l: nat | after(l) && l < k
      ensures after(l + 1)
    {
      NodeNext(e, s, outs, l, i);
    }
    Climbs(after, 0, k);
  }

  predicate KeepsElse(e: Ceremony, s: State, outs: seq<Outcome>, k: nat)
    requires Shape(e, s) && |outs| == e.n
  {
    k <= e.n && DoneBefore(e, s, outs, k).keys == s.keys && DoneBefore(e, s, outs, k).control == s.control
  }

  lemma KeptNext(e: Ceremony, s: State, outs: seq<Outcome>, k: nat)
    requires Shape(e, s) && |outs| == e.n && k < e.n && KeepsElse(e, s, outs, k)
    ensures KeepsElse(e, s, outs, k + 1)
  {
    DoneMore(e, s, outs, k);
  }

  lemma DoneElse(e: Ceremony, s: State, outs: seq<Outcome>)
    requires Shape(e, s) && |outs| == e.n
    ensures KeepsElse(e, s, outs, e.n)
  {
    var kept := (k: nat) => KeepsElse(e, s, outs, k);
    forall k: nat | kept(k) && k < e.n
      ensures kept(k + 1)
    {
      KeptNext(e, s, outs, k);
    }
    Climbs(kept, 0, e.n);
  }

  /** Every session is there, and the primary has started. */
  ghost predicate Ready(e: Ceremony, s: State)
  {
    Shape(e, s) && forall i :: 0 <= i < e.n ==> s.nodes[i] == if i == 0 then STARTED else BUILT
  }

  ghost predicate AllFit(e: Ceremony, outs: seq<Outcome>)
  {
    |outs| == e.n && forall i :: 0 <= i < e.n ==> Fits(e.job, Some(outs[i]))
  }

  function NodeEvents(i: nat, out: Outcome): seq<Event>
  {
    (if i == 0 then [] else [NodeActs(i, Start)]) + Acts(i, ToTheEnd(out))
  }

  lemma NodeThrough(e: Ceremony, s: State, i: nat, out: Outcome)
    requires Wf(e) && Shape(e, s) && i < e.n && s.nodes[i] == (if i == 0 then STARTED else BUILT)
    requires Fits(e.job, Some(out))
    ensures Go(e, s, NodeEvents(i, out)) == WithDone(e, s, i, out)
  {
    if i == 0 {
      assert NodeEvents(i, out) == Acts(i, ToTheEnd(out));
      NodeEnds(e, s, i, out);
    } else {
      WorkerStarts(e, s, i);
      GoOn(e, s, [], NodeActs(i, Start));
      assert [] + [NodeActs(i, Start)] == [NodeActs(i, Start)];
      GoConcat(e, s, [NodeActs(i, Start)], Acts(i, ToTheEnd(out)));
      NodeEnds(e, s.(nodes := s.nodes[i := STARTED]), i, out);
      assert s.nodes[i := STARTED][i := Done(e.job, out)] == s.nodes[i := Done(e.job, out)];
    }
  }

  lemma OneNodeDone(e: Ceremony, s: State, outs: seq<Outcome>, k: nat)
    requires Wf(e) && Ready(e, s) && AllFit(e, outs) && k < e.n
    ensures Go(e, DoneBefore(e, s, outs, k), NodeEvents(k, outs[k])) == DoneBefore(e, s, outs, k + 1)
  {
    DoneNodes(e, s, outs, k, k);
    NodeThrough(e, DoneBefore(e, s, outs, k), k, outs[k]);
  }

  lemma OneMoreDone(e: Ceremony, s: State, outs: seq<Outcome>, k: nat, first: seq<Event>)
      returns (events: seq<Event>)
    requires Wf(e) && Ready(e, s) && AllFit(e, outs) && k < e.n && Go(e, s, first) == DoneBefore(e, s, outs, k)
    ensures Go(e, s, events) == DoneBefore(e, s, outs, k + 1)
  {
    OneNodeDone(e, s, outs, k);
    events := Chained(e, s, first, DoneBefore(e, s, outs, k), NodeEvents(k, outs[k]), DoneBefore(e, s, outs, k + 1));
  }

  ghost predicate CanBeDone(e: Ceremony, s: State, outs: seq<Outcome>, k: nat)
    requires Shape(e, s) && |outs| == e.n
  {
    k <= e.n && exists events :: Go(e, s, events) == DoneBefore(e, s, outs, k)
  }

  lemma CanGoOn(e: Ceremony, s: State, outs: seq<Outcome>, k: nat)
    requires Wf(e) && Ready(e, s) && AllFit(e, outs) && k < e.n && CanBeDone(e, s, outs, k)
    ensures CanBeDone(e, s, outs, k + 1)
  {
    var first :| Go(e, s, first) == DoneBefore(e, s, outs, k);
    var events := OneMoreDone(e, s, outs, k, first);
  }

  lemma CanBegin(e: Ceremony, s: State, outs: seq<Outcome>)
    requires Shape(e, s) && |outs| == e.n
    ensures CanBeDone(e, s, outs, 0)
  {
    assert Go(e, s, []) == DoneBefore(e, s, outs, 0);
  }

  lemma NodesDone(e: Ceremony, s: State, outs: seq<Outcome>) returns (events: seq<Event>)
    requires Wf(e) && Ready(e, s) && AllFit(e, outs)
    ensures Go(e, s, events) == DoneBefore(e, s, outs, e.n)
  {
    var done := (k: nat) => CanBeDone(e, s, outs, k);
    CanBegin(e, s, outs);
    forall k: nat | done(k) && k < e.n
      ensures done(k + 1)
    {
      CanGoOn(e, s, outs, k);
    }
    Climbs(done, 0, e.n);
    events :| Go(e, s, events) == DoneBefore(e, s, outs, e.n);
  }

  // ----- the sessions -----

  ghost predicate Loadable(e: Ceremony, db: Db)
  {
    e.job.kind.Sign? ==> forall i :: 0 <= i < e.n ==> LoadKey(e, i, db).Ok?
  }

  /** What the session of node `i` works with when it is built on this store. */
  function KeyFrom(e: Ceremony, i: nat, db: Db): Option<EngineKey>
  {
    if e.job.kind.Sign? && LoadKey(e, i, db).Ok? then Some(LoadKey(e, i, db).value) else None
  }

  function StaffControl(n: nat, k: nat): W.Control
    requires k < n
  {
    W.Control(W.Fresh, seq(n - 1, w => if w < k then W.Exited(true) else W.Spawned), n - 1 - k, false, [], false)
  }

  /** The sessions of the first `k` workers are built and their goroutines have exited. */
  function Staffed(e: Ceremony, db: Db, k: nat): (s: State)
    requires e.n >= 1 && k < e.n
    ensures Shape(e, s)
  {
    State(StaffControl(e.n, k),
          seq(e.n, i => if 1 <= i <= k then BUILT else ABSENT),
          seq(e.n, i requires 0 <= i < e.n => if 1 <= i <= k then KeyFrom(e, i, db) else None),
          db)
  }

  lemma StaffedNodes(e: Ceremony, db: Db, k: nat)
    requires e.n >= 1 && k + 1 < e.n
    ensures Staffed(e, db, k + 1).nodes == Staffed(e, db, k).nodes[k + 1 := BUILT]
    ensures Staffed(e, db, k + 1).keys == Staffed(e, db, k).keys[k + 1 := KeyFrom(e, k + 1, db)]
  {
  }

  lemma StaffedControl(e: Ceremony, db: Db, k: nat)
    requires e.n >= 1 && k + 1 < e.n
    ensures var c := Staffed(e, db, k).control;
            W.Next(c.(workers := c.workers[k := W.Built]), W.WorkerExits(k)) == Staffed(e, db, k + 1).control
  {
    var c := Staffed(e, db, k).control;
    assert c.workers[k := W.Built][k := W.Exited(true)] == Staffed(e, db, k + 1).control.workers;
  }

  /** A build of a loadable session on a node that has none yet. */
  lemma BuildIs(e: Ceremony, s: State, i: nat)
    requires Shape(e, s) && i < e.n && Loadable(e, s.db) && s.keys[i] == None
    ensures Builds(e, i, s.db, true)
    ensures Build(e, s, i, true) == s.(nodes := s.nodes[i := BUILT], keys := s.keys[i := KeyFrom(e, i, s.db)])
  {
    assert s.keys[i := None] == s.keys;
  }

  lemma StaffOne(e: Ceremony, db: Db, k: nat)
    requires Wf(e) && k + 1 < e.n && Loadable(e, db)
    ensures Next(e, Next(e, Staffed(e, db, k), WorkerBuilds(k, true)), Ctl(W.WorkerExits(k))) == Staffed(e, db, k + 1)
  {
    var s := Staffed(e, db, k);
    NextBuilds(e, s, k, true);
    BuildIs(e, s, k + 1);
    StaffedNodes(e, db, k);
    StaffedControl(e, db, k);
  }

  lemma StaffMore(e: Ceremony, db: Db, k: nat, first: seq<Event>) returns (events: seq<Event>)
    requires Wf(e) && k + 1 < e.n && Loadable(e, db) && Go(e, Init(e, db), first) == Staffed(e, db, k)
    ensures Go(e, Init(e, db), events) == Staffed(e, db, k + 1)
  {
    StaffOne(e, db, k);
    var one := first + [WorkerBuilds(k, true)];
    GoOn(e, Init(e, db), first, WorkerBuilds(k, true));
    GoOn(e, Init(e, db), one, Ctl(W.WorkerExits(k)));
    events := one + [Ctl(W.WorkerExits(k))];
  }

  lemma NobodyStaffed(e: Ceremony, db: Db)
    requires e.n >= 1
    ensures Init(e, db) == Staffed(e, db, 0)
  {
  }

  lemma Staff(e: Ceremony, db: Db) returns (events: seq<Event>)
    requires Wf(e) && Loadable(e, db)
    ensures Go(e, Init(e, db), events) == Staffed(e, db, e.n - 1)
  {
    events := [];
    NobodyStaffed(e, db);
    for k := 0 to e.n - 1
      invariant Go(e, Init(e, db), events) == Staffed(e, db, k)
    {
      events := StaffMore(e, db, k, events);
    }
  }

  /** All sessions are built, and the primary has got past its wait and started. */
  function Opened(e: Ceremony, db: Db): (s: State)
    requires e.n >= 1
    ensures Shape(e, s)
  {
    State(W.Control(W.Running, seq(e.n - 1, _ => W.Exited(true)), 0, true, [], false),
          seq(e.n, i => if i == 0 then STARTED else BUILT),
          seq(e.n, i requires 0 <= i < e.n => KeyFrom(e, i, db)),
          db)
  }

  function OpeningEvents(): seq<Event>
  {
    [PrimaryBuilds(true)] + [Ctl(W.PrimaryWaits)] + [Ctl(W.CloseFinished)] + [Ctl(W.SelectFinished)]
    + [Ctl(W.PrimaryStarts)]
  }

  lemma PrimaryIsBuilt(e: Ceremony, db: Db)
    requires Wf(e) && Loadable(e, db)
    ensures var s := Staffed(e, db, e.n - 1);
            Next(e, s, PrimaryBuilds(true)) ==
            State(s.control.(primary := W.Ready), s.nodes[0 := BUILT], Opened(e, db).keys, db)
  {
    BuildIs(e, Staffed(e, db, e.n - 1), 0);
    AllKeys(e, db);
  }

  lemma AllKeys(e: Ceremony, db: Db)
    requires e.n >= 1
    ensures Staffed(e, db, e.n - 1).keys[0 := KeyFrom(e, 0, db)] == Opened(e, db).keys
  {
  }

  lemma PrimaryIsStarted(e: Ceremony, s: State)
    requires Shape(e, s) && s.nodes[0] == BUILT && s.control.primary == W.Proceeding
    ensures Next(e, s, Ctl(W.PrimaryStarts)) == s.(control := s.control.(primary := W.Running),
                                                   nodes := s.nodes[0 := STARTED])
  {
  }

  lemma Open(e: Ceremony, db: Db)
    requires Wf(e) && Loadable(e, db)
    ensures Go(e, Staffed(e, db, e.n - 1), OpeningEvents()) == Opened(e, db)
  {
    var s := Staffed(e, db, e.n - 1);
    PrimaryIsBuilt(e, db);
    var s1 := State(s.control.(primary := W.Ready), s.nodes[0 := BUILT], Opened(e, db).keys, db);
    GoOn(e, s, [], PrimaryBuilds(true));
    var e1 := [PrimaryBuilds(true)];
    assert [] + e1 == e1;
    var e2 := e1 + [Ctl(W.PrimaryWaits)];
    var e3 := e2 + [Ctl(W.CloseFinished)];
    var e4 := e3 + [Ctl(W.SelectFinished)];
    GoOn(e, s, e1, Ctl(W.PrimaryWaits));
    GoOn(e, s, e2, Ctl(W.CloseFinished));
    GoOn(e, s, e3, Ctl(W.SelectFinished));
    GoOn(e, s, e4, Ctl(W.PrimaryStarts));
    WaitPasses(e, s1);
    var s4 := s1.(control := s1.control.(primary := W.Proceeding, finished := true));
    PrimaryIsStarted(e, s4);
    assert s4.nodes[0 := STARTED] == Opened(e, db).nodes;
  }

  lemma WaitPasses(e: Ceremony, s: State)
    requires Shape(e, s) && s.control.primary == W.Ready && s.control.pending == 0
    ensures Next(e, Next(e, Next(e, s, Ctl(W.PrimaryWaits)), Ctl(W.CloseFinished)), Ctl(W.SelectFinished))
         == s.(control := s.control.(primary := W.Proceeding, finished := true))
  {
  }

  // ----- a whole ceremony -----

  /** The primary has replied, every node has saved its own answer and every waiting process has resumed. */
  ghost predicate Completed(e: Ceremony, s: State, outs: seq<Outcome>)
  {
    && Shape(e, s) && |outs| == e.n
    && s.control.primary == W.Replied
    && forall i :: 0 <= i < e.n ==>
         && Saved(s.nodes[i]) && ResultOf(s.nodes[i]) == Some(outs[i])
         && s.nodes[i].session.value.resumed
  }

  lemma OpenedIsReady(e: Ceremony, db: Db)
    requires e.n >= 1
    ensures Ready(e, Opened(e, db))
  {
  }

  lemma Replies(e: Ceremony, s: State)
    requires Shape(e, s) && s.control.primary == W.Running
    requires s.nodes[0].session.Some? && s.nodes[0].session.value.resumed
    ensures Next(e, s, Ctl(W.PrimaryReplies)) == s.(control := s.control.(primary := W.Replied))
  {
  }

  /** The state in which the primary has replied and all nodes are done. */
  function Ended(e: Ceremony, db: Db, outs: seq<Outcome>): (s: State)
    requires e.n >= 1 && |outs| == e.n
    ensures Shape(e, s)
  {
    var s := DoneBefore(e, Opened(e, db), outs, e.n);
    s.(control := s.control.(primary := W.Replied))
  }

  lemma DoneIsCompleted(e: Ceremony, s: State, outs: seq<Outcome>)
    requires Shape(e, s) && |outs| == e.n && forall i :: 0 <= i < e.n ==> s.nodes[i] == Done(e.job, outs[i])
    ensures Completed(e, s.(control := s.control.(primary := W.Replied)), outs)
  {
  }

  lemma EndedIsCompleted(e: Ceremony, db: Db, outs: seq<Outcome>)
    requires e.n >= 1 && |outs| == e.n
    ensures Completed(e, Ended(e, db, outs), outs)
    ensures Ended(e, db, outs).keys == Opened(e, db).keys
    ensures Next(e, DoneBefore(e, Opened(e, db), outs, e.n), Ctl(W.PrimaryReplies)) == Ended(e, db, outs)
  {
    var s := DoneBefore(e, Opened(e, db), outs, e.n);
    forall i | 0 <= i < e.n
      ensures s.nodes[i] == Done(e.job, outs[i])
    {
      DoneNodes(e, Opened(e, db), outs, e.n, i);
    }
    DoneIsCompleted(e, s, outs);
    DoneElse(e, Opened(e, db), outs);
    Replies(e, s);
  }

  /** From its beginning a ceremony whose shares load can be brought to its end with any answers that fit. */
  lemma Completes(e: Ceremony, db: Db, outs: seq<Outcome>) returns (events: seq<Event>)
    requires Wf(e) && Loadable(e, db) && AllFit(e, outs)
    ensures Go(e, Init(e, db), events) == Ended(e, db, outs)
  {
    var staff := Staff(e, db);
    Open(e, db);
    var opening := Chained(e, Init(e, db), staff, Staffed(e, db, e.n - 1), OpeningEvents(), Opened(e, db));
    OpenedIsReady(e, db);
    var nodes := NodesDone(e, Opened(e, db), outs);
    var done := DoneBefore(e, Opened(e, db), outs, e.n);
    events := Chained(e, Init(e, db), opening, Opened(e, db), nodes, done);
    EndedIsCompleted(e, db, outs);
    GoOn(e, Init(e, db), events, Ctl(W.PrimaryReplies));
    events := events + [Ctl(W.PrimaryReplies)];
  }

  // ----- what is in the store then -----

  predicate NodeHolds(e: Ceremony, db: Db, i: nat, out: Outcome)
  {
    && out.KeyOut? && NodeKey(e.job.hash, i) in db
    && db[NodeKey(e.job.hash, i)] == DkgJson(e.suite, e.secret, out.result)
  }

  lemma OwnNodeStored(e: Ceremony, s: State, i: nat, out: Outcome)
    requires Wf(e) && e.job.kind.Dkg? && Shape(e, s) && i < e.n && out.KeyOut?
    ensures NodeHolds(e, WithDone(e, s, i, out).db, i, out)
  {
  }

  lemma OtherNodeKept(e: Ceremony, s: State, i: nat, out: Outcome, j: nat, other: Outcome)
    requires Wf(e) && e.job.kind.Dkg? && Shape(e, s) && i < j < e.n && NodeHolds(e, s.db, i, out)
    ensures NodeHolds(e, WithDone(e, s, j, other).db, i, out)
  {
    NodeKeyInjective(e.job.hash, i, e.job.hash, j);
  }

  /** When `k` nodes are done and node `i` is among them, its key holds its result. */
  predicate HeldAfter(e: Ceremony, s: State, outs: seq<Outcome>, k: nat, i: nat)
    requires Shape(e, s) && i < |outs| == e.n
  {
    k <= e.n && (i < k ==> NodeHolds(e, DoneBefore(e, s, outs, k).db, i, outs[i]))
  }

  lemma HeldNext(e: Ceremony, s: State, outs: seq<Outcome>, k: nat, i: nat)
    requires Wf(e) && e.job.kind.Dkg? && Shape(e, s) && i < |outs| == e.n && outs[i].KeyOut?
    requires k < e.n && HeldAfter(e, s, outs, k, i)
    ensures HeldAfter(e, s, outs, k + 1, i)
  {
    DoneMore(e, s, outs, k);
    if i == k {
      OwnNodeStored(e, DoneBefore(e, s, outs, k), i, outs[i]);
    } else if i < k {
      OtherNodeKept(e, DoneBefore(e, s, outs, k), i, outs[i], k, outs[k]);
    }
  }

  lemma DkgStored(e: Ceremony, s: State, outs: seq<Outcome>, i: nat)
    requires Wf(e) && e.job.kind.Dkg? && Shape(e, s) && i < |outs| == e.n && outs[i].KeyOut?
    ensures HeldAfter(e, s, outs, e.n, i)
  {
    var held := (k: nat) => HeldAfter(e, s, outs, k, i);
    forall k: nat | held(k) && k < e.n
      ensures held(k + 1)
    {
      HeldNext(e, s, outs, k, i);
    }
    Climbs(held, 0, e.n);
  }

  lemma SignatureStoredLast(e: Ceremony, s: State, outs: seq<Outcome>)
    requires Wf(e) && e.job.kind.Sign? && Shape(e, s) && AllFit(e, outs)
    ensures var db, key, last := DoneBefore(e, s, outs, e.n).db, ToHexHash(e.suite, e.job.message), outs[e.n - 1];
            && key in db
            && db[key] == SignatureJson(RVSignature(HexEncode(ToBytes(last.r)), HexEncode(ToBytes(last.s)), key))
  {
  }

  // ----- in a process with other ceremonies -----

  function Lift(c: nat, events: seq<Event>): (hs: seq<Happening>)
    ensures |hs| == |events|
  {
    seq(|events|, k requires 0 <= k < |events| => Ours(c, events[k]))
  }

  /** After any run, an event of a ceremony is that ceremony's step on the common store, and nothing else. */
  lemma EventIs(site: Site, db: Db, hs: seq<Happening>, c: nat, ev: Event)
    requires Sized(site) && c < |site.ceremonies|
    ensures var w, w' := Live(site, db, hs), Live(site, db, hs + [Ours(c, ev)]);
            && At(w', c) == Next(site.ceremonies[c], At(w, c), ev)
            && forall d :: 0 <= d < |w.states| && d != c ==> w'.states[d] == w.states[d]
  {
    LiveExtend(site, db, hs, Ours(c, ev));
  }

  lemma {:induction false} LiftedRuns(site: Site, db: Db, hs: seq<Happening>, c: nat, events: seq<Event>)
    requires Sized(site) && c < |site.ceremonies|
    ensures var w, w' := Live(site, db, hs), Live(site, db, hs + Lift(c, events));
            && At(w', c) == Go(site.ceremonies[c], At(w, c), events)
            && forall d :: 0 <= d < |w.states| && d != c ==> w'.states[d] == w.states[d]
    decreases |events|
  {
    if events == [] {
      assert hs + Lift(c, []) == hs;
    } else {
      var n := |events| - 1;
      LiftedRuns(site, db, hs, c, events[..n]);
      EventIs(site, db, hs + Lift(c, events[..n]), c, events[n]);
      LiftLast(hs, c, events);
    }
  }

  lemma LiftLast(hs: seq<Happening>, c: nat, events: seq<Event>)
    requires events != []
    ensures var n := |events| - 1;
            hs + Lift(c, events) == hs + Lift(c, events[..n]) + [Ours(c, events[n])]
  {
  }

  /**
    A report that the engine makes to a started session arrives: after any run, on any node of any ceremony, a session
    that has no answer yet has this one afterwards.
   */
  lemma ReportArrives(site: Site, db: Db, hs: seq<Happening>, c: nat, i: nat, out: Option<Outcome>)
    requires Sized(site) && c < |site.ceremonies| && i < site.ceremonies[c].n
    requires Fits(site.ceremonies[c].job, out)
    requires var h := Live(site, db, hs).states[c].nodes[i];
             h.session.Some? && h.session.value.started && h.session.value.callback.Quiet?
    ensures var w' := Live(site, db, hs + [Ours(c, NodeActs(i, Notify(out)))]);
            && ResultOf(w'.states[c].nodes[i]) == out
            && w'.states[c].nodes[i].session.Some?
            && w'.states[c].nodes[i].session.value.callback == Notified(out)
            && w'.db == Live(site, db, hs).db
  {
    var w := Live(site, db, hs);
    EventIs(site, db, hs, c, NodeActs(i, Notify(out)));
    NextActs(site.ceremonies[c], At(w, c), i, Notify(out));
  }

  /** Nothing has happened in the ceremony yet. */
  ghost predicate NotBegun(site: Site, w: World, c: nat)
    requires WorldShape(site, w) && c < |site.ceremonies|
  {
    site.ceremonies[c].n >= 1 && At(w, c) == Init(site.ceremonies[c], w.db)
  }

  /** Key `k` of the store holds this result for a node of a key generation. */
  ghost predicate HoldsResults(e: Ceremony, db: Db, outs: seq<Outcome>)
  {
    |outs| == e.n && forall i :: 0 <= i < e.n ==> NodeHolds(e, db, i, outs[i])
  }

  /** The store holds the last node's signature under the message's hash. */
  ghost predicate HoldsSignature(e: Ceremony, db: Db, outs: seq<Outcome>)
  {
    && |outs| == e.n >= 1 && outs[e.n - 1].SignOut?
    && var key, last := ToHexHash(e.suite, e.job.message), outs[e.n - 1];
    && key in db
    && db[key] == SignatureJson(RVSignature(HexEncode(ToBytes(last.r)), HexEncode(ToBytes(last.s)), key))
  }

  lemma EndedStore(e: Ceremony, db: Db, outs: seq<Outcome>)
    requires Wf(e) && AllFit(e, outs)
    ensures e.job.kind.Dkg? ==> HoldsResults(e, Ended(e, db, outs).db, outs)
    ensures e.job.kind.Sign? ==> HoldsSignature(e, Ended(e, db, outs).db, outs)
  {
    if e.job.kind.Dkg? {
      forall i | 0 <= i < e.n
        ensures NodeHolds(e, Ended(e, db, outs).db, i, outs[i])
      {
        DkgStored(e, Opened(e, db), outs, i);
      }
    } else {
      SignatureStoredLast(e, Opened(e, db), outs);
    }
  }

  /** Between the two worlds the ceremony has come to its end, each session with the share that was there to load. */
  ghost predicate ComesToEnd(site: Site, w: World, w': World, c: nat, outs: seq<Outcome>)
    requires WorldShape(site, w) && WorldShape(site, w') && c < |site.ceremonies|
  {
    var e := site.ceremonies[c];
    && Completed(e, w'.states[c], outs)
    && (forall d :: 0 <= d < |w.states| && d != c ==> w'.states[d] == w.states[d])
    && (e.job.kind.Dkg? ==> HoldsResults(e, w'.db, outs))
    && (e.job.kind.Sign? ==> HoldsSignature(e, w'.db, outs))
    && (e.job.kind.Sign? ==> forall i :: 0 <= i < e.n ==>
          LoadKey(e, i, w.db).Ok? && w'.states[c].keys[i] == Some(LoadKey(e, i, w.db).value))
  }

  /**
    After any run of the process, a ceremony that has not begun, whose shares load from the store as it is, can be
    brought to its end whatever fitting answers the engine gives: some further run ends with every node saved with its
    own answer, the primary's reply given, and the store holding what was generated or signed; all other ceremonies
    are where they were.
   */
  lemma CeremonyCompletes(site: Site, db: Db, hs: seq<Happening>, c: nat, outs: seq<Outcome>)
      returns (more: seq<Happening>)
    requires SiteWf(site) && c < |site.ceremonies| && NotBegun(site, Live(site, db, hs), c)
    requires AllFit(site.ceremonies[c], outs) && Loadable(site.ceremonies[c], Live(site, db, hs).db)
    ensures ComesToEnd(site, Live(site, db, hs), Live(site, db, hs + more), c, outs)
  {
    var e, w := site.ceremonies[c], Live(site, db, hs);
    var events := Completes(e, w.db, outs);
    more := Lift(c, events);
    LiftedRuns(site, db, hs, c, events);
    EndedIsCompleted(e, w.db, outs);
    EndedStore(e, w.db, outs);
  }

  /** Nothing has happened in any ceremony at first. */
  lemma NoneBegun(site: Site, db: Db, c: nat)
    requires Sized(site) && c < |site.ceremonies|
    ensures NotBegun(site, Live(site, db, []), c)
  {
  }

  lemma StillNotBegun(site: Site, w: World, w': World, d: nat)
    requires WorldShape(site, w) && WorldShape(site, w') && d < |site.ceremonies|
    requires NotBegun(site, w, d) && w'.states[d] == w.states[d]
    ensures NotBegun(site, w', d)
  {
    assert At(w', d) == At(w, d).(db := w'.db);
  }

  /** The share of each node loads under the common public key. */
  ghost predicate OneKey(e: Ceremony, outs: seq<Outcome>)
  {
    && e.n <= |outs|
    && forall i :: 0 <= i < e.n ==> outs[i].KeyOut? && CompressedHex(outs[i].result.publicKey) == e.job.pubkey
  }

  lemma GeneratedLoads(g: Ceremony, e: Ceremony, db: Db, outs: seq<Outcome>, i: nat)
    requires Wf(g) && Wf(e) && g.suite == e.suite && g.secret == e.secret && g.job.hash == e.job.hash
    requires HoldsResults(g, db, outs) && OneKey(e, outs) && i < e.n
    ensures LoadKey(e, i, db) == Ok(KeyOf(outs[i].result))
  {
    LoadIs(e, i, db);
    LoadOfStored(e.suite, e.secret, db, NodeKey(e.job.hash, i), outs[i].result, e.job.pubkey);
  }

  lemma GeneratedLoadable(g: Ceremony, e: Ceremony, db: Db, outs: seq<Outcome>)
    requires Wf(g) && Wf(e) && g.suite == e.suite && g.secret == e.secret && g.job.hash == e.job.hash
    requires HoldsResults(g, db, outs) && OneKey(e, outs)
    ensures Loadable(e, db)
    ensures forall i :: 0 <= i < e.n ==> LoadKey(e, i, db) == Ok(KeyOf(outs[i].result))
  {
    forall i | 0 <= i < e.n
      ensures LoadKey(e, i, db) == Ok(KeyOf(outs[i].result))
    {
      GeneratedLoads(g, e, db, outs, i);
    }
  }

  /** Both ceremonies have ended, and the sessions of the signing work with what was generated. */
  ghost predicate SignedWithGenerated(
      site: Site, w: World, c: nat, outs: seq<Outcome>, d: nat, signatures: seq<Outcome>)
    requires WorldShape(site, w) && c < |site.ceremonies| && d < |site.ceremonies|
  {
    var e := site.ceremonies[d];
    && Completed(site.ceremonies[c], w.states[c], outs)
    && Completed(e, w.states[d], signatures)
    && HoldsSignature(e, w.db, signatures)
    && e.n <= |outs|
    && forall i :: 0 <= i < e.n ==> outs[i].KeyOut? && w.states[d].keys[i] == Some(KeyOf(outs[i].result))
  }

  /**
    Keys that are generated can be signed with: after any run, a key generation that ends with one public key and a
    signing under that key, both still to begin, can be brought to their ends one after the other; every session of
    the signing works with exactly the share that its node has generated, and the signature is in the store.
   */
  lemma GenerateThenSign(
      site: Site, db: Db, hs: seq<Happening>, c: nat, outs: seq<Outcome>, d: nat, signatures: seq<Outcome>)
      returns (more: seq<Happening>)
    requires SiteWf(site) && c < |site.ceremonies| && d < |site.ceremonies|
    requires NotBegun(site, Live(site, db, hs), c) && NotBegun(site, Live(site, db, hs), d)
    requires IsDkg(site, c) && site.ceremonies[d].job.kind.Sign?
    requires site.ceremonies[d].job.hash == site.ceremonies[c].job.hash
    requires AllFit(site.ceremonies[c], outs) && AllFit(site.ceremonies[d], signatures)
    requires OneKey(site.ceremonies[d], outs)
    ensures SignedWithGenerated(site, Live(site, db, hs + more), c, outs, d, signatures)
  {
    var generate := CeremonyCompletes(site, db, hs, c, outs);
    AfterGeneration(site, Live(site, db, hs), Live(site, db, hs + generate), c, outs, d);
    var sign := SigningCompletes(site, db, hs + generate, Live(site, db, hs), c, outs, d, signatures);
    more := generate + sign;
    Regroup(hs, generate, sign);
  }

  lemma Regroup(hs: seq<Happening>, a: seq<Happening>, b: seq<Happening>)
    ensures hs + (a + b) == hs + a + b
  {
  }

  lemma SigningCompletes(
      site: Site, db: Db, hs: seq<Happening>, before: World, c: nat, outs: seq<Outcome>, d: nat,
      signatures: seq<Outcome>) returns (more: seq<Happening>)
    requires SiteWf(site) && c < |site.ceremonies| && d < |site.ceremonies| && WorldShape(site, before)
    requires ComesToEnd(site, before, Live(site, db, hs), c, outs) && c != d && site.ceremonies[d].job.kind.Sign?
    requires NotBegun(site, Live(site, db, hs), d) && Loadable(site.ceremonies[d], Live(site, db, hs).db)
    requires AllFit(site.ceremonies[d], signatures)
    requires site.ceremonies[d].n <= |outs| && forall i :: 0 <= i < site.ceremonies[d].n ==>
               outs[i].KeyOut? && LoadKey(site.ceremonies[d], i, Live(site, db, hs).db) == Ok(KeyOf(outs[i].result))
    ensures SignedWithGenerated(site, Live(site, db, hs + more), c, outs, d, signatures)
  {
    more := CeremonyCompletes(site, db, hs, d, signatures);
    BothEnded(site, before, Live(site, db, hs), Live(site, db, hs + more), c, outs, d, signatures);
  }

  lemma BothEnded(
      site: Site, w: World, mid: World, w': World, c: nat, outs: seq<Outcome>, d: nat, signatures: seq<Outcome>)
    requires WorldShape(site, w) && WorldShape(site, mid) && WorldShape(site, w')
    requires c < |site.ceremonies| && d < |site.ceremonies| && c != d && site.ceremonies[d].job.kind.Sign?
    requires ComesToEnd(site, w, mid, c, outs) && ComesToEnd(site, mid, w', d, signatures)
    requires site.ceremonies[d].n <= |outs| && forall i :: 0 <= i < site.ceremonies[d].n ==>
               outs[i].KeyOut? && LoadKey(site.ceremonies[d], i, mid.db) == Ok(KeyOf(outs[i].result))
    ensures SignedWithGenerated(site, w', c, outs, d, signatures)
  {
  }

  lemma AfterGeneration(site: Site, w: World, w': World, c: nat, outs: seq<Outcome>, d: nat)
    requires SiteWf(site) && WorldShape(site, w) && WorldShape(site, w') && c < |site.ceremonies|
    requires d < |site.ceremonies| && IsDkg(site, c) && site.ceremonies[d].job.kind.Sign?
    requires site.ceremonies[d].job.hash == site.ceremonies[c].job.hash && OneKey(site.ceremonies[d], outs)
    requires ComesToEnd(site, w, w', c, outs) && NotBegun(site, w, d)
    ensures NotBegun(site, w', d) && Loadable(site.ceremonies[d], w'.db)
    ensures forall i :: 0 <= i < site.ceremonies[d].n ==>
              LoadKey(site.ceremonies[d], i, w'.db) == Ok(KeyOf(outs[i].result))
  {
    StillNotBegun(site, w, w', d);
    GeneratedLoadable(site.ceremonies[c], site.ceremonies[d], w'.db, outs);
  }

  // ----- who gets a session -----

  /** The share of node `i` is served by the store under its node key and the ceremony's public key, and converts. */
  predicate ShareServed(site: Site, e: Ceremony, i: nat, db: Db)
  {
    Load(Badger(site.suite, site.secret), db, NodeKey(e.job.hash, i), e.job.pubkey).Ok?
  }

  /** One node builds exactly when its engine agrees and, to sign, its own share is served; only that node changes. */
  ghost predicate BuiltIff(e: Ceremony, s: State, s': State, i: nat, can: bool)
  {
    && Shape(e, s) && Shape(e, s') && i < e.n
    && s'.nodes == (if can then s.nodes[i := BUILT] else s.nodes)
    && s'.db == s.db
  }

  lemma WorkerBuildsIff(site: Site, e: Ceremony, s: State, w: nat, engineOk: bool)
    requires Wf(e) && e.suite == site.suite && e.secret == site.secret && Shape(e, s)
    requires w < e.n - 1 && s.control.workers[w] == W.Spawned
    ensures var can := engineOk && (e.job.kind.Sign? ==> ShareServed(site, e, w + 1, s.db));
            var s' := Next(e, s, WorkerBuilds(w, engineOk));
            && BuiltIff(e, s, s', w + 1, can)
            && s'.control.workers[w] == if can then W.Built else W.Erred
  {
    NextBuilds(e, s, w, engineOk);
    LoadIs(e, w + 1, s.db);
  }

  lemma NextPrimary(e: Ceremony, s: State, engineOk: bool)
    requires Shape(e, s) && s.control.primary == W.Fresh
    ensures var s' := Next(e, s, PrimaryBuilds(engineOk));
            if Builds(e, 0, s.db, engineOk)
            then
              && s'.nodes == s.nodes[0 := BUILT] && s'.db == s.db
              && s'.control == s.control.(primary := W.Ready)
            else s' == s.(control := s.control.(primary := W.BuildFailed))
  {
  }

  lemma PrimaryBuildsIff(site: Site, e: Ceremony, s: State, engineOk: bool)
    requires Wf(e) && e.suite == site.suite && e.secret == site.secret && Shape(e, s)
    requires s.control.primary == W.Fresh
    ensures var can := engineOk && (e.job.kind.Sign? ==> ShareServed(site, e, 0, s.db));
            var s' := Next(e, s, PrimaryBuilds(engineOk));
            && BuiltIff(e, s, s', 0, can)
            && s'.control.primary == if can then W.Ready else W.BuildFailed
  {
    NextPrimary(e, s, engineOk);
    LoadIs(e, 0, s.db);
  }

  /**
    After any run, a worker whose goroutine comes to its session builds it exactly when its engine agrees and, to sign,
    the store serves its own share; else it has an error.  The primary goes the same way.
   */
  lemma SessionIff(site: Site, db: Db, hs: seq<Happening>, c: nat, w: nat, engineOk: bool)
    requires SiteWf(site) && c < |site.ceremonies|
    ensures var e, s := site.ceremonies[c], At(Live(site, db, hs), c);
            w < e.n - 1 && s.control.workers[w] == W.Spawned ==>
              var can := engineOk && (e.job.kind.Sign? ==> ShareServed(site, e, w + 1, s.db));
              var s' := At(Live(site, db, hs + [Ours(c, WorkerBuilds(w, engineOk))]), c);
              && BuiltIff(e, s, s', w + 1, can)
              && s'.control.workers[w] == if can then W.Built else W.Erred
    ensures var e, s := site.ceremonies[c], At(Live(site, db, hs), c);
            s.control.primary == W.Fresh ==>
              var can := engineOk && (e.job.kind.Sign? ==> ShareServed(site, e, 0, s.db));
              var s' := At(Live(site, db, hs + [Ours(c, PrimaryBuilds(engineOk))]), c);
              && BuiltIff(e, s, s', 0, can)
              && s'.control.primary == if can then W.Ready else W.BuildFailed
  {
    var e, s := site.ceremonies[c], At(Live(site, db, hs), c);
    EventIs(site, db, hs, c, WorkerBuilds(w, engineOk));
    EventIs(site, db, hs, c, PrimaryBuilds(engineOk));
    if w < e.n - 1 && s.control.workers[w] == W.Spawned {
      WorkerBuildsIff(site, e, s, w, engineOk);
    }
    if s.control.primary == W.Fresh {
      PrimaryBuildsIff(site, e, s, engineOk);
    }
  }

  // ----- how a ceremony is cut short -----

  /** A wait that finds an error in the channel can end with it, and one whose context is cancelled ends with that. */
  lemma WaitEndsEarly(site: Site, db: Db, hs: seq<Happening>, c: nat)
    requires Sized(site) && c < |site.ceremonies|
    requires Live(site, db, hs).states[c].control.primary == W.Waiting
    ensures var errors := Live(site, db, hs).states[c].control.errors;
            && (errors != [] ==>
                  Live(site, db, hs + [Ours(c, Ctl(W.SelectError))]).states[c].control.primary
                  == W.Aborted(Some(errors[0])))
            && Live(site, db, hs + [Ours(c, Ctl(W.SelectCancelled))]).states[c].control.primary == W.Aborted(None)
  {
    EventIs(site, db, hs, c, Ctl(W.SelectError));
    EventIs(site, db, hs, c, Ctl(W.SelectCancelled));
    SelectIs(site.ceremonies[c], At(Live(site, db, hs), c));
  }

  lemma SelectIs(e: Ceremony, s: State)
    requires Shape(e, s) && s.control.primary == W.Waiting
    ensures s.control.errors != [] ==>
              Next(e, s, Ctl(W.SelectError)).control.primary == W.Aborted(Some(s.control.errors[0]))
    ensures Next(e, s, Ctl(W.SelectCancelled)).control.primary == W.Aborted(None)
  {
  }

  /** A worker that cannot build its session, or whose engine refuses, puts its error into the channel. */
  lemma FailureIsSent(site: Site, db: Db, hs: seq<Happening>, c: nat, w: nat, engineOk: bool)
    requires Sized(site) && c < |site.ceremonies| && w < site.ceremonies[c].n - 1
    requires Live(site, db, hs).states[c].control.workers[w] == W.Spawned
    requires |Live(site, db, hs).states[c].control.errors| < site.ceremonies[c].n - 1
    requires !Builds(site.ceremonies[c], w + 1, Live(site, db, hs).db, engineOk)
    ensures var run := hs + [Ours(c, WorkerBuilds(w, engineOk))] + [Ours(c, Ctl(W.WorkerSends(w)))];
            var s' := Live(site, db, run).states[c];
            && s'.control.errors == Live(site, db, hs).states[c].control.errors + [w]
            && s'.nodes == Live(site, db, hs).states[c].nodes
  {
    EventIs(site, db, hs, c, WorkerBuilds(w, engineOk));
    EventIs(site, db, hs + [Ours(c, WorkerBuilds(w, engineOk))], c, Ctl(W.WorkerSends(w)));
    FailureSteps(site.ceremonies[c], At(Live(site, db, hs), c), w, engineOk);
  }

  lemma FailureSteps(e: Ceremony, s: State, w: nat, engineOk: bool)
    requires Shape(e, s) && w < e.n - 1 && s.control.workers[w] == W.Spawned && |s.control.errors| < e.n - 1
    requires !Builds(e, w + 1, s.db, engineOk)
    ensures var s' := Next(e, Next(e, s, WorkerBuilds(w, engineOk)), Ctl(W.WorkerSends(w)));
            s'.control.errors == s.control.errors + [w] && s'.nodes == s.nodes
  {
    NextBuilds(e, s, w, engineOk);
  }

  /** The primary has given up. */
  predicate GivenUp(p: W.Primary)
  {
    p == W.BuildFailed || p.Aborted?
  }

  lemma GivesUpForGood(site: Site, w: World, c: nat, hp: Happening)
    requires WorldShape(site, w) && c < |w.states| && GivenUp(w.states[c].control.primary)
    ensures Then(site, w, hp).states[c].control.primary == w.states[c].control.primary
  {
    if hp.Ours? && hp.c == c {
      var step := ControlNext(site.ceremonies[c], At(w, c), hp.ev);
    }
  }

  predicate PrimaryIs(site: Site, db: Db, hs: seq<Happening>, c: nat, p: W.Primary)
    requires Sized(site) && c < |site.ceremonies|
  {
    Live(site, db, hs).states[c].control.primary == p
  }

  lemma StaysGivenUp(site: Site, db: Db, hs: seq<Happening>, c: nat, p: W.Primary, hp: Happening)
    requires Sized(site) && c < |site.ceremonies| && GivenUp(p) && PrimaryIs(site, db, hs, c, p)
    ensures PrimaryIs(site, db, hs + [hp], c, p)
  {
    LiveExtend(site, db, hs, hp);
    GivesUpForGood(site, Live(site, db, hs), c, hp);
  }

  /**
    A primary whose session could not be built, or whose wait ended with an error or a cancelled context, stays where
    it is whatever happens later, and its engine is never started.
   */
  lemma GivenUpStays(site: Site, db: Db, hs: seq<Happening>, c: nat, more: seq<Happening>)
    requires Sized(site) && c < |site.ceremonies|
    requires GivenUp(Live(site, db, hs).states[c].control.primary)
    ensures Live(site, db, hs + more).states[c].control.primary == Live(site, db, hs).states[c].control.primary
    ensures !EngineRuns(Live(site, db, hs + more).states[c].nodes, 0)
  {
    var p := Live(site, db, hs).states[c].control.primary;
    var stays := (run: seq<Happening>) => PrimaryIs(site, db, run, c, p);
    forall run, hp | stays(run)
      ensures stays(run + [hp])
    {
      StaysGivenUp(site, db, run, c, p, hp);
    }
    Survives(stays, hs, more);
    assert PrimaryIs(site, db, hs + more, c, p);
    EveryCeremonySafe(site, db, hs + more);
    NeverStarted(site.ceremonies[c], Live(site, db, hs + more).states[c]);
  }

  predicate EngineRuns(nodes: seq<Node>, i: nat)
  {
    i < |nodes| && nodes[i].session.Some? && nodes[i].session.value.started
  }

  lemma NeverStarted(e: Ceremony, s: State)
    requires NodesInv(e, s) && GivenUp(s.control.primary)
    ensures !EngineRuns(s.nodes, 0)
  {
  }
}
