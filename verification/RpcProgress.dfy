/** What a ceremony over RPC can always get done: reports arrive, and every ceremony can be brought to its end. */
module RpcProgress {
  import opened Basics
  import opened Records
  import opened Fsm
  import opened BadgerStore
  import opened StoreInterface
  import opened StoreHistory
  import opened Keys
  import opened Session
  import opened RpcHost
  import opened Effects
  import opened FanOut
  import opened TssCaller
  import opened RpcCoordinator
  import opened Numbers
  import Curve
  import R = Requests
  import C = RpcCeremony

  // ----- one session of one host -----

  function ActAll(u: Setup, calls: Calls, i: nat, host: Host, j: nat, acts: seq<Action>): (host': Host)
    requires j < |host.sessions|
    ensures |host'.sessions| == |host.sessions|
  {
    if acts == [] then host
    else ActOn(u, calls, i, ActAll(u, calls, i, host, j, acts[..|acts| - 1]), j, acts[|acts| - 1])
  }

  /** The session and its store go where the session's own actions take them; other sessions stay. */
  ghost predicate Mirrors(host: Host, j: nat, host': Host, h: Node, db: Db)
  {
    && j < |host.sessions| == |host'.sessions|
    && h.session == Some(host'.sessions[j].session) && h.handler == host'.handler && db == host'.db
    && host'.sessions[j].job == host.sessions[j].job
    && forall l :: 0 <= l < |host.sessions| && l != j ==> host'.sessions[l] == host.sessions[l]
  }

  lemma OneAct(u: Setup, calls: Calls, i: nat, host: Host, j: nat, act: Action)
    requires j < |host.sessions|
    ensures var live := host.sessions[j];
            var (h, db) := Act(u.suite, calls, live.job, i, Node(Some(live.session), host.handler), host.db, act);
            Mirrors(host, j, ActOn(u, calls, i, host, j, act), h, db)
  {
  }

  lemma {:induction false} AllActs(u: Setup, calls: Calls, i: nat, host: Host, j: nat, acts: seq<Action>)
    requires j < |host.sessions|
    ensures var live := host.sessions[j];
            var (h, db) :=
              RunActions(u.suite, calls, live.job, i, Node(Some(live.session), host.handler), host.db, acts);
            Mirrors(host, j, ActAll(u, calls, i, host, j, acts), h, db)
  {
    if acts != [] {
      AllActs(u, calls, i, host, j, acts[..|acts| - 1]);
      OneAct(u, calls, i, ActAll(u, calls, i, host, j, acts[..|acts| - 1]), j, acts[|acts| - 1]);
    }
  }

  function Events(i: nat, j: nat, acts: seq<Action>): (events: seq<C.Event>)
    ensures |events| == |acts|
  {
    seq(|acts|, k requires 0 <= k < |acts| => C.Acts(i, j, acts[k]))
  }

  lemma ActsIs(u: Setup, s: C.State, i: nat, j: nat, act: Action)
    requires |s.hosts| == |u.calls| >= 1 && i < |s.hosts| && j < |s.hosts[i].sessions| && (i == 0 ==> !act.Start?)
    ensures C.Next(u, s, C.Acts(i, j, act))
         == s.(hosts := s.hosts[i := ActOn(u, u.calls[i], i, s.hosts[i], j, act)])
  {
  }

  /** After any run, the actions of one session change its host and nothing else. */
  lemma {:induction false} SessionRuns(
      u: Setup, dbs: seq<Db>, events: seq<C.Event>, i: nat, j: nat, acts: seq<Action>)
    requires |dbs| == |u.calls| >= 1 && i < |dbs| && (i == 0 ==> Start !in acts)
    requires j < |C.Run(u, dbs, events).hosts[i].sessions|
    ensures var s := C.Run(u, dbs, events);
            C.Run(u, dbs, events + Events(i, j, acts)) ==
            s.(hosts := s.hosts[i := ActAll(u, u.calls[i], i, s.hosts[i], j, acts)])
    decreases |acts|
  {
    var s := C.Run(u, dbs, events);
    if acts == [] {
      assert events + Events(i, j, acts) == events;
    } else {
      var n := |acts| - 1;
      assert acts[n] in acts && forall a :: a in acts[..n] ==> a in acts;
      SessionRuns(u, dbs, events, i, j, acts[..n]);
      LastEvent(events, i, j, acts);
      C.RunExtend(u, dbs, events + Events(i, j, acts[..n]), C.Acts(i, j, acts[n]));
      ActsLast(u, s, i, j, acts);
    }
  }

  lemma LastEvent(events: seq<C.Event>, i: nat, j: nat, acts: seq<Action>)
    requires acts != []
    ensures var n := |acts| - 1;
            events + Events(i, j, acts) == events + Events(i, j, acts[..n]) + [C.Acts(i, j, acts[n])]
  {
  }

  lemma ActsLast(u: Setup, s: C.State, i: nat, j: nat, acts: seq<Action>)
    requires |s.hosts| == |u.calls| >= 1 && i < |s.hosts| && j < |s.hosts[i].sessions|
    requires acts != [] && (i == 0 ==> !acts[|acts| - 1].Start?)
    ensures var n := |acts| - 1;
            var host := ActAll(u, u.calls[i], i, s.hosts[i], j, acts[..n]);
            var end := ActAll(u, u.calls[i], i, s.hosts[i], j, acts);
            C.Next(u, s.(hosts := s.hosts[i := host]), C.Acts(i, j, acts[n])) == s.(hosts := s.hosts[i := end])
  {
    var n := |acts| - 1;
    var host := ActAll(u, u.calls[i], i, s.hosts[i], j, acts[..n]);
    ActsIs(u, s.(hosts := s.hosts[i := host]), i, j, acts[n]);
    var end := ActAll(u, u.calls[i], i, s.hosts[i], j, acts);
    assert s.hosts[i := host][i := end] == s.hosts[i := end];
  }

  lemma Regroup(events: seq<C.Event>, a: seq<C.Event>, b: seq<C.Event>)
    ensures events + (a + b) == events + a + b
  {
  }

  /**
    A report that the engine makes to a started session arrives: after any run, on any host, a session that has no
    answer yet has this one afterwards.
   */
  lemma ReportArrives(u: Setup, dbs: seq<Db>, events: seq<C.Event>, i: nat, j: nat, out: Option<Outcome>)
    requires |dbs| == |u.calls| >= 1 && i < |dbs| && j < |C.Run(u, dbs, events).hosts[i].sessions|
    requires var live := C.Run(u, dbs, events).hosts[i].sessions[j];
             live.session.started && live.session.callback.Quiet? && Fits(live.job, out)
    ensures var s' := C.Run(u, dbs, events + [C.Acts(i, j, Notify(out))]);
            && j < |s'.hosts[i].sessions|
            && Answer(s'.hosts[i].sessions[j].session) == out
            && s'.hosts[i].sessions[j].session.callback == Notified(out)
            && s'.hosts[i].db == C.Run(u, dbs, events).hosts[i].db
  {
    var s := C.Run(u, dbs, events);
    C.RunExtend(u, dbs, events, C.Acts(i, j, Notify(out)));
    ActsIs(u, s, i, j, Notify(out));
  }

  /** The callback of the session has saved `out` and its process has resumed. */
  predicate SessionDone(live: Seat, out: Outcome)
  {
    live.session == Session(true, Finished(Some(out), true, true), 1, true)
  }

  /** The host's session `j` is done with `out`, its store operation made; the others are as they were. */
  ghost predicate DoneOn(u: Setup, i: nat, host: Host, j: nat, out: Outcome, host': Host)
    requires i < |u.calls|
  {
    && j < |host.sessions| == |host'.sessions|
    && host'.sessions[j].job == host.sessions[j].job && SessionDone(host'.sessions[j], out)
    && host'.db == u.calls[i].apply(host.db, WriteOf(u.suite, host.sessions[j].job, i, out, true)).0
    && forall l :: 0 <= l < |host.sessions| && l != j ==> host'.sessions[l] == host.sessions[l]
  }

  /** A session that has been started and has no answer yet. */
  predicate Waits(live: Seat)
  {
    live.session == Session(true, Quiet, 0, false)
  }

  predicate Takes(u: Setup, i: nat, host: Host, job: Job, out: Outcome)
    requires i < |u.calls|
  {
    Fits(job, Some(out)) && u.calls[i].apply(host.db, WriteOf(u.suite, job, i, out, true)).1.Ok?
  }

  lemma EndsOnHost(u: Setup, i: nat, host: Host, j: nat, out: Outcome)
    requires i < |u.calls| && j < |host.sessions| && Waits(host.sessions[j])
    requires Takes(u, i, host, host.sessions[j].job, out)
    ensures DoneOn(u, i, host, j, out, ActAll(u, u.calls[i], i, host, j, ToTheEnd(out)))
  {
    SessionEnds(u.suite, u.calls[i], host.sessions[j].job, i, host.handler, host.db, out);
    AllActs(u, u.calls[i], i, host, j, ToTheEnd(out));
  }

  /**
    After any run, on any host, a started session without an answer can be given any fitting result that the store
    takes, and brought to its end: it has saved that result, its process has resumed, and no other session and no other
    host has changed.
   */
  lemma SessionCompletes(u: Setup, dbs: seq<Db>, events: seq<C.Event>, i: nat, j: nat, out: Outcome)
      returns (more: seq<C.Event>)
    requires |dbs| == |u.calls| >= 1 && i < |dbs| && j < |C.Run(u, dbs, events).hosts[i].sessions|
    requires var host := C.Run(u, dbs, events).hosts[i];
             Waits(host.sessions[j]) && Takes(u, i, host, host.sessions[j].job, out)
    ensures var s, s' := C.Run(u, dbs, events), C.Run(u, dbs, events + more);
            && DoneOn(u, i, s.hosts[i], j, out, s'.hosts[i])
            && s' == s.(hosts := s.hosts[i := s'.hosts[i]])
  {
    var s := C.Run(u, dbs, events);
    more := Events(i, j, ToTheEnd(out));
    SessionRuns(u, dbs, events, i, j, ToTheEnd(out));
    EndsOnHost(u, i, s.hosts[i], j, out);
  }

  // ----- a whole ceremony -----

  /** A host with one session, just built. */
  predicate HasNew(u: Setup, dbs: seq<Db>, p: nat, host: Host, session: Session)
    requires p < |dbs|
  {
    && |host.sessions| == 1 && host.sessions[0].job == TheJob(u) && host.sessions[0].session == session
    && host.db == dbs[p]
  }

  lemma BuiltHasNew(u: Setup, dbs: seq<Db>, p: nat, host: Host)
    requires p < |dbs| == |u.calls| && IsBuilt(u, dbs, p, host)
    ensures HasNew(u, dbs, p, host, NEW)
  {
  }

  lemma StartedHasNew(u: Setup, dbs: seq<Db>, p: nat, host: Host)
    requires p < |dbs| == |u.calls| && HasNew(u, dbs, p, host, NEW)
    ensures HasNew(u, dbs, p, ActOn(u, u.calls[p], p, host, 0, Start), Session(true, Quiet, 0, false))
  {
  }

  ghost predicate AllTake(u: Setup, dbs: seq<Db>, outs: seq<Outcome>)
  {
    && |outs| == |dbs| == |u.calls|
    && forall p :: 0 <= p < |dbs| ==>
         && Fits(TheJob(u), Some(outs[p]))
         && u.calls[p].apply(dbs[p], WriteOf(u.suite, TheJob(u), p, outs[p], true)).1.Ok?
  }

  /** The host has finished: its one session has saved, and its store is the old one with that one operation. */
  ghost predicate HostDone(u: Setup, dbs: seq<Db>, p: nat, host: Host, out: Outcome)
    requires p < |dbs| == |u.calls|
  {
    && |host.sessions| == 1 && host.sessions[0].job == TheJob(u) && SessionDone(host.sessions[0], out)
    && host.db == u.calls[p].apply(dbs[p], WriteOf(u.suite, TheJob(u), p, out, true)).0
  }

  /** The hosts before `k` have finished, the others have their sessions. */
  ghost predicate DoneUpTo(u: Setup, dbs: seq<Db>, outs: seq<Outcome>, s: C.State, k: nat)
  {
    && |s.hosts| == |dbs| == |u.calls| == |outs| >= 1 && s.phase == C.Running
    && (forall p :: 0 <= p < k && p < |dbs| ==> HostDone(u, dbs, p, s.hosts[p], outs[p]))
    && (forall p :: k <= p < |dbs| ==>
          HasNew(u, dbs, p, s.hosts[p], if p == 0 then Session(true, Quiet, 0, false) else NEW))
  }

  lemma NothingDone(u: Setup, dbs: seq<Db>, outs: seq<Outcome>, s: C.State)
    requires AllBuilt(u, dbs, s) && |outs| == |dbs|
    ensures DoneUpTo(u, dbs, outs, s, 0)
  {
    var host: Host :|
      IsBuilt(u, dbs, 0, host) && |host.sessions| == 1 && s.hosts[0] == ActOn(u, u.calls[0], 0, host, 0, Start);
    BuiltHasNew(u, dbs, 0, host);
    StartedHasNew(u, dbs, 0, host);
    forall p | 1 <= p < |dbs|
      ensures HasNew(u, dbs, p, s.hosts[p], NEW)
    {
      BuiltHasNew(u, dbs, p, s.hosts[p]);
    }
  }

  /** The session of host `p` is started, by now if it was not yet. */
  lemma GetsStarted(u: Setup, dbs: seq<Db>, outs: seq<Outcome>, events: seq<C.Event>, p: nat)
      returns (more: seq<C.Event>)
    requires |dbs| == |u.calls| >= 1 && p < |dbs| && DoneUpTo(u, dbs, outs, C.Run(u, dbs, events), p)
    ensures var s, s' := C.Run(u, dbs, events), C.Run(u, dbs, events + more);
            && HasNew(u, dbs, p, s'.hosts[p], Session(true, Quiet, 0, false))
            && s' == s.(hosts := s.hosts[p := s'.hosts[p]])
  {
    if p == 0 {
      more := [];
      assert events + more == events;
      assert C.Run(u, dbs, events).hosts[0 := C.Run(u, dbs, events).hosts[0]] == C.Run(u, dbs, events).hosts;
    } else {
      more := [C.Acts(p, 0, Start)];
      C.RunExtend(u, dbs, events, C.Acts(p, 0, Start));
      ActsIs(u, C.Run(u, dbs, events), p, 0, Start);
      StartedHasNew(u, dbs, p, C.Run(u, dbs, events).hosts[p]);
    }
  }

  lemma MayTake(u: Setup, dbs: seq<Db>, outs: seq<Outcome>, p: nat, host: Host)
    requires AllTake(u, dbs, outs) && p < |dbs| && HasNew(u, dbs, p, host, Session(true, Quiet, 0, false))
    ensures Waits(host.sessions[0]) && Takes(u, p, host, host.sessions[0].job, outs[p])
  {
  }

  lemma OneMoreDone(u: Setup, dbs: seq<Db>, outs: seq<Outcome>, s: C.State, s1: C.State, s2: C.State, p: nat)
    requires p < |dbs| && DoneUpTo(u, dbs, outs, s, p) && |s1.hosts| == |s2.hosts| == |dbs|
    requires s1 == s.(hosts := s.hosts[p := s1.hosts[p]]) && s2 == s1.(hosts := s1.hosts[p := s2.hosts[p]])
    requires HasNew(u, dbs, p, s1.hosts[p], Session(true, Quiet, 0, false))
    requires DoneOn(u, p, s1.hosts[p], 0, outs[p], s2.hosts[p])
    ensures DoneUpTo(u, dbs, outs, s2, p + 1)
  {
    assert HostDone(u, dbs, p, s2.hosts[p], outs[p]);
  }

  lemma OneHostDone(u: Setup, dbs: seq<Db>, outs: seq<Outcome>, events: seq<C.Event>, p: nat)
      returns (more: seq<C.Event>)
    requires |dbs| == |u.calls| >= 1 && p < |dbs| && AllTake(u, dbs, outs)
    requires DoneUpTo(u, dbs, outs, C.Run(u, dbs, events), p)
    ensures DoneUpTo(u, dbs, outs, C.Run(u, dbs, events + more), p + 1)
  {
    var start := GetsStarted(u, dbs, outs, events, p);
    var s := C.Run(u, dbs, events + start);
    MayTake(u, dbs, outs, p, s.hosts[p]);
    var end := SessionCompletes(u, dbs, events + start, p, 0, outs[p]);
    more := start + end;
    OneMoreDone(u, dbs, outs, C.Run(u, dbs, events), s, C.Run(u, dbs, events + start + end), p);
    Regroup(events, start, end);
  }

  /** From where every host has its session and the coordinator has started, all hosts can be brought to their end. */
  lemma HostsComplete(u: Setup, dbs: seq<Db>, outs: seq<Outcome>, events: seq<C.Event>) returns (more: seq<C.Event>)
    requires |dbs| == |u.calls| >= 1 && AllTake(u, dbs, outs) && AllBuilt(u, dbs, C.Run(u, dbs, events))
    ensures DoneUpTo(u, dbs, outs, C.Run(u, dbs, events + more), |dbs|)
  {
    more := [];
    assert events + [] == events;
    NothingDone(u, dbs, outs, C.Run(u, dbs, events));
    for p := 0 to |dbs|
      invariant DoneUpTo(u, dbs, outs, C.Run(u, dbs, events + more), p)
    {
      var next := OneHostDone(u, dbs, outs, events + more, p);
      Regroup(events, more, next);
      more := more + next;
    }
  }

  // ----- what the hosts serve then -----

  /** What a result leaves in the store of its host; a reshare renews the share of the result that was there. */
  ghost predicate Leaves(u: Setup, dbs: seq<Db>, p: nat, out: Outcome, db: Db)
    requires p < |dbs| == |u.secrets|
  {
    var hash := u.request.hash;
    match out
    case KeyOut(result) =>
      && Config(u.suite, u.secrets[p], db, hash, Curve.CompressedHex(result.publicKey)) == Ok(ConfigOf(result))
    case SignOut(r, s) =>
      var key := ToHexHash(u.suite, u.request.message);
      && key in db
      && db[key] == SignatureJson(RVSignature(HexEncode(ToBytes(r)), HexEncode(ToBytes(s)), key))
    case ShareOut(share) =>
      forall result: DkgResult :: Holds(u.suite, u.secrets[p], dbs[p], hash, Some(Key(result))) ==>
        Config(u.suite, u.secrets[p], db, hash, Curve.CompressedHex(result.publicKey))
        == Ok(ConfigOf(result.(share := share)))
  }

  lemma DoneLeaves(u: Setup, dbs: seq<Db>, p: nat, host: Host, out: Outcome)
    requires Wf(u) && p < |dbs| == |u.calls| && HostDone(u, dbs, p, host, out) && Fits(TheJob(u), Some(out))
    ensures Leaves(u, dbs, p, out, host.db)
  {
    match out
    case KeyOut(result) =>
      ConfigOfStored(u.suite, u.secrets[p], host.db, u.request.hash, result, Curve.CompressedHex(result.publicKey));
    case SignOut(_, _) =>
    case ShareOut(share) =>
      forall result: DkgResult | Holds(u.suite, u.secrets[p], dbs[p], u.request.hash, Some(Key(result)))
        ensures Config(u.suite, u.secrets[p], host.db, u.request.hash, Curve.CompressedHex(result.publicKey))
             == Ok(ConfigOf(result.(share := share)))
      {
        ConfigAfterShare(u.suite, u.secrets[p], u.request.hash, dbs[p], result, true, share);
      }
  }

  /** What key generation and signing write is taken by every store; a reshare needs the store operation to succeed. */
  lemma MostAreTaken(u: Setup, dbs: seq<Db>, outs: seq<Outcome>)
    requires Wf(u) && |outs| == |dbs| == |u.calls| && !u.kind.Reshare?
    requires forall p :: 0 <= p < |dbs| ==> Fits(TheJob(u), Some(outs[p]))
    ensures AllTake(u, dbs, outs)
  {
    forall p | 0 <= p < |dbs|
      ensures u.calls[p].apply(dbs[p], WriteOf(u.suite, TheJob(u), p, outs[p], true)).1.Ok?
    {
      BadgerIsAtomic(u.suite, u.secrets[p]);
    }
  }

  /**
    A ceremony that its caller drives can be brought to its end whatever fitting answers the engines give: the log of
    the coordinator's entry point replays as a run that goes on until every host has saved its own answer and every
    process has resumed, and each store serves what its host has generated, signed or renewed.
   */
  lemma CallerCompletesCeremony(
      u: Setup, dbs: seq<Db>, protocol: Text, ids: seq<Text>, peers: map<Text, Text>, failures: Failures,
      outs: seq<Outcome>) returns (more: seq<C.Event>)
    requires Wf(u) && |dbs| == |u.calls| == |ids| + 1
    requires forall p :: 0 <= p < |dbs| ==> Buildable(u, dbs, p)
    requires |outs| == |dbs| && forall p :: 0 <= p < |dbs| ==> Fits(TheJob(u), Some(outs[p]))
    requires u.kind.Reshare? ==> AllTake(u, dbs, outs)
    ensures var s := C.Run(u, dbs, Replayed(|ids|, Noticed(protocol, OverRpc(ids, peers, failures))) + more);
            && s.phase == C.Running
            && forall p :: 0 <= p < |dbs| ==>
                 && HostDone(u, dbs, p, s.hosts[p], outs[p])
                 && Leaves(u, dbs, p, outs[p], s.hosts[p].db)
  {
    if !u.kind.Reshare? {
      MostAreTaken(u, dbs, outs);
    }
    CallerDrivesCeremony(u, dbs, protocol, ids, peers, failures);
    var events := Replayed(|ids|, Noticed(protocol, OverRpc(ids, peers, failures)));
    more := HostsComplete(u, dbs, outs, events);
    var s := C.Run(u, dbs, events + more);
    forall p | 0 <= p < |dbs|
      ensures HostDone(u, dbs, p, s.hosts[p], outs[p]) && Leaves(u, dbs, p, outs[p], s.hosts[p].db)
    {
      DoneLeaves(u, dbs, p, s.hosts[p], outs[p]);
    }
  }

  // ----- who gets a session -----

  /**
    A host gets a session for a request exactly when its engine agrees and, unless keys are generated, its own store
    serves the share that the request names; the session is new and for that request, and the handler is there.
   */
  lemma SessionIff(u: Setup, i: nat, host: Host, r: R.Request, engineOk: bool)
    requires Wf(u) && i < |u.calls|
    ensures var key := Load(Badger(u.suite, u.secrets[i]), host.db, r.hash, r.pubkey);
            var built := BuildOn(u, u.calls[i], host, r, engineOk);
            && (built.Some? <==> engineOk && (u.kind.Dkg? || key.Ok?))
            && (built.Some? ==>
                  && |built.value.sessions| == |host.sessions| + 1
                  && built.value.sessions[..|host.sessions|] == host.sessions
                  && built.value.handler && built.value.db == host.db && built.value.writes == host.writes
                  && var seat := built.value.sessions[|host.sessions|];
                     && seat.session == NEW && seat.job == JobOf(u.kind, r)
                     && seat.key == if u.kind.Dkg? then None else Some(key.value))
  {
  }

  /** A peer that cannot read the request or build its session answers with an error, and is simply called again. */
  lemma ErrorIsRetried(u: Setup, s: C.State, engineOk: bool, replyArrives: bool)
    requires |s.hosts| == |u.calls| >= 1 && s.phase.Calling? && s.phase.answered < |s.phase.order|
    requires var p := s.phase.order[s.phase.answered];
             p < |s.hosts| && (u.read(u.data).Err? ||
                               BuildOn(u, u.calls[p], s.hosts[p], u.read(u.data).value, engineOk) == None)
    ensures C.Next(u, s, C.PeerServes(engineOk, replyArrives)) == s
  {
  }

  // ----- a coordinator that is refused -----

  predicate RefusedAfter(u: Setup, dbs: seq<Db>, events: seq<C.Event>)
    requires |dbs| == |u.calls| >= 1
  {
    C.Run(u, dbs, events).phase.Refused?
  }

  lemma RefusedNext(u: Setup, dbs: seq<Db>, events: seq<C.Event>, ev: C.Event)
    requires |dbs| == |u.calls| >= 1 && RefusedAfter(u, dbs, events)
    ensures RefusedAfter(u, dbs, events + [ev])
  {
    C.RunExtend(u, dbs, events, ev);
  }

  lemma RefusedStays(u: Setup, dbs: seq<Db>, events: seq<C.Event>, more: seq<C.Event>)
    requires |dbs| == |u.calls| >= 1 && RefusedAfter(u, dbs, events)
    ensures RefusedAfter(u, dbs, events + more)
  {
    var refused := (run: seq<C.Event>) => RefusedAfter(u, dbs, run);
    forall run, ev | refused(run)
      ensures refused(run + [ev])
    {
      RefusedNext(u, dbs, run, ev);
    }
    Survives(refused, events, more);
  }

  /**
    A coordinator that cannot build its session, because its store does not serve the share or the engine refuses, has
    ended its ceremony: whatever happens later, no host ever has a session for it.
   */
  lemma RefusalEndsIt(u: Setup, dbs: seq<Db>, events: seq<C.Event>, engineOk: bool, more: seq<C.Event>)
    requires Wf(u) && |dbs| == |u.calls| && C.Run(u, dbs, events).phase.Idle?
    requires BuildOn(u, u.calls[0], C.Run(u, dbs, events).hosts[0], u.request, engineOk) == None
    ensures var s := C.Run(u, dbs, events + [C.CoordinatorBuilds(engineOk)] + more);
            && s.phase.Refused?
            && forall p :: 0 <= p < |s.hosts| ==> s.hosts[p].sessions == []
  {
    var refused := events + [C.CoordinatorBuilds(engineOk)];
    C.RunExtend(u, dbs, events, C.CoordinatorBuilds(engineOk));
    RefusedStays(u, dbs, refused, more);
    C.RunInv(u, dbs, refused + more);
    NobodyBuilt(u, dbs, C.Run(u, dbs, refused + more));
  }

  lemma NobodyBuilt(u: Setup, dbs: seq<Db>, s: C.State)
    requires C.Inv(u, dbs, s) && s.phase.Refused?
    ensures forall p :: 0 <= p < |s.hosts| ==> s.hosts[p].sessions == []
  {
    assert forall p :: 1 <= p < |s.hosts| ==> C.Fresh(s.hosts[p]);
  }
}
