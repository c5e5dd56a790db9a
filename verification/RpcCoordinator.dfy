/** What a coordinator's entry point does is a run of the ceremony: the log of the one replays as the other. */
module RpcCoordinator {
  import opened Basics
  import opened Effects
  import opened Fsm
  import opened Session
  import opened FanOut
  import opened TssCaller
  import opened RpcHost
  import C = RpcCeremony

  /** The event others see in an effect; a failed attempt is one that never reached its peer. */
  function EventOf(fx: Effect): C.Event
  {
    match fx
    case Listening(_) => C.CoordinatorBuilds(true)
    case Called(_, _, answered) => if answered then C.PeerServes(true, true) else C.CallFails
    case Started => C.Starts
    case Silent(_) => C.CallFails
  }

  function EventsOf(fx: seq<Effect>): (events: seq<C.Event>)
    ensures |events| == |fx|
  {
    seq(|fx|, k requires 0 <= k < |fx| => EventOf(fx[k]))
  }

  /** The peers of host 0 in a ceremony of n+1 hosts. */
  function Order(n: nat): seq<nat>
  {
    seq(n, k => k + 1)
  }

  function Discoveries(n: nat): seq<C.Event>
  {
    if n == 0 then [] else Discoveries(n - 1) + [C.Discovered(n)]
  }

  /** Peers are discovered, then the log is followed, with the snapshot of the peers taken once the host listens. */
  function Replayed(n: nat, fx: seq<Effect>): seq<C.Event>
    requires fx != []
  {
    Discoveries(n) + [EventOf(fx[0])] + [C.TakesPeers(Order(n))] + EventsOf(fx[1..])
  }

  function NewHost(db: Db): Host
  {
    Host([], false, db, [], 0)
  }

  predicate Buildable(u: Setup, dbs: seq<Db>, p: nat)
    requires p < |dbs| == |u.calls|
  {
    BuildOn(u, u.calls[p], NewHost(dbs[p]), u.request, true).Some?
  }

  lemma DiscoveryStep(u: Setup, s: C.State, p: nat)
    requires |s.hosts| == |u.calls| > p >= 1
    ensures C.Next(u, s, C.Discovered(p)) == s.(known := s.known + {p})
  {
  }

  lemma OrderGrows(m: nat, n: nat)
    requires n == m + 1
    ensures (set p | p in Order(n)) == (set p | p in Order(m)) + {n}
  {
    assert Order(n) == Order(m) + [n];
  }

  lemma NextDiscovery(u: Setup, dbs: seq<Db>, m: nat, n: nat)
    requires |u.calls| == |dbs| > n && n == m + 1
    requires C.Run(u, dbs, Discoveries(m)) == C.Init(dbs).(known := set p | p in Order(m))
    ensures C.Run(u, dbs, Discoveries(n)) == C.Init(dbs).(known := set p | p in Order(n))
  {
    C.RunExtend(u, dbs, Discoveries(m), C.Discovered(n));
    DiscoveryStep(u, C.Run(u, dbs, Discoveries(m)), n);
    OrderGrows(m, n);
  }

  lemma {:induction false} AfterDiscoveries(u: Setup, dbs: seq<Db>, n: nat)
    requires |u.calls| == |dbs| > n
    ensures C.Run(u, dbs, Discoveries(n)) == C.Init(dbs).(known := set p | p in Order(n))
  {
    if n > 0 {
      AfterDiscoveries(u, dbs, n - 1);
      NextDiscovery(u, dbs, n - 1, n);
    }
  }

  /** The host has just built its session. */
  predicate IsBuilt(u: Setup, dbs: seq<Db>, p: nat, host: Host)
    requires p < |dbs| == |u.calls|
  {
    BuildOn(u, u.calls[p], NewHost(dbs[p]), u.request, true) == Some(host)
  }

  /** The first `k` peers have answered and the others have not been reached. */
  predicate Midway(u: Setup, dbs: seq<Db>, s: C.State, k: nat)
    requires |dbs| >= 1
  {
    && |s.hosts| == |dbs| == |u.calls|
    && s.phase == C.Calling(Order(|dbs| - 1), k)
    && (forall p :: k < p < |dbs| ==> s.hosts[p] == NewHost(dbs[p]))
    && (forall p :: 0 <= p <= k && p < |dbs| ==> IsBuilt(u, dbs, p, s.hosts[p]))
    && s.hosts[0].sessions != []
  }

  lemma Snapshot(u: Setup, dbs: seq<Db>)
    requires |u.calls| == |dbs| >= 1 && Buildable(u, dbs, 0)
    ensures var n := |dbs| - 1;
            Midway(u, dbs, C.Run(u, dbs, Discoveries(n) + [C.CoordinatorBuilds(true)] + [C.TakesPeers(Order(n))]), 0)
  {
    var n := |dbs| - 1;
    AfterDiscoveries(u, dbs, n);
    C.RunExtend(u, dbs, Discoveries(n), C.CoordinatorBuilds(true));
    C.RunExtend(u, dbs, Discoveries(n) + [C.CoordinatorBuilds(true)], C.TakesPeers(Order(n)));
    BuildAndTake(u, dbs, C.Run(u, dbs, Discoveries(n)), n);
  }

  lemma BuildAndTake(u: Setup, dbs: seq<Db>, s: C.State, n: nat)
    requires |u.calls| == |dbs| == n + 1 && Buildable(u, dbs, 0)
    requires s == C.Init(dbs).(known := set p | p in Order(n))
    ensures Midway(u, dbs, C.Next(u, C.Next(u, s, C.CoordinatorBuilds(true)), C.TakesPeers(Order(n))), 0)
  {
    var built := C.Next(u, s, C.CoordinatorBuilds(true));
    assert built.phase == C.Ready && built.known == s.known;
    assert C.Distinct(Order(n));
  }

  lemma PeerAnswers(u: Setup, dbs: seq<Db>, s: C.State, k: nat)
    requires |dbs| >= 1 && Midway(u, dbs, s, k) && k < |dbs| - 1
    requires u.read(u.data) == Ok(u.request) && Buildable(u, dbs, k + 1)
    ensures Midway(u, dbs, C.Next(u, s, C.PeerServes(true, true)), k + 1)
  {
    assert s.phase.order[k] == k + 1;
  }

  /** A run goes on from the state it has reached. */
  predicate MidwayAfter(u: Setup, dbs: seq<Db>, events: seq<C.Event>, k: nat)
    requires |dbs| == |u.calls| >= 1
  {
    Midway(u, dbs, C.Run(u, dbs, events), k)
  }

  lemma AnswerRuns(u: Setup, dbs: seq<Db>, events: seq<C.Event>, k: nat)
    requires |u.calls| == |dbs| >= 1 && k < |dbs| - 1 && MidwayAfter(u, dbs, events, k)
    requires u.read(u.data) == Ok(u.request) && Buildable(u, dbs, k + 1)
    ensures MidwayAfter(u, dbs, events + [C.PeerServes(true, true)], k + 1)
  {
    C.RunExtend(u, dbs, events, C.PeerServes(true, true));
    PeerAnswers(u, dbs, C.Run(u, dbs, events), k);
  }

  lemma FailureRuns(u: Setup, dbs: seq<Db>, events: seq<C.Event>, k: nat)
    requires |u.calls| == |dbs| >= 1 && MidwayAfter(u, dbs, events, k)
    ensures MidwayAfter(u, dbs, events + [C.CallFails], k)
  {
    C.RunExtend(u, dbs, events, C.CallFails);
  }

  lemma EventsConcat(events: seq<C.Event>, a: seq<Effect>, b: seq<Effect>)
    ensures events + EventsOf(a + b) == events + EventsOf(a) + EventsOf(b)
  {
    assert EventsOf(a + b) == EventsOf(a) + EventsOf(b);
  }

  lemma AttemptsEvents(events: seq<C.Event>, id: Text, target: Text, f: nat)
    ensures events + EventsOf(Attempts(id, target, f)) ==
            if f == 0 then events + [C.PeerServes(true, true)]
            else events + [C.CallFails] + EventsOf(Attempts(id, target, f - 1))
  {
    if f == 0 {
      assert EventsOf(Attempts(id, target, f)) == [C.PeerServes(true, true)];
    } else {
      assert EventsOf([Called(id, target, false)]) == [C.CallFails];
      EventsConcat(events, [Called(id, target, false)], Attempts(id, target, f - 1));
    }
  }

  /** `p(events, k)`: after these events k peers have answered.  A failed attempt keeps it, an answer counts. */
  ghost predicate Counts(p: (seq<C.Event>, nat) -> bool, n: nat)
  {
    && (forall events, k :: p(events, k) ==> p(events + [C.CallFails], k))
    && (forall events, k: nat :: p(events, k) && k < n ==> p(events + [C.PeerServes(true, true)], k + 1))
  }

  lemma {:induction false} AttemptsCountOne(
      p: (seq<C.Event>, nat) -> bool, n: nat, events: seq<C.Event>, k: nat, id: Text, target: Text, f: nat)
    requires Counts(p, n) && p(events, k) && k < n
    ensures p(events + EventsOf(Attempts(id, target, f)), k + 1)
    decreases f
  {
    AttemptsEvents(events, id, target, f);
    if f > 0 {
      AttemptsCountOne(p, n, events + [C.CallFails], k, id, target, f - 1);
    }
  }

  lemma {:induction false} FanOutCounts(
      p: (seq<C.Event>, nat) -> bool, n: nat, events: seq<C.Event>, ids: seq<Text>, peers: map<Text, Text>,
      failures: Failures)
    requires Counts(p, n) && p(events, 0) && |ids| <= n
    ensures p(events + EventsOf(FanOutLog(ids, peers, failures)), |ids|)
  {
    if ids == [] {
      assert events + EventsOf([]) == events;
    } else {
      var last := |ids| - 1;
      var earlier := FanOutLog(ids[..last], peers, failures);
      var target, f := Target(peers, ids[last]), FailuresOf(failures, ids[last]);
      FanOutCounts(p, n, events, ids[..last], peers, failures);
      AttemptsCountOne(p, n, events + EventsOf(earlier), last, ids[last], target, f);
      EventsConcat(events, earlier, Attempts(ids[last], target, f));
    }
  }

  lemma FanOutRuns(
      u: Setup, dbs: seq<Db>, events: seq<C.Event>, ids: seq<Text>, peers: map<Text, Text>, failures: Failures)
    requires |u.calls| == |dbs| >= 1 && |ids| <= |dbs| - 1 && MidwayAfter(u, dbs, events, 0)
    requires u.read(u.data) == Ok(u.request) && forall p :: 1 <= p < |dbs| ==> Buildable(u, dbs, p)
    ensures MidwayAfter(u, dbs, events + EventsOf(FanOutLog(ids, peers, failures)), |ids|)
  {
    var p := (evs: seq<C.Event>, k: nat) => MidwayAfter(u, dbs, evs, k);
    forall evs, k: nat | p(evs, k)
      ensures p(evs + [C.CallFails], k)
      ensures k < |dbs| - 1 ==> p(evs + [C.PeerServes(true, true)], k + 1)
    {
      FailureRuns(u, dbs, evs, k);
      if k < |dbs| - 1 {
        AnswerRuns(u, dbs, evs, k);
      }
    }
    FanOutCounts(p, |dbs| - 1, events, ids, peers, failures);
  }

  lemma DecodesAfter(u: Setup, dbs: seq<Db>, events: seq<C.Event>)
    requires Wf(u) && |dbs| == |u.calls| && MidwayAfter(u, dbs, events, 0)
    ensures u.read(u.data) == Ok(u.request)
  {
    C.RunInv(u, dbs, events);
    C.PeersDecode(u, dbs[0], C.Run(u, dbs, events).hosts[0]);
  }

  /** Up to the snapshot of the peers. */
  function Opening(n: nat): seq<C.Event>
  {
    Discoveries(n) + [C.CoordinatorBuilds(true)] + [C.TakesPeers(Order(n))]
  }

  lemma ReplayedIs(n: nat, protocol: Text, ids: seq<Text>, peers: map<Text, Text>, failures: Failures)
    ensures Replayed(n, Noticed(protocol, OverRpc(ids, peers, failures)))
         == Opening(n) + EventsOf(FanOutLog(ids, peers, failures)) + [C.Starts]
  {
    var log, fx := FanOutLog(ids, peers, failures), Noticed(protocol, OverRpc(ids, peers, failures));
    assert fx[1..] == log + [Started];
    assert EventsOf(fx[1..]) == EventsOf(log) + [C.Starts];
  }

  /** Every host has built its session, and the coordinator's has started. */
  ghost predicate AllBuilt(u: Setup, dbs: seq<Db>, s: C.State)
  {
    && |s.hosts| == |dbs| == |u.calls| >= 1 && s.phase == C.Running
    && s.hosts[0].sessions != []
    && (exists host: Host :: IsBuilt(u, dbs, 0, host) && |host.sessions| == 1
          && s.hosts[0] == ActOn(u, u.calls[0], 0, host, 0, Start))
    && forall p :: 1 <= p < |dbs| ==> IsBuilt(u, dbs, p, s.hosts[p])
  }

  lemma StartsAllBuilt(u: Setup, dbs: seq<Db>, s: C.State)
    requires |dbs| >= 1 && Midway(u, dbs, s, |dbs| - 1)
    ensures AllBuilt(u, dbs, C.Next(u, s, C.Starts))
  {
    assert IsBuilt(u, dbs, 0, s.hosts[0]);
  }

  lemma LastStarts(u: Setup, dbs: seq<Db>, events: seq<C.Event>, before: seq<C.Event>)
    requires |u.calls| == |dbs| >= 1 && events == before + [C.Starts] && MidwayAfter(u, dbs, before, |dbs| - 1)
    ensures events != [] && C.StartedBy(u, dbs, events[..|events| - 1], events[|events| - 1])
    ensures AllBuilt(u, dbs, C.Run(u, dbs, events))
  {
    assert events[..|events| - 1] == before;
    C.RunExtend(u, dbs, before, C.Starts);
    StartsAllBuilt(u, dbs, C.Run(u, dbs, before));
  }

  /**
    A coordinator's entry point drives the ceremony: when every host can build its session, what others notice of the
    coordinator replays as a run in which it starts with the last event and not before.
   */
  lemma CallerDrivesCeremony(
      u: Setup, dbs: seq<Db>, protocol: Text, ids: seq<Text>, peers: map<Text, Text>, failures: Failures)
    requires Wf(u) && |dbs| == |u.calls| == |ids| + 1
    requires forall p :: 0 <= p < |dbs| ==> Buildable(u, dbs, p)
    ensures var events := Replayed(|ids|, Noticed(protocol, OverRpc(ids, peers, failures)));
            && events != []
            && C.StartedBy(u, dbs, events[..|events| - 1], events[|events| - 1])
            && AllBuilt(u, dbs, C.Run(u, dbs, events))
  {
    var n, log := |ids|, FanOutLog(ids, peers, failures);
    Snapshot(u, dbs);
    DecodesAfter(u, dbs, Opening(n));
    FanOutRuns(u, dbs, Opening(n), ids, peers, failures);
    ReplayedIs(n, protocol, ids, peers, failures);
    LastStarts(u, dbs, Replayed(n, Noticed(protocol, OverRpc(ids, peers, failures))), Opening(n) + EventsOf(log));
  }
}
