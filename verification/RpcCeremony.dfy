/**
  A ceremony over RPC: n hosts, each with a store of its own.  Host 0 coordinates: it builds its session, sends its
  request to every known peer until each has answered, and only then starts.  A peer decodes the request, builds its
  session inside the call and starts it in the background.  Calls may fail before or after the peer has acted, so a
  retried call may give a peer a second session; peers are discovered at any time; callbacks interleave freely, and
  anything else may use the hosts' stores meanwhile.  A run is any sequence of events.
 */
module RpcCeremony {
  import opened Basics
  import opened Records
  import opened Curve
  import opened Fsm
  import opened BadgerStore
  import opened StoreInterface
  import opened StoreHistory
  import opened Keys
  import opened Session
  import opened RpcHost
  import R = Requests

  datatype Phase =
    | Idle
    | Refused                                  // the coordinator's session could not be built
    | Ready                                    // built
    | Calling(order: seq<nat>, answered: nat)  // PeerIDs() taken; the first `answered` have replied
    | Running                                  // the coordinator's process has been started

  datatype State = State(phase: Phase, known: set<nat>, hosts: seq<Host>)

  datatype Event =
    | CoordinatorBuilds(engineOk: bool)
    | Discovered(p: nat)
    | TakesPeers(order: seq<nat>)
    | PeerServes(engineOk: bool, replyArrives: bool)  // the call in progress reaches its peer
    | CallFails                                       // it does not
    | Starts
    | Acts(i: nat, j: nat, act: Action)               // session j of host i: engine, callback and process steps
    | Elsewhere(i: nat, op: StoreOp)                  // anything else that uses host i's store

  predicate Distinct(order: seq<nat>)
  {
    forall i, j :: 0 <= i < j < |order| ==> order[i] != order[j]
  }

  function Init(dbs: seq<Db>): State
  {
    State(Idle, {}, seq(|dbs|, i requires 0 <= i < |dbs| => Host([], false, dbs[i], [], 0)))
  }

  function Next(u: Setup, s: State, ev: Event): (s': State)
    requires |s.hosts| == |u.calls| >= 1
    ensures |s'.hosts| == |s.hosts|
    ensures s.phase.Running? ==> s'.phase.Running?
    ensures s.phase.Calling? ==> s'.phase.Running? || (s'.phase.Calling? && s'.phase.order == s.phase.order)
  {
    match ev
    case CoordinatorBuilds(engineOk) =>
      if s.phase.Idle? then
        match BuildOn(u, u.calls[0], s.hosts[0], u.request, engineOk)
        case None => s.(phase := Refused)
        case Some(host) => s.(phase := Ready, hosts := s.hosts[0 := host])
      else s
    case Discovered(p) =>
      if 1 <= p < |s.hosts| then s.(known := s.known + {p}) else s
    case TakesPeers(order) =>
      if s.phase.Ready? && Distinct(order) && (set p | p in order) == s.known then s.(phase := Calling(order, 0)) else s
    case PeerServes(engineOk, replyArrives) =>
      if s.phase.Calling? && s.phase.answered < |s.phase.order| && s.phase.order[s.phase.answered] < |s.hosts| then
        Served(u, s, s.phase.order[s.phase.answered], engineOk, replyArrives)
      else s
    case CallFails => s
    case Starts =>
      if s.phase.Calling? && s.phase.answered == |s.phase.order| && s.hosts[0].sessions != [] then
        Acted(u, s.(phase := Running), 0, 0, Start)
      else s
    case Acts(i, j, act) =>
      // The coordinator's process is started by its own event.
      if i < |s.hosts| && j < |s.hosts[i].sessions| && (i == 0 ==> !act.Start?) then
        Acted(u, s, i, j, act)
      else s
    case Elsewhere(i, op) =>
      if i < |s.hosts| then StoreUsed(u, s, i, op) else s
  }

  function Acted(u: Setup, s: State, i: nat, j: nat, act: Action): (s': State)
    requires |s.hosts| == |u.calls| && i < |s.hosts| && j < |s.hosts[i].sessions|
    ensures |s'.hosts| == |s.hosts| && s'.phase == s.phase
  {
    s.(hosts := s.hosts[i := ActOn(u, u.calls[i], i, s.hosts[i], j, act)])
  }

  function StoreUsed(u: Setup, s: State, i: nat, op: StoreOp): (s': State)
    requires |s.hosts| == |u.calls| && i < |s.hosts|
    ensures |s'.hosts| == |s.hosts| && s'.phase == s.phase
  {
    s.(hosts := s.hosts[i := Used(u, u.calls[i], s.hosts[i], op)])
  }

  /** The call reaches peer `p`; a peer that cannot decode or build answers with an error, and is called again. */
  function Served(u: Setup, s: State, p: nat, engineOk: bool, replyArrives: bool): (s': State)
    requires |s.hosts| == |u.calls| && p < |s.hosts| && s.phase.Calling?
    ensures |s'.hosts| == |s.hosts| && s'.phase.Calling? && s'.phase.order == s.phase.order
  {
    match u.read(u.data)
    case Err(_) => s
    case Ok(r) =>
      match BuildOn(u, u.calls[p], s.hosts[p], r, engineOk)
      case None => s
      case Some(host) =>
        if replyArrives then
          s.(hosts := s.hosts[p := host], phase := Calling(s.phase.order, s.phase.answered + 1))
        else
          s.(hosts := s.hosts[p := host.(lost := host.lost + 1)])
  }

  function Run(u: Setup, dbs: seq<Db>, events: seq<Event>): (s: State)
    requires |dbs| == |u.calls| >= 1
    ensures |s.hosts| == |dbs|
  {
    if events == [] then Init(dbs) else Next(u, Run(u, dbs, events[..|events| - 1]), events[|events| - 1])
  }

  // ----- the request -----

  /** The coordinator has built its session, so its own store has served the request, and every peer decodes it. */
  lemma PeersDecode(u: Setup, db: Db, host: Host)
    requires Wf(u) && HostInv(u, 0, u.calls[0], db, host) && host.sessions != []
    ensures u.read(u.data) == Ok(u.request)
  {
    if !u.kind.Dkg? {
      assert SeatInv(u, u.calls[0], db, host.writes, host.sessions[0]);
      var past := StoreAt(u, u.calls[0], db, host.writes, host.sessions[0].born);
      R.RequestAgreement(u.suite, u.secrets[0], past, u.decode, u.utf8, u.request, u.data);
    }
  }

  // ----- the inductive invariant -----

  ghost predicate HostsInv(u: Setup, dbs: seq<Db>, hosts: seq<Host>)
  {
    && |hosts| == |dbs| == |u.calls| >= 1
    && (forall i :: 0 <= i < |dbs| ==> HostInv(u, i, u.calls[i], dbs[i], hosts[i]))
  }

  lemma HostsUpdate(u: Setup, dbs: seq<Db>, hosts: seq<Host>, i: nat, host: Host)
    requires HostsInv(u, dbs, hosts) && i < |hosts| && HostInv(u, i, u.calls[i], dbs[i], host)
    ensures HostsInv(u, dbs, hosts[i := host])
  {
  }

  /** How the coordinator's progress shows on the hosts; `lost` replies each left a session behind. */
  predicate ControlInv(s: State)
    requires |s.hosts| >= 1
  {
    && (forall p :: p in s.known ==> 1 <= p < |s.hosts|)
    && (if s.phase.Idle? || s.phase.Refused? then s.hosts[0].sessions == [] else |s.hosts[0].sessions| == 1)
    && (s.phase.Ready? || s.phase.Calling? ==> !s.hosts[0].sessions[0].session.started)
    && (s.phase.Running? ==> s.hosts[0].sessions[0].session.started)
    && (!s.phase.Calling? && !s.phase.Running? ==> forall p :: 1 <= p < |s.hosts| ==> Fresh(s.hosts[p]))
    && (s.phase.Calling? ==>
          && s.phase.answered <= |s.phase.order|
          && Distinct(s.phase.order)
          && (forall k :: 0 <= k < |s.phase.order| ==>
                && 1 <= s.phase.order[k] < |s.hosts|
                && CalledOften(s.hosts[s.phase.order[k]], k < s.phase.answered)))
  }

  predicate Fresh(host: Host)
  {
    host.sessions == [] && host.lost == 0
  }

  /** A peer has one session for each lost reply, and one more once it has answered. */
  predicate CalledOften(host: Host, answered: bool)
  {
    |host.sessions| == host.lost + (if answered then 1 else 0)
  }

  ghost predicate Inv(u: Setup, dbs: seq<Db>, s: State)
  {
    HostsInv(u, dbs, s.hosts) && ControlInv(s)
  }

  /** A host that changes without a new session or a lost reply keeps the control where it is. */
  lemma HostMoves(s: State, i: nat, host: Host)
    requires |s.hosts| >= 1 && ControlInv(s) && i < |s.hosts|
    requires |host.sessions| == |s.hosts[i].sessions| && host.lost == s.hosts[i].lost
    requires i == 0 && (s.phase.Ready? || s.phase.Calling?) ==> !host.sessions[0].session.started
    requires i == 0 && s.phase.Running? ==> host.sessions[0].session.started
    ensures ControlInv(s.(hosts := s.hosts[i := host]))
  {
  }

  lemma BuildKeepsInv(u: Setup, dbs: seq<Db>, s: State, engineOk: bool)
    requires Inv(u, dbs, s)
    ensures Inv(u, dbs, Next(u, s, CoordinatorBuilds(engineOk)))
  {
    if s.phase.Idle? {
      BuildKeepsHost(u, 0, u.calls[0], dbs[0], s.hosts[0], engineOk, s.hosts[0].lost);
      var built := BuildOn(u, u.calls[0], s.hosts[0], u.request, engineOk);
      if built.Some? {
        HostsUpdate(u, dbs, s.hosts, 0, built.value);
      }
    }
  }

  lemma TakeKeepsInv(u: Setup, dbs: seq<Db>, s: State, order: seq<nat>)
    requires Inv(u, dbs, s)
    ensures Inv(u, dbs, Next(u, s, TakesPeers(order)))
  {
    if s.phase.Ready? && Distinct(order) && (set p | p in order) == s.known {
      forall k | 0 <= k < |order|
        ensures 1 <= order[k] < |s.hosts|
      {
        assert order[k] in s.known;
      }
    }
  }

  /** The peer that is being called gains a session, and answers or loses its reply. */
  lemma ServedControl(s: State, host: Host, replyArrives: bool)
    requires |s.hosts| >= 1 && ControlInv(s) && s.phase.Calling? && s.phase.answered < |s.phase.order|
    requires var before := s.hosts[s.phase.order[s.phase.answered]];
             && |host.sessions| == |before.sessions| + 1
             && host.lost == before.lost + (if replyArrives then 0 else 1)
    ensures var p := s.phase.order[s.phase.answered];
            ControlInv(s.(hosts := s.hosts[p := host],
                          phase := if replyArrives then Calling(s.phase.order, s.phase.answered + 1) else s.phase))
  {
    var k := s.phase.answered;
    var p := s.phase.order[k];
    assert CalledOften(s.hosts[p], false);
    forall l | 0 <= l < |s.phase.order| && l != k
      ensures s.phase.order[l] != p
    {
      assert Distinct(s.phase.order);
    }
  }

  /** The state after the peer being called has become `host`. */
  function PeerBecomes(s: State, host: Host, replyArrives: bool): State
    requires s.phase.Calling? && s.phase.answered < |s.phase.order| && s.phase.order[s.phase.answered] < |s.hosts|
  {
    s.(hosts := s.hosts[s.phase.order[s.phase.answered] := host],
       phase := if replyArrives then Calling(s.phase.order, s.phase.answered + 1) else s.phase)
  }

  lemma ServedIs(u: Setup, s: State, engineOk: bool, replyArrives: bool)
    requires |s.hosts| == |u.calls| && s.phase.Calling? && s.phase.answered < |s.phase.order|
    requires s.phase.order[s.phase.answered] < |s.hosts| && u.read(u.data) == Ok(u.request)
    ensures var p := s.phase.order[s.phase.answered];
            Served(u, s, p, engineOk, replyArrives) ==
            match BuildOn(u, u.calls[p], s.hosts[p], u.request, engineOk)
            case None => s
            case Some(host) =>
              PeerBecomes(s, host.(lost := host.lost + if replyArrives then 0 else 1), replyArrives)
  {
  }

  lemma PeerBecomesInv(u: Setup, dbs: seq<Db>, s: State, host: Host, replyArrives: bool)
    requires Inv(u, dbs, s) && s.phase.Calling? && s.phase.answered < |s.phase.order|
    requires var p := s.phase.order[s.phase.answered];
             && HostInv(u, p, u.calls[p], dbs[p], host)
             && |host.sessions| == |s.hosts[p].sessions| + 1
             && host.lost == s.hosts[p].lost + (if replyArrives then 0 else 1)
    ensures Inv(u, dbs, PeerBecomes(s, host, replyArrives))
  {
    ServedControl(s, host, replyArrives);
    HostsUpdate(u, dbs, s.hosts, s.phase.order[s.phase.answered], host);
  }

  lemma ServeKeepsInv(u: Setup, dbs: seq<Db>, s: State, engineOk: bool, replyArrives: bool)
    requires Inv(u, dbs, s) && s.phase.Calling? && s.phase.answered < |s.phase.order|
    requires u.read(u.data) == Ok(u.request)
    ensures Inv(u, dbs, Served(u, s, s.phase.order[s.phase.answered], engineOk, replyArrives))
  {
    var p := s.phase.order[s.phase.answered];
    var lost := s.hosts[p].lost + if replyArrives then 0 else 1;
    ServedIs(u, s, engineOk, replyArrives);
    BuildKeepsHost(u, p, u.calls[p], dbs[p], s.hosts[p], engineOk, lost);
    var built := BuildOn(u, u.calls[p], s.hosts[p], u.request, engineOk);
    if built.Some? {
      PeerBecomesInv(u, dbs, s, built.value.(lost := lost), replyArrives);
    }
  }

  lemma HostActs(u: Setup, dbs: seq<Db>, hosts: seq<Host>, i: nat, j: nat, act: Action)
    requires Wf(u) && HostsInv(u, dbs, hosts) && i < |hosts| && j < |hosts[i].sessions|
    ensures var host' := ActOn(u, u.calls[i], i, hosts[i], j, act);
            HostInv(u, i, u.calls[i], dbs[i], host') && Stepped(u, i, u.calls[i], hosts[i], j, act, host')
  {
    var host' := ActOn(u, u.calls[i], i, hosts[i], j, act);
    assert SeatInv(u, u.calls[i], dbs[i], hosts[i].writes, hosts[i].sessions[j]);
    BadgerIsAtomic(u.suite, u.secrets[i]);
    ActSteps(u, i, u.calls[i], hosts[i], j, act);
    StepKeepsHost(u, i, u.calls[i], dbs[i], hosts[i], j, act, host');
  }

  lemma StepKeepsInv(u: Setup, dbs: seq<Db>, s: State, i: nat, j: nat, act: Action, host: Host)
    requires Inv(u, dbs, s) && i < |s.hosts| && (i == 0 ==> !act.Start?)
    requires HostInv(u, i, u.calls[i], dbs[i], host) && Stepped(u, i, u.calls[i], s.hosts[i], j, act, host)
    ensures Inv(u, dbs, s.(hosts := s.hosts[i := host]))
  {
    SteppedStarted(u, i, u.calls[i], s.hosts[i], j, act, host);
    HostMoves(s, i, host);
    HostsUpdate(u, dbs, s.hosts, i, host);
  }

  /** A step other than a start leaves the one session of a host as started as it was. */
  lemma SteppedStarted(u: Setup, i: nat, calls: Calls, host: Host, j: nat, act: Action, host': Host)
    requires Stepped(u, i, calls, host, j, act, host')
    ensures |host'.sessions| == |host.sessions| && host'.lost == host.lost
    ensures |host.sessions| == 1 && !act.Start? ==>
              (host'.sessions[0].session.started <==> host.sessions[0].session.started)
  {
  }

  lemma ActKeepsInv(u: Setup, dbs: seq<Db>, s: State, i: nat, j: nat, act: Action)
    requires Wf(u) && Inv(u, dbs, s) && i < |s.hosts| && j < |s.hosts[i].sessions|
    requires i == 0 ==> !act.Start?
    ensures Inv(u, dbs, Acted(u, s, i, j, act))
  {
    HostActs(u, dbs, s.hosts, i, j, act);
    StepKeepsInv(u, dbs, s, i, j, act, ActOn(u, u.calls[i], i, s.hosts[i], j, act));
  }

  /** Passing to Running and starting the session are one step. */
  lemma StartControl(u: Setup, s: State, host: Host)
    requires |s.hosts| >= 1 && ControlInv(s) && StartsNow(s)
    requires |host.sessions| == 1 && host.sessions[0].session.started && host.lost == s.hosts[0].lost
    ensures ControlInv(s.(phase := Running, hosts := s.hosts[0 := host]))
  {
  }

  lemma StartKeepsInv(u: Setup, dbs: seq<Db>, s: State)
    requires Wf(u) && Inv(u, dbs, s) && StartsNow(s)
    ensures Inv(u, dbs, Acted(u, s.(phase := Running), 0, 0, Start))
  {
    var host' := ActOn(u, u.calls[0], 0, s.hosts[0], 0, Start);
    HostActs(u, dbs, s.hosts, 0, 0, Start);
    HostsUpdate(u, dbs, s.hosts, 0, host');
    StartControl(u, s, host');
  }

  lemma UseKeepsInv(u: Setup, dbs: seq<Db>, s: State, i: nat, op: StoreOp)
    requires Inv(u, dbs, s) && i < |s.hosts|
    ensures Inv(u, dbs, StoreUsed(u, s, i, op))
  {
    var host := Used(u, u.calls[i], s.hosts[i], op);
    UseKeepsHost(u, i, u.calls[i], dbs[i], s.hosts[i], op);
    HostMoves(s, i, host);
    HostsUpdate(u, dbs, s.hosts, i, host);
  }

  lemma DiscoveryKeepsInv(u: Setup, dbs: seq<Db>, s: State, p: nat)
    requires Inv(u, dbs, s) && 1 <= p < |s.hosts|
    ensures Inv(u, dbs, s.(known := s.known + {p}))
  {
  }

  lemma CallKeepsInv(u: Setup, dbs: seq<Db>, s: State, engineOk: bool, replyArrives: bool)
    requires Wf(u) && Inv(u, dbs, s)
    ensures Inv(u, dbs, Next(u, s, PeerServes(engineOk, replyArrives)))
  {
    NextServes(u, s, engineOk, replyArrives);
    if s.phase.Calling? && s.phase.answered < |s.phase.order| {
      PeersDecode(u, dbs[0], s.hosts[0]);
      ServeKeepsInv(u, dbs, s, engineOk, replyArrives);
    }
  }

  lemma NextStarts(u: Setup, s: State)
    requires |s.hosts| == |u.calls| >= 1 && ControlInv(s)
    ensures Next(u, s, Starts) == if StartsNow(s) then Acted(u, s.(phase := Running), 0, 0, Start) else s
  {
  }

  lemma NextServes(u: Setup, s: State, engineOk: bool, replyArrives: bool)
    requires |s.hosts| == |u.calls| >= 1 && ControlInv(s)
    ensures Next(u, s, PeerServes(engineOk, replyArrives)) ==
            if s.phase.Calling? && s.phase.answered < |s.phase.order|
            then Served(u, s, s.phase.order[s.phase.answered], engineOk, replyArrives) else s
  {
  }

  lemma StartsKeepsInv(u: Setup, dbs: seq<Db>, s: State)
    requires Wf(u) && Inv(u, dbs, s)
    ensures Inv(u, dbs, Next(u, s, Starts))
  {
    NextStarts(u, s);
    if StartsNow(s) {
      StartKeepsInv(u, dbs, s);
    }
  }

  lemma NextActs(u: Setup, s: State, i: nat, j: nat, act: Action)
    requires |s.hosts| == |u.calls| >= 1
    ensures Next(u, s, Acts(i, j, act)) ==
            if i < |s.hosts| && j < |s.hosts[i].sessions| && (i == 0 ==> !act.Start?) then Acted(u, s, i, j, act) else s
  {
  }

  lemma NextUses(u: Setup, s: State, i: nat, op: StoreOp)
    requires |s.hosts| == |u.calls| >= 1
    ensures Next(u, s, Elsewhere(i, op)) == if i < |s.hosts| then StoreUsed(u, s, i, op) else s
  {
  }

  lemma NextDiscovers(u: Setup, s: State, p: nat)
    requires |s.hosts| == |u.calls| >= 1
    ensures Next(u, s, Discovered(p)) == if 1 <= p < |s.hosts| then s.(known := s.known + {p}) else s
  {
  }

  lemma NextFails(u: Setup, s: State)
    requires |s.hosts| == |u.calls| >= 1
    ensures Next(u, s, CallFails) == s
  {
  }

  lemma ElsewhereKeepsInv(u: Setup, dbs: seq<Db>, s: State, i: nat, op: StoreOp)
    requires Inv(u, dbs, s)
    ensures Inv(u, dbs, Next(u, s, Elsewhere(i, op)))
  {
    NextUses(u, s, i, op);
    if i < |s.hosts| {
      UseKeepsInv(u, dbs, s, i, op);
    }
  }

  lemma DiscoveredKeepsInv(u: Setup, dbs: seq<Db>, s: State, p: nat)
    requires Inv(u, dbs, s)
    ensures Inv(u, dbs, Next(u, s, Discovered(p)))
  {
    NextDiscovers(u, s, p);
    if 1 <= p < |s.hosts| {
      DiscoveryKeepsInv(u, dbs, s, p);
    }
  }

  lemma ActsKeepsInv(u: Setup, dbs: seq<Db>, s: State, i: nat, j: nat, act: Action)
    requires Wf(u) && Inv(u, dbs, s)
    ensures Inv(u, dbs, Next(u, s, Acts(i, j, act)))
  {
    NextActs(u, s, i, j, act);
    if i < |s.hosts| && j < |s.hosts[i].sessions| && (i == 0 ==> !act.Start?) {
      ActKeepsInv(u, dbs, s, i, j, act);
    }
  }

  lemma NextKeepsInv(u: Setup, dbs: seq<Db>, s: State, ev: Event)
    requires Wf(u) && Inv(u, dbs, s)
    ensures Inv(u, dbs, Next(u, s, ev))
  {
    match ev
    case CoordinatorBuilds(engineOk) => BuildKeepsInv(u, dbs, s, engineOk);
    case Discovered(p) => DiscoveredKeepsInv(u, dbs, s, p);
    case TakesPeers(order) => TakeKeepsInv(u, dbs, s, order);
    case PeerServes(engineOk, replyArrives) => CallKeepsInv(u, dbs, s, engineOk, replyArrives);
    case CallFails => NextFails(u, s);
    case Starts => StartsKeepsInv(u, dbs, s);
    case Acts(i, j, act) => ActsKeepsInv(u, dbs, s, i, j, act);
    case Elsewhere(i, op) => ElsewhereKeepsInv(u, dbs, s, i, op);
  }

  lemma InitInv(u: Setup, dbs: seq<Db>)
    requires |dbs| == |u.calls| >= 1
    ensures Inv(u, dbs, Init(dbs))
  {
  }

  lemma {:induction false} RunInv(u: Setup, dbs: seq<Db>, events: seq<Event>)
    requires Wf(u) && |dbs| == |u.calls|
    ensures Inv(u, dbs, Run(u, dbs, events))
  {
    if events == [] {
      InitInv(u, dbs);
    } else {
      RunInv(u, dbs, events[..|events| - 1]);
      NextKeepsInv(u, dbs, Run(u, dbs, events[..|events| - 1]), events[|events| - 1]);
    }
  }

  // ----- order -----

  /** All peers of the snapshot have answered, so the coordinator may start its process. */
  predicate StartsNow(s: State)
  {
    s.phase.Calling? && s.phase.answered == |s.phase.order|
  }

  /** The process starts in no other state and by no other event. */
  lemma StartIsNow(u: Setup, s: State, ev: Event)
    requires |s.hosts| == |u.calls| >= 1 && ControlInv(s)
    ensures !s.phase.Running? && Next(u, s, ev).phase.Running? <==> StartsNow(s) && ev.Starts?
  {
  }

  /** A session exists here, and the handler too unless a terminal callback of the ceremony has removed it. */
  predicate Listens(u: Setup, host: Host)
  {
    host.sessions != [] && (!host.handler ==> HandlerTaken(u, host.sessions))
  }

  lemma HostListens(u: Setup, i: nat, calls: Calls, db: Db, host: Host)
    requires HostInv(u, i, calls, db, host) && host.sessions != []
    ensures Listens(u, host) && SessionInv(TheJob(u), host.sessions[0].session)
  {
    assert SeatInv(u, calls, db, host.writes, host.sessions[0]);
  }

  lemma PeersListen(u: Setup, dbs: seq<Db>, s: State)
    requires Inv(u, dbs, s) && StartsNow(s)
    ensures forall p :: p in s.phase.order ==>
              1 <= p < |s.hosts| && |s.hosts[p].sessions| == s.hosts[p].lost + 1 && Listens(u, s.hosts[p])
  {
    forall p | p in s.phase.order
      ensures 1 <= p < |s.hosts| && |s.hosts[p].sessions| == s.hosts[p].lost + 1 && Listens(u, s.hosts[p])
    {
      var k :| 0 <= k < |s.phase.order| && s.phase.order[k] == p;
      assert CalledOften(s.hosts[p], true);
      HostListens(u, p, u.calls[p], dbs[p], s.hosts[p]);
    }
  }

  lemma UnstartedListens(u: Setup, host: Host)
    requires Listens(u, host) && |host.sessions| == 1 && !host.sessions[0].session.started
    requires SessionInv(TheJob(u), host.sessions[0].session)
    ensures host.handler
  {
  }

  /** Its own session has not started yet, so no callback can have taken its handler. */
  lemma CoordinatorListens(u: Setup, dbs: seq<Db>, s: State)
    requires Wf(u) && Inv(u, dbs, s) && StartsNow(s)
    ensures s.hosts[0].handler && |s.hosts[0].sessions| == 1 && !s.hosts[0].sessions[0].session.started
  {
    var host := s.hosts[0];
    HostListens(u, 0, u.calls[0], dbs[0], host);
    UnstartedListens(u, host);
  }

  /** The event `ev` after these events is the one that starts the coordinator's process. */
  predicate StartedBy(u: Setup, dbs: seq<Db>, events: seq<Event>, ev: Event)
    requires |dbs| == |u.calls| >= 1
  {
    !Run(u, dbs, events).phase.Running? && Run(u, dbs, events + [ev]).phase.Running?
  }

  lemma StartedFrom(u: Setup, dbs: seq<Db>, events: seq<Event>, ev: Event)
    requires Wf(u) && |dbs| == |u.calls| && StartedBy(u, dbs, events, ev)
    ensures ev.Starts? && StartsNow(Run(u, dbs, events)) && Inv(u, dbs, Run(u, dbs, events))
  {
    RunInv(u, dbs, events);
    RunExtend(u, dbs, events, ev);
    StartIsNow(u, Run(u, dbs, events), ev);
  }

  /**
    The coordinator starts last.  Whatever the interleaving, before the event that makes its process run: its own
    handler is registered and its session has not started; each peer of the snapshot has built a session in a call
    whose reply arrived, one more for each reply that was lost; and the peer's handler is registered unless a terminal
    callback of a session on that peer has removed it, which key generation never does.
   */
  lemma CoordinatorStartsLast(u: Setup, dbs: seq<Db>, events: seq<Event>, ev: Event)
    requires Wf(u) && |dbs| == |u.calls| && StartedBy(u, dbs, events, ev)
    ensures var s := Run(u, dbs, events);
            && s.phase.Calling?
            && s.hosts[0].handler && |s.hosts[0].sessions| == 1 && !s.hosts[0].sessions[0].session.started
            && (forall p :: p in s.phase.order ==>
                  1 <= p < |s.hosts| && |s.hosts[p].sessions| == s.hosts[p].lost + 1 && Listens(u, s.hosts[p]))
  {
    StartedFrom(u, dbs, events, ev);
    CoordinatorListens(u, dbs, Run(u, dbs, events));
    PeersListen(u, dbs, Run(u, dbs, events));
  }

  /** No peer is ever touched before the coordinator listens. */
  lemma OwnHandlerFirst(u: Setup, dbs: seq<Db>, events: seq<Event>, p: nat)
    requires Wf(u) && |dbs| == |u.calls|
    requires 1 <= p < |dbs| && Run(u, dbs, events).hosts[p].sessions != []
    ensures var s := Run(u, dbs, events); (s.phase.Calling? || s.phase.Running?) && Listens(u, s.hosts[0])
  {
    RunInv(u, dbs, events);
    assert !Fresh(Run(u, dbs, events).hosts[p]);
  }

  predicate Kept(phase: Phase, order: seq<nat>)
  {
    phase.Running? || (phase.Calling? && phase.order == order)
  }

  predicate KeptAfter(u: Setup, dbs: seq<Db>, events: seq<Event>, order: seq<nat>)
    requires |dbs| == |u.calls| >= 1
  {
    Kept(Run(u, dbs, events).phase, order)
  }

  lemma OrderThen(u: Setup, dbs: seq<Db>, events: seq<Event>, ev: Event, order: seq<nat>)
    requires |dbs| == |u.calls| >= 1 && KeptAfter(u, dbs, events, order)
    ensures KeptAfter(u, dbs, events + [ev], order)
  {
    RunExtend(u, dbs, events, ev);
  }

  lemma OrderStays(u: Setup, dbs: seq<Db>, events: seq<Event>, more: seq<Event>, order: seq<nat>)
    requires |dbs| == |u.calls| >= 1 && KeptAfter(u, dbs, events, order)
    ensures KeptAfter(u, dbs, events + more, order)
  {
    var p := (run: seq<Event>) => KeptAfter(u, dbs, run, order);
    forall run, ev | p(run)
      ensures p(run + [ev])
    {
      OrderThen(u, dbs, run, ev, order);
    }
    Survives(p, events, more);
  }

  lemma RunExtend(u: Setup, dbs: seq<Db>, events: seq<Event>, ev: Event)
    requires |dbs| == |u.calls| >= 1
    ensures Run(u, dbs, events + [ev]) == Next(u, Run(u, dbs, events), ev)
  {
    assert (events + [ev])[..|events|] == events;
  }

  lemma SnapshotHasAll(u: Setup, dbs: seq<Db>, events: seq<Event>, order: seq<nat>, p: nat)
    requires |dbs| == |u.calls| >= 1 && Run(u, dbs, events).phase.Ready? && p in Run(u, dbs, events).known
    requires Run(u, dbs, events + [TakesPeers(order)]).phase.Calling?
    ensures p in order && KeptAfter(u, dbs, events + [TakesPeers(order)], order)
  {
    RunExtend(u, dbs, events, TakesPeers(order));
    assert p in (set q | q in order);
  }

  /** And the snapshot is complete: whoever was known when it was taken has a session when the process starts. */
  lemma KnownPeersAreServed(
      u: Setup, dbs: seq<Db>, events: seq<Event>, order: seq<nat>, more: seq<Event>, ev: Event, p: nat)
    requires Wf(u) && |dbs| == |u.calls|
    requires Run(u, dbs, events).phase.Ready? && p in Run(u, dbs, events).known
    requires Run(u, dbs, events + [TakesPeers(order)]).phase.Calling?
    requires StartedBy(u, dbs, events + [TakesPeers(order)] + more, ev)
    ensures var s := Run(u, dbs, events + [TakesPeers(order)] + more);
            1 <= p < |s.hosts| && |s.hosts[p].sessions| == s.hosts[p].lost + 1 && Listens(u, s.hosts[p])
  {
    SnapshotHasAll(u, dbs, events, order, p);
    OrderStays(u, dbs, events + [TakesPeers(order)], more, order);
    CoordinatorStartsLast(u, dbs, events + [TakesPeers(order)] + more, ev);
  }

  // ----- what the hosts end with -----

  /** Every session on every host is for the coordinator's request, whatever transport carried it. */
  lemma OneRequest(u: Setup, dbs: seq<Db>, events: seq<Event>, i: nat, j: nat)
    requires Wf(u) && |dbs| == |u.calls| && i < |dbs| && j < |Run(u, dbs, events).hosts[i].sessions|
    ensures var live := Run(u, dbs, events).hosts[i].sessions[j];
            live.job == TheJob(u) && SessionInv(TheJob(u), live.session) && u.read(u.data) == Ok(u.request)
  {
    var s := Run(u, dbs, events);
    RunInv(u, dbs, events);
    assert SeatInv(u, u.calls[i], dbs[i], s.hosts[i].writes, s.hosts[i].sessions[j]);
    if i != 0 {
      assert !Fresh(s.hosts[i]);
    }
    PeersDecode(u, dbs[0], s.hosts[0]);
  }

  /**
    Every host's store is the initial one after the operations made on it, in order; each session that has saved has
    written its own answer, exactly once, and nothing else was written by the ceremony; and each signing or reshare
    session works with the share its own host held when it was built.
   */
  lemma HostStores(u: Setup, dbs: seq<Db>, events: seq<Event>, i: nat)
    requires Wf(u) && |dbs| == |u.calls| && i < |dbs|
    ensures var host := Run(u, dbs, events).hosts[i];
            && host.db == Replay(u.calls[i], dbs[i], Ops(host.writes))
            && WrittenOnce(host.writes)
            && (forall k :: 0 <= k < |host.writes| ==> WriteInv(u, i, host.sessions, host.writes[k]))
            && (forall j :: 0 <= j < |host.sessions| ==>
                  && (SavedSession(host.sessions[j].session) <==> HasWritten(host.writes, j))
                  && SeatInv(u, u.calls[i], dbs[i], host.writes, host.sessions[j]))
  {
    var host := Run(u, dbs, events).hosts[i];
    RunInv(u, dbs, events);
    forall j | 0 <= j < |host.sessions|
      ensures SavedSession(host.sessions[j].session) <==> HasWritten(host.writes, j)
    {
      if !SavedSession(host.sessions[j].session) {
        UnsavedHasNotWritten(u, i, host.sessions, host.writes, j);
      }
    }
  }
}
