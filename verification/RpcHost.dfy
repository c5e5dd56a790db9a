/**
  One host of a ceremony over RPC: the sessions built on it, the handler they share, and the history of its store,
  which anything else on the host may use as well.
 */
module RpcHost {
  import opened Basics
  import opened Records
  import opened Curve
  import opened Fsm
  import opened BadgerStore
  import opened StoreInterface
  import opened StoreHistory
  import opened Keys
  import opened Session
  import R = Requests

  /**
    `data` is what the coordinator sends, `secrets` are the host keys, `calls` is how each host reaches its store, and
    `read` is how a peer reads the data.
   */
  datatype Setup = Setup(
    suite: Suite, secrets: seq<Secret>, calls: seq<Calls>,
    kind: Kind, request: R.Request, data: Text, decode: R.Decoder, utf8: Text -> bool, read: Text -> Result<R.Request>)

  /**
    The stores are encrypted ones.  Key generation sends the bare hash, which peers take as it is; signing and
    resharing send a request, which peers unmarshal.
   */
  ghost predicate Wf(u: Setup)
  {
    && |u.calls| == |u.secrets| >= 1
    && (forall i :: 0 <= i < |u.calls| ==> u.calls[i] == Badger(u.suite, u.secrets[i]))
    && (if u.kind.Dkg? then
          u.request == R.Request(u.data, [], []) && u.read(u.data) == Ok(u.request)
        else
          && R.Sends(u.decode, u.utf8, u.request, u.data)
          && u.read(u.data) == R.Unmarshalled(u.decode, u.utf8, u.data, R.EMPTY))
  }

  function JobOf(kind: Kind, r: R.Request): Job
  {
    Job(kind, r.hash, r.pubkey, r.message, false)
  }

  /** The coordinator's job. */
  function TheJob(u: Setup): Job
  {
    JobOf(u.kind, u.request)
  }

  /**
    A session; `born` counts what had been written on its host when it was built, and `ended` what had been written
    when its callback came to its write.
   */
  datatype Seat = Seat(job: Job, key: Option<EngineKey>, session: Session, born: nat, ended: nat)

  /** One operation on a host's store, by a session of this ceremony or by something else. */
  datatype Write = Write(op: StoreOp, writer: Option<nat>)

  /** `writes` is the history of the store, `lost` counts replies that did not arrive. */
  datatype Host = Host(sessions: seq<Seat>, handler: bool, db: Db, writes: seq<Write>, lost: nat)

  const NEW := Session(false, Quiet, 0, false)

  /** The session services: signing and resharing load their share first; the handler is registered last. */
  function BuildOn(u: Setup, calls: Calls, host: Host, r: R.Request, engineOk: bool): Option<Host>
  {
    if !engineOk then None
    else if u.kind.Dkg? then
      Some(host.(sessions := host.sessions + [Seat(JobOf(u.kind, r), None, NEW, |host.writes|, 0)], handler := true))
    else
      match Load(calls, host.db, r.hash, r.pubkey)
      case Err(_) => None
      case Ok(key) =>
        var seat := Seat(JobOf(u.kind, r), Some(key), NEW, |host.writes|, 0);
        Some(host.(sessions := host.sessions + [seat], handler := true))
  }

  predicate SavedSession(s: Session)
  {
    Saved(Node(Some(s), true))
  }

  function Answer(s: Session): Option<Outcome>
  {
    ResultOf(Node(Some(s), true))
  }

  /** One step of one session of a host. */
  function ActOn(u: Setup, calls: Calls, i: nat, host: Host, j: nat, act: Action): Host
    requires j < |host.sessions|
  {
    var live := host.sessions[j];
    var (h, db) := Act(u.suite, calls, live.job, i, Node(Some(live.session), host.handler), host.db, act);
    match h.session
    case None => host
    case Some(s) =>
      var ended := if s.callback.Finished? && !live.session.callback.Finished? then |host.writes| else live.ended;
      Host(host.sessions[j := live.(session := s, ended := ended)], h.handler, db,
           if SavedSession(s) && !SavedSession(live.session)
           then host.writes + [Write(WriteOf(u.suite, live.job, i, Answer(s).value, true), Some(j))]
           else host.writes,
           host.lost)
  }

  function Used(u: Setup, calls: Calls, host: Host, op: StoreOp): Host
  {
    host.(db := calls.apply(host.db, op).0, writes := host.writes + [Write(op, None)])
  }

  // ----- what every host keeps -----

  function Ops(writes: seq<Write>): seq<StoreOp>
  {
    seq(|writes|, k requires 0 <= k < |writes| => writes[k].op)
  }

  /** The store of a host after the first `k` of its writes. */
  function StoreAt(u: Setup, calls: Calls, db: Db, writes: seq<Write>, k: nat): Db
    requires k <= |writes|
  {
    Replay(calls, db, Ops(writes[..k]))
  }

  /** A session is for the coordinator's job and works with the share its own host held when it was built. */
  predicate SeatInv(u: Setup, calls: Calls, db: Db, writes: seq<Write>, live: Seat)
  {
    && live.job == TheJob(u)
    && SessionInv(live.job, live.session)
    && StoredInv(live.job, live.session)
    && live.born <= |writes|
    && (if u.kind.Dkg? then live.key == None
        else live.key.Some? &&
             Load(calls, StoreAt(u, calls, db, writes, live.born), live.job.hash, live.job.pubkey)
             == Ok(live.key.value))
  }

  /** A write of a session of the ceremony is its answer. */
  predicate WriteInv(u: Setup, i: nat, sessions: seq<Seat>, w: Write)
  {
    w.writer.Some? ==>
      && w.writer.value < |sessions|
      && SavedSession(sessions[w.writer.value].session)
      && Answer(sessions[w.writer.value].session).Some?
      && Fits(TheJob(u), Answer(sessions[w.writer.value].session))
      && w.op == WriteOf(u.suite, TheJob(u), i, Answer(sessions[w.writer.value].session).value, true)
  }

  predicate WrittenOnce(writes: seq<Write>)
  {
    forall k, l :: 0 <= k < l < |writes| && writes[k].writer.Some? ==> writes[k].writer != writes[l].writer
  }

  /** Session `j` is one of the writers. */
  predicate HasWritten(writes: seq<Write>, j: nat)
  {
    exists k :: 0 <= k < |writes| && writes[k].writer == Some(j)
  }

  /** Each saved session has written its answer once. */
  predicate WritersInv(u: Setup, i: nat, sessions: seq<Seat>, writes: seq<Write>)
  {
    && WrittenOnce(writes)
    && (forall k :: 0 <= k < |writes| ==> WriteInv(u, i, sessions, writes[k]))
    && (forall j :: 0 <= j < |sessions| && SavedSession(sessions[j].session) ==> HasWritten(writes, j))
  }

  predicate StoreInv(u: Setup, i: nat, calls: Calls, db: Db, host: Host)
  {
    && host.db == Replay(calls, db, Ops(host.writes))
    && WritersInv(u, i, host.sessions, host.writes)
  }

  /** A finished session has saved exactly when its operation succeeded on the store as it was then. */
  predicate EndedInv(u: Setup, i: nat, calls: Calls, db: Db, writes: seq<Write>, live: Seat)
  {
    live.session.callback.Finished? ==>
      live.ended <= |writes| && SavedOn(u, i, calls, live, StoreAt(u, calls, db, writes, live.ended))
  }

  predicate HostInv(u: Setup, i: nat, calls: Calls, db: Db, host: Host)
  {
    && StoreInv(u, i, calls, db, host)
    && (forall j :: 0 <= j < |host.sessions| ==> SeatInv(u, calls, db, host.writes, host.sessions[j]))
    && (forall j :: 0 <= j < |host.sessions| ==> EndedInv(u, i, calls, db, host.writes, host.sessions[j]))
    && (host.sessions != [] && !host.handler ==> HandlerTaken(u, host.sessions))
  }

  /** Some session's terminal callback has removed the handler, which key generation never does. */
  predicate HandlerTaken(u: Setup, sessions: seq<Seat>)
  {
    !u.kind.Dkg? && exists j :: 0 <= j < |sessions| && sessions[j].session.closes == 1
  }

  lemma OpsExtend(u: Setup, calls: Calls, db: Db, writes: seq<Write>, w: Write)
    ensures Replay(calls, db, Ops(writes + [w]))
         == calls.apply(Replay(calls, db, Ops(writes)), w.op).0
  {
    assert Ops(writes + [w])[..|writes|] == Ops(writes);
  }

  /** Later writes do not change what a session was built with. */
  lemma SeatKept(u: Setup, calls: Calls, db: Db, writes: seq<Write>, w: Write, live: Seat)
    requires SeatInv(u, calls, db, writes, live)
    ensures SeatInv(u, calls, db, writes + [w], live)
  {
    assert (writes + [w])[..live.born] == writes[..live.born];
  }

  lemma BuildKeepsStore(u: Setup, i: nat, calls: Calls, db: Db, host: Host, live: Seat, handler: bool, lost: nat)
    requires StoreInv(u, i, calls, db, host) && !SavedSession(live.session)
    ensures StoreInv(u, i, calls, db, Host(host.sessions + [live], handler, host.db, host.writes, lost))
  {
  }

  lemma NewSeat(u: Setup, i: nat, calls: Calls, db: Db, host: Host, key: Option<EngineKey>)
    requires StoreInv(u, i, calls, db, host)
    requires if u.kind.Dkg? then key == None
             else key.Some? && Load(calls, host.db, u.request.hash, u.request.pubkey) == Ok(key.value)
    ensures SeatInv(u, calls, db, host.writes, Seat(TheJob(u), key, NEW, |host.writes|, 0))
  {
    assert host.writes[..|host.writes|] == host.writes;
  }

  lemma BuildKeepsHost(u: Setup, i: nat, calls: Calls, db: Db, host: Host, engineOk: bool, lost: nat)
    requires HostInv(u, i, calls, db, host)
    ensures var built := BuildOn(u, calls, host, u.request, engineOk);
            built.Some? ==>
              && HostInv(u, i, calls, db, built.value.(lost := lost))
              && |built.value.sessions| == |host.sessions| + 1
              && built.value.lost == host.lost
  {
    var built := BuildOn(u, calls, host, u.request, engineOk);
    if built.Some? {
      var live := built.value.sessions[|host.sessions|];
      NewSeat(u, i, calls, db, host, live.key);
      BuildKeepsStore(u, i, calls, db, host, live, true, lost);
    }
  }

  lemma WritersKept(writes: seq<Write>, w: Write, j: nat)
    ensures HasWritten(writes + [w], j) <==> HasWritten(writes, j) || w.writer == Some(j)
  {
    if k :| 0 <= k < |writes| && writes[k].writer == Some(j) {
      assert (writes + [w])[k].writer == Some(j);
    }
    assert (writes + [w])[|writes|] == w;
  }

  /** One more write, by something else or by a session that has just saved and is not yet a writer. */
  lemma WritersExtend(u: Setup, i: nat, sessions: seq<Seat>, writes: seq<Write>, w: Write)
    requires WrittenOnce(writes) && WriteInv(u, i, sessions, w)
    requires forall k :: 0 <= k < |writes| ==> WriteInv(u, i, sessions, writes[k])
    requires w.writer.Some? ==> !HasWritten(writes, w.writer.value)
    requires forall j :: 0 <= j < |sessions| && SavedSession(sessions[j].session) ==>
               HasWritten(writes, j) || w.writer == Some(j)
    ensures WritersInv(u, i, sessions, writes + [w])
  {
    forall j | 0 <= j < |sessions| && SavedSession(sessions[j].session)
      ensures HasWritten(writes + [w], j)
    {
      WritersKept(writes, w, j);
    }
    forall k, l | 0 <= k < l < |writes + [w]| && (writes + [w])[k].writer.Some?
      ensures (writes + [w])[k].writer != (writes + [w])[l].writer
    {
    }
  }

  /** A session that is not saved has not written. */
  lemma UnsavedHasNotWritten(u: Setup, i: nat, sessions: seq<Seat>, writes: seq<Write>, j: nat)
    requires WritersInv(u, i, sessions, writes) && j < |sessions| && !SavedSession(sessions[j].session)
    ensures !HasWritten(writes, j)
  {
    forall k | 0 <= k < |writes|
      ensures writes[k].writer != Some(j)
    {
      assert WriteInv(u, i, sessions, writes[k]);
    }
  }

  /** What was written stays right when a session moves on without changing what it has saved. */
  lemma WritesStay(u: Setup, i: nat, sessions: seq<Seat>, writes: seq<Write>, j: nat, live: Seat)
    requires WritersInv(u, i, sessions, writes) && j < |sessions|
    requires SavedSession(sessions[j].session) ==>
               SavedSession(live.session) && Answer(live.session) == Answer(sessions[j].session)
    ensures forall k :: 0 <= k < |writes| ==> WriteInv(u, i, sessions[j := live], writes[k])
  {
    forall k | 0 <= k < |writes|
      ensures WriteInv(u, i, sessions[j := live], writes[k])
    {
      assert WriteInv(u, i, sessions, writes[k]);
    }
  }

  lemma SeatsKept(u: Setup, calls: Calls, db: Db, writes: seq<Write>, w: Write, sessions: seq<Seat>)
    requires forall j :: 0 <= j < |sessions| ==> SeatInv(u, calls, db, writes, sessions[j])
    ensures forall j :: 0 <= j < |sessions| ==> SeatInv(u, calls, db, writes + [w], sessions[j])
  {
    forall j | 0 <= j < |sessions|
      ensures SeatInv(u, calls, db, writes + [w], sessions[j])
    {
      SeatKept(u, calls, db, writes, w, sessions[j]);
    }
  }

  lemma EndedKept(u: Setup, i: nat, calls: Calls, db: Db, writes: seq<Write>, w: Write, live: Seat)
    requires EndedInv(u, i, calls, db, writes, live)
    ensures EndedInv(u, i, calls, db, writes + [w], live)
  {
    if live.session.callback.Finished? {
      assert (writes + [w])[..live.ended] == writes[..live.ended];
    }
  }

  lemma EndsKept(u: Setup, i: nat, calls: Calls, db: Db, writes: seq<Write>, w: Write, sessions: seq<Seat>)
    requires forall j :: 0 <= j < |sessions| ==> EndedInv(u, i, calls, db, writes, sessions[j])
    ensures forall j :: 0 <= j < |sessions| ==> EndedInv(u, i, calls, db, writes + [w], sessions[j])
  {
    forall j | 0 <= j < |sessions|
      ensures EndedInv(u, i, calls, db, writes + [w], sessions[j])
    {
      EndedKept(u, i, calls, db, writes, w, sessions[j]);
    }
  }

  lemma UseKeepsHost(u: Setup, i: nat, calls: Calls, db: Db, host: Host, op: StoreOp)
    requires HostInv(u, i, calls, db, host)
    ensures HostInv(u, i, calls, db, Used(u, calls, host, op))
  {
    var w := Write(op, None);
    OpsExtend(u, calls, db, host.writes, w);
    WritersExtend(u, i, host.sessions, host.writes, w);
    SeatsKept(u, calls, db, host.writes, w, host.sessions);
    EndsKept(u, i, calls, db, host.writes, w, host.sessions);
  }

  /** A finished callback has saved exactly when there was a result and the store operation on `db` succeeded. */
  predicate SavedOn(u: Setup, i: nat, calls: Calls, live: Seat, db: Db)
    requires live.session.callback.Finished?
  {
    SavedSession(live.session) <==>
    && Answer(live.session).Some?
    && calls.apply(db, WriteOf(u.suite, live.job, i, Answer(live.session).value, live.session.callback.commits)).1.Ok?
  }

  /** A callback comes to its write once, on the store as it is then. */
  predicate EndStep(u: Setup, i: nat, calls: Calls, host: Host, live: Seat, live': Seat)
  {
    if live.session.callback.Finished? then
      live'.ended == live.ended && live'.session.callback == live.session.callback
    else
      live'.session.callback.Finished? ==> live'.ended == |host.writes| && SavedOn(u, i, calls, live', host.db)
  }

  /** What a step of session `j` does to its host. */
  predicate Stepped(u: Setup, i: nat, calls: Calls, host: Host, j: nat, act: Action, host': Host)
  {
    && j < |host.sessions| == |host'.sessions|
    && host'.lost == host.lost
    && var (live, live') := (host.sessions[j], host'.sessions[j]);
       && host'.sessions == host.sessions[j := live']
       && live' == live.(session := live'.session, ended := live'.ended)
       && EndStep(u, i, calls, host, live, live')
       && SessionInv(live.job, live'.session)
       && live.session.closes <= live'.session.closes
       && (live'.session.started <==> live.session.started || act.Start?)
       && (host'.handler ==> host.handler)
       && (host.handler && !host'.handler ==> !live.job.kind.Dkg? && live'.session.closes == 1)
       && (StoredInv(live.job, live.session) ==> StoredInv(live.job, live'.session))
       && (!live.session.callback.Quiet? ==>
             !live'.session.callback.Quiet? && Answer(live'.session) == Answer(live.session))
       && (SavedSession(live.session) ==>
             SavedSession(live'.session) && Answer(live'.session) == Answer(live.session))
       && (if SavedSession(live'.session) && !SavedSession(live.session) then
             && Answer(live'.session).Some?
             && Fits(live.job, Answer(live'.session))
             && var op := WriteOf(u.suite, live.job, i, Answer(live'.session).value, true);
                && host'.writes == host.writes + [Write(op, Some(j))]
                && host'.db == calls.apply(host.db, op).0
           else host'.writes == host.writes && host'.db == host.db)
  }

  lemma ActSteps(u: Setup, i: nat, calls: Calls, host: Host, j: nat, act: Action)
    requires j < |host.sessions| && SessionInv(host.sessions[j].job, host.sessions[j].session)
    requires Atomic(calls)
    ensures Stepped(u, i, calls, host, j, act, ActOn(u, calls, i, host, j, act))
  {
    var live := host.sessions[j];
    ActOnSession(u.suite, calls, live.job, i, live.session, host.handler, host.db, act);
    if StoredInv(live.job, live.session) {
      ActKeepsStored(u.suite, calls, live.job, i, live.session, host.handler, host.db, act);
    }
    ActAndStore(u.suite, calls, live.job, i, Node(Some(live.session), host.handler), host.db, act);
  }

  lemma SaveKeepsWriters(u: Setup, i: nat, sessions: seq<Seat>, writes: seq<Write>, j: nat, live: Seat)
    requires WritersInv(u, i, sessions, writes) && j < |sessions|
    requires !SavedSession(sessions[j].session) && SavedSession(live.session)
    requires Answer(live.session).Some? && Fits(TheJob(u), Answer(live.session))
    ensures var op := WriteOf(u.suite, TheJob(u), i, Answer(live.session).value, true);
            WritersInv(u, i, sessions[j := live], writes + [Write(op, Some(j))])
  {
    var w := Write(WriteOf(u.suite, TheJob(u), i, Answer(live.session).value, true), Some(j));
    UnsavedHasNotWritten(u, i, sessions, writes, j);
    WritesStay(u, i, sessions, writes, j, live);
    WritersExtend(u, i, sessions[j := live], writes, w);
  }

  lemma StepKeepsStore(u: Setup, i: nat, calls: Calls, db: Db, host: Host, j: nat, act: Action, host': Host)
    requires HostInv(u, i, calls, db, host) && Stepped(u, i, calls, host, j, act, host')
    ensures StoreInv(u, i, calls, db, host')
  {
    assert SeatInv(u, calls, db, host.writes, host.sessions[j]);
    var live' := host'.sessions[j];
    if SavedSession(live'.session) && !SavedSession(host.sessions[j].session) {
      var w := Write(WriteOf(u.suite, TheJob(u), i, Answer(live'.session).value, true), Some(j));
      OpsExtend(u, calls, db, host.writes, w);
      SaveKeepsWriters(u, i, host.sessions, host.writes, j, live');
    } else {
      WritesStay(u, i, host.sessions, host.writes, j, live');
    }
  }

  lemma StillTaken(u: Setup, sessions: seq<Seat>, j: nat, live: Seat)
    requires HandlerTaken(u, sessions) && j < |sessions|
    requires sessions[j].session.closes <= live.session.closes <= 1
    ensures HandlerTaken(u, sessions[j := live])
  {
    var l :| 0 <= l < |sessions| && sessions[l].session.closes == 1;
    assert sessions[j := live][l].session.closes == 1;
  }

  /** The handler is there, or some callback has taken it and has closed its channel for good. */
  lemma StepKeepsHandler(u: Setup, i: nat, calls: Calls, db: Db, host: Host, j: nat, act: Action, host': Host)
    requires host.sessions != [] && !host.handler ==> HandlerTaken(u, host.sessions)
    requires Stepped(u, i, calls, host, j, act, host') && host.sessions[j].job == TheJob(u)
    ensures host'.sessions != [] && !host'.handler ==> HandlerTaken(u, host'.sessions)
  {
    if !host'.handler {
      if host.handler {
        assert host'.sessions[j].session.closes == 1;
      } else {
        StillTaken(u, host.sessions, j, host'.sessions[j]);
      }
    }
  }

  lemma StepKeepsSeats(u: Setup, i: nat, calls: Calls, db: Db, host: Host, j: nat, act: Action, host': Host)
    requires HostInv(u, i, calls, db, host) && Stepped(u, i, calls, host, j, act, host')
    ensures forall l :: 0 <= l < |host'.sessions| ==> SeatInv(u, calls, db, host'.writes, host'.sessions[l])
  {
    assert SeatInv(u, calls, db, host.writes, host.sessions[j]);
    assert SeatInv(u, calls, db, host.writes, host'.sessions[j]);
    if host'.writes != host.writes {
      SeatsKept(u, calls, db, host.writes, host'.writes[|host.writes|], host'.sessions);
    }
  }

  /** The session that has just come to its write did so on the store as it is. */
  lemma StepEnds(u: Setup, i: nat, calls: Calls, db: Db, host: Host, live: Seat, live': Seat)
    requires StoreInv(u, i, calls, db, host) && EndedInv(u, i, calls, db, host.writes, live)
    requires live' == live.(session := live'.session, ended := live'.ended) && EndStep(u, i, calls, host, live, live')
    ensures EndedInv(u, i, calls, db, host.writes, live')
  {
    assert host.writes[..|host.writes|] == host.writes;
  }

  lemma StepKeepsEnds(u: Setup, i: nat, calls: Calls, db: Db, host: Host, j: nat, act: Action, host': Host)
    requires HostInv(u, i, calls, db, host) && Stepped(u, i, calls, host, j, act, host')
    ensures forall l :: 0 <= l < |host'.sessions| ==> EndedInv(u, i, calls, db, host'.writes, host'.sessions[l])
  {
    StepEnds(u, i, calls, db, host, host.sessions[j], host'.sessions[j]);
    if host'.writes != host.writes {
      EndsKept(u, i, calls, db, host.writes, host'.writes[|host.writes|], host'.sessions);
    }
  }

  lemma StepKeepsHost(u: Setup, i: nat, calls: Calls, db: Db, host: Host, j: nat, act: Action, host': Host)
    requires HostInv(u, i, calls, db, host) && Stepped(u, i, calls, host, j, act, host')
    ensures HostInv(u, i, calls, db, host')
  {
    assert SeatInv(u, calls, db, host.writes, host.sessions[j]);
    StepKeepsStore(u, i, calls, db, host, j, act, host');
    StepKeepsHandler(u, i, calls, db, host, j, act, host');
    StepKeepsSeats(u, i, calls, db, host, j, act, host');
    StepKeepsEnds(u, i, calls, db, host, j, act, host');
  }
}
