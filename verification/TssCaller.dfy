/** The entry points of a ceremony on one host: build the session, have the peers called, start the process. */
module TssCaller {
  import opened Basics
  import opened Effects
  import opened Records
  import opened Fsm
  import opened BadgerStore
  import opened StoreInterface
  import opened Session
  import opened Services
  import opened FanOut

  /** The call2peer argument: none on a peer, the fan-out over RPC, or the wait for a self-host cluster's workers. */
  datatype CallToPeers =
    | NoCall
    | OverRpc(ids: seq<Text>, peers: map<Text, Text>, failures: Failures)
    | ForWorkers(fine: bool)

  datatype Reply =
    | Refused                       // no session
    | CallFailed(service: Service)  // the session stays, not started
    | InBackground(service: Service)
    | Awaited(service: Service)     // the caller waits for its channel and asks for its result

  function NoticedCalls(call2peer: CallToPeers): seq<Effect>
  {
    if call2peer.OverRpc? then FanOutLog(call2peer.ids, call2peer.peers, call2peer.failures) else []
  }

  /** What others notice of a caller that could build its session. */
  function Noticed(protocol: Text, call2peer: CallToPeers): seq<Effect>
  {
    [Listening(protocol)] + (NoticedCalls(call2peer) + if call2peer == ForWorkers(false) then [] else [Started])
  }

  lemma NoticedAfter(before: seq<Effect>, protocol: Text, call2peer: CallToPeers)
    ensures before + [Listening(protocol)]
            + (NoticedCalls(call2peer) + if call2peer == ForWorkers(false) then [] else [Started])
         == before + Noticed(protocol, call2peer)
  {
  }

  class Caller {
    const store: BadgerDB

    constructor (store: BadgerDB)
      ensures this.store == store
    {
      this.store := store;
    }

    /** Whether the session of this job can be built: its share is served and converts, and the engine accepts. */
    ghost predicate CanBuild(job: Job, i: nat, engineOk: bool)
      reads store.fsm
    {
      && engineOk
      && (!job.kind.Dkg? ==>
            Load(Badger(store.suite, store.fsm.secret), store.fsm.db, ShareKey(job, i), job.pubkey).Ok?)
    }

    /** The session service of any kind: signing and reshare load and convert their share first. */
    method NewService(job: Job, i: nat, handlers: StreamHandlers, engineOk: bool) returns (service: Option<Service>)
      modifies handlers, handlers.log
      ensures service.Some? <==> old(CanBuild(job, i, engineOk))
      ensures service.Some? ==>
                && fresh(service.value) && service.value.job == job && service.value.store == store
                && service.value.handlers == handlers && service.value.Valid()
                && service.value.View() == BUILT
                && handlers.protocols == old(handlers.protocols) + {HandlerProtocol(store.suite, job, i)}
                && handlers.log.effects == old(handlers.log.effects) + [Listening(HandlerProtocol(store.suite, job, i))]
      ensures service.None? ==>
                handlers.protocols == old(handlers.protocols) && handlers.log.effects == old(handlers.log.effects)
    {
      if !job.kind.Dkg? {
        var cfg := store.GetSignerConfig(ShareKey(job, i), job.pubkey);
        if cfg.Err? {
          return None;
        }
        var key := ConvertDKGResult(cfg.value);
        if key.Err? {
          return None;
        }
      }
      if !engineOk {
        return None;
      }
      var s := new Service(job, i, handlers, store);
      return Some(s);
    }

    /** Calling the call2peer argument when there is one. */
    method CallPeers(call2peer: CallToPeers, log: Log) returns (ok: bool)
      modifies log
      ensures ok <==> call2peer != ForWorkers(false)
      ensures log.effects == old(log.effects) + NoticedCalls(call2peer)
    {
      match call2peer
      case NoCall =>
        return true;
      case OverRpc(ids, peers, failures) =>
        var _ := RpcToPeer(ids, peers, failures, log);
        return true;
      case ForWorkers(fine) =>
        return fine;
    }

    /** What every entry point does with its session: have the peers called, and start unless that failed. */
    method CallAndStart(service: Service, call2peer: CallToPeers) returns (ok: bool)
      requires service.Valid()
      modifies service`session, service.handlers.log
      ensures service.Valid() && service.session == old(service.session).(started := old(service.session).started || ok)
      ensures ok <==> call2peer != ForWorkers(false)
      ensures service.handlers.log.effects ==
              old(service.handlers.log.effects) + (NoticedCalls(call2peer) + if ok then [Started] else [])
    {
      ok := CallPeers(call2peer, service.handlers.log);
      if ok {
        service.Process();
      }
    }

    /**
      SignMessage and RegisterDKG: a peer starts its process in the background and answers at once; a coordinator waits
      for it.  When the call fails the session stays unstarted and its handler registered.
     */
    method Run(job: Job, i: nat, handlers: StreamHandlers, engineOk: bool, call2peer: CallToPeers)
        returns (reply: Reply)
      requires !job.kind.Reshare?
      modifies handlers, handlers.log
      ensures reply.Refused? <==> !old(CanBuild(job, i, engineOk))
      ensures handlers.log.effects ==
              old(handlers.log.effects)
              + if reply.Refused? then [] else Noticed(HandlerProtocol(store.suite, job, i), call2peer)
      ensures handlers.protocols ==
              old(handlers.protocols) + (if reply.Refused? then {} else {HandlerProtocol(store.suite, job, i)})
      ensures !reply.Refused? ==>
                && fresh(reply.service) && reply.service.job == job && reply.service.Valid()
                && reply.service.View() == Node(Some(BUILT.session.value.(started := !reply.CallFailed?)), true)
                && (reply.InBackground? <==> call2peer.NoCall?)
                && (reply.CallFailed? <==> call2peer == ForWorkers(false))
    {
      var service := NewService(job, i, handlers, engineOk);
      if service == None {
        return Refused;
      }
      var ok := CallAndStart(service.value, call2peer);
      NoticedAfter(old(handlers.log.effects), HandlerProtocol(store.suite, job, i), call2peer);
      if !ok {
        return CallFailed(service.value);
      }
      return if call2peer.NoCall? then InBackground(service.value) else Awaited(service.value);
    }

    /** Reshare: even the coordinator leaves its process in the background and answers before the new share exists. */
    method Reshare(job: Job, i: nat, handlers: StreamHandlers, engineOk: bool, call2peer: CallToPeers)
        returns (reply: Reply)
      requires job.kind.Reshare?
      modifies handlers, handlers.log
      ensures reply.Refused? <==> !old(CanBuild(job, i, engineOk))
      ensures handlers.log.effects ==
              old(handlers.log.effects)
              + if reply.Refused? then [] else Noticed(HandlerProtocol(store.suite, job, i), call2peer)
      ensures handlers.protocols ==
              old(handlers.protocols) + (if reply.Refused? then {} else {HandlerProtocol(store.suite, job, i)})
      ensures !reply.Refused? ==>
                && fresh(reply.service) && reply.service.job == job && reply.service.Valid()
                && reply.service.View() == Node(Some(BUILT.session.value.(started := !reply.CallFailed?)), true)
                && !reply.Awaited? && (reply.CallFailed? <==> call2peer == ForWorkers(false))
    {
      var service := NewService(job, i, handlers, engineOk);
      if service == None {
        return Refused;
      }
      var ok := CallAndStart(service.value, call2peer);
      NoticedAfter(old(handlers.log.effects), HandlerProtocol(store.suite, job, i), call2peer);
      if !ok {
        return CallFailed(service.value);
      }
      return InBackground(service.value);
    }
  }

  /** An effect of the fan-out is a call. */
  lemma {:induction false} AttemptsAreCalls(id: Text, target: Text, failures: nat, k: nat)
    requires k < |Attempts(id, target, failures)|
    ensures Attempts(id, target, failures)[k].Called?
  {
    if k > 0 {
      AttemptsAreCalls(id, target, failures - 1, k - 1);
    }
  }

  lemma {:induction false} FanOutIsCalls(ids: seq<Text>, peers: map<Text, Text>, failures: Failures, k: nat)
    requires k < |FanOutLog(ids, peers, failures)|
    ensures FanOutLog(ids, peers, failures)[k].Called?
  {
    var n := |ids| - 1;
    var earlier := FanOutLog(ids[..n], peers, failures);
    if k < |earlier| {
      FanOutIsCalls(ids[..n], peers, failures, k);
    } else {
      AttemptsAreCalls(ids[n], Target(peers, ids[n]), FailuresOf(failures, ids[n]), k - |earlier|);
    }
  }

  /**
    The order of a coordinator over RPC, read off what others notice: the first thing is that it listens, the last that
    it starts; everything between is a call of a known peer at its own address; and by then each peer of the snapshot
    has answered exactly once.
   */
  lemma CoordinatorOrder(
      protocol: Text, ids: seq<Text>, peers: map<Text, Text>, failures: Failures, id: Text)
    requires forall i, j :: 0 <= i < j < |ids| ==> ids[i] != ids[j]
    ensures var fx := Noticed(protocol, OverRpc(ids, peers, failures));
            && |fx| >= 2 && fx[0] == Listening(protocol) && fx[|fx| - 1] == Started
            && (forall k :: 0 < k < |fx| - 1 ==> fx[k].Called?)
            && (AllListed(ids, peers) ==> forall k :: 0 < k < |fx| - 1 ==> Dials(peers, fx[k]))
            && Successes(fx[..|fx| - 1], id) == (if id in ids then 1 else 0)
  {
    var log := FanOutLog(ids, peers, failures);
    var fx := Noticed(protocol, OverRpc(ids, peers, failures));
    forall k | 0 < k < |fx| - 1
      ensures fx[k].Called?
    {
      FanOutIsCalls(ids, peers, failures, k - 1);
      assert fx[k] == log[k - 1];
    }
    if AllListed(ids, peers) {
      FanOutDials(ids, peers, failures);
      assert forall k :: 0 < k < |fx| - 1 ==> fx[k] == log[k - 1];
    }
    assert fx[..|fx| - 1] == [Listening(protocol)] + log;
    assert fx[..|fx| - 1][1..] == log;
    EachPeerAnswersOnce(ids, peers, failures, id);
  }
}
