/**
  The session services as objects: a registered stream handler, a done channel, and the engine's state callback,
  which closes the channel, removes the handler and writes to the store.
 */
module Services {
  import opened Basics
  import opened Effects
  import opened Numbers
  import opened Records
  import opened Fsm
  import opened BadgerStore
  import opened StoreInterface
  import opened StoreHistory
  import opened Keys
  import opened Session

  /** The stream handlers of one libp2p host, by protocol. */
  class StreamHandlers {
    const log: Log
    var protocols: set<Text>

    constructor (log: Log)
      ensures protocols == {} && this.log == log
    {
      this.log := log;
      protocols := {};
    }

    method SetStreamHandler(protocol: Text)
      modifies this, log
      ensures protocols == old(protocols) + {protocol}
      ensures log.effects == old(log.effects) + [Listening(protocol)]
    {
      protocols := protocols + {protocol};
      log.Add(Listening(protocol));
    }

    method RemoveStreamHandler(protocol: Text)
      modifies this, log
      ensures protocols == old(protocols) - {protocol}
      ensures log.effects == old(log.effects) + [Silent(protocol)]
    {
      protocols := protocols - {protocol};
      log.Add(Silent(protocol));
    }
  }

  datatype MainState = Init | Failed | Done

  /** The protocol the handler of node `i` is registered under. */
  function HandlerProtocol(suite: Suite, job: Job, i: nat): Text
  {
    if job.kind.Dkg? then DkgHandlerProtocol(ResultKey(suite, job, i)) else Protocol(ResultKey(suite, job, i))
  }

  /** The callback of a session in one piece: its steps in a row. */
  function CallbackRun(
      suite: Suite, calls: Calls, job: Job, i: nat, h: Node, db: Db, out: Option<Outcome>, commits: bool): (Node, Db)
  {
    var h1 := Act(suite, calls, job, i, h, db, Notify(out)).0;
    var h2 := Act(suite, calls, job, i, h1, db, CloseDone).0;
    var h3 := Act(suite, calls, job, i, h2, db, RemoveHandler).0;
    Act(suite, calls, job, i, h3, db, Store(commits))
  }

  /** What that comes to for a session that has started and not been reported to. */
  function AfterCallback(
      suite: Suite, calls: Calls, job: Job, i: nat, h: Node, db: Db, out: Option<Outcome>, commits: bool): (Node, Db)
    requires h.session.Some?
  {
    var (db', r) :=
      if out == None then (db, Err(CommitFailed)) else calls.apply(db, WriteOf(suite, job, i, out.value, commits));
    var session := Session(true, Finished(out, commits, r.Ok?), 1, h.session.value.resumed);
    (Node(Some(session), h.handler && job.kind.Dkg?), db')
  }

  /** The steps in a row are the callback. */
  lemma CallbackSteps(
      suite: Suite, calls: Calls, job: Job, i: nat, h: Node, db: Db, out: Option<Outcome>, commits: bool)
    requires Fits(job, out) && h.session.Some? && SessionInv(job, h.session.value)
    requires h.session.value.started && h.session.value.callback.Quiet?
    ensures CallbackRun(suite, calls, job, i, h, db, out, commits)
         == AfterCallback(suite, calls, job, i, h, db, out, commits)
  {
  }

  /** A Dkg, Signer or Reshare service; `hash` is the key its result is written to. */
  class Service {
    const job: Job
    const node: nat
    const hash: Text
    const handlers: StreamHandlers
    const store: BadgerDB
    var closed: bool
    ghost var session: Session

    /** The channel is closed exactly when the session says so. */
    ghost predicate Valid()
      reads this
    {
      && hash == ResultKey(store.suite, job, node)
      && SessionInv(job, session)
      && (closed <==> session.closes == 1)
    }

    /** The service as a node of a ceremony. */
    ghost function View(): Node
      reads this, handlers
    {
      Node(Some(session), HandlerProtocol(store.suite, job, node) in handlers.protocols)
    }

    constructor (job: Job, node: nat, handlers: StreamHandlers, store: BadgerDB)
      modifies handlers, handlers.log
      ensures this.job == job && this.node == node && this.handlers == handlers && this.store == store
      ensures Valid() && !closed && View() == BUILT
      ensures handlers.protocols == old(handlers.protocols) + {HandlerProtocol(store.suite, job, node)}
      ensures handlers.log.effects == old(handlers.log.effects) + [Listening(HandlerProtocol(store.suite, job, node))]
    {
      this.job, this.node, this.handlers, this.store := job, node, handlers, store;
      this.hash := ResultKey(store.suite, job, node);
      this.closed := false;
      this.session := BUILT.session.value;
      new;
      if job.kind.Dkg? {
        var protocol := Protocol(hash);
        if DASH in hash {
          protocol := Protocol(BeforeDash(hash));
        }
        handlers.SetStreamHandler(protocol);
      } else {
        handlers.SetStreamHandler(Protocol(hash));
      }
    }

    /** Closing a closed channel panics, so this is called at most once. */
    method CloseDone()
      requires !closed
      modifies this`closed, handlers, handlers.log
      ensures handlers.log.effects == old(handlers.log.effects) + [Silent(Protocol(hash))]
      ensures closed && handlers.protocols == old(handlers.protocols) - {Protocol(hash)}
    {
      closed := true;
      handlers.RemoveStreamHandler(Protocol(hash));
    }

    /** The part of Process before its wait on the channel. */
    method Process()
      requires Valid()
      modifies this`session, handlers.log
      ensures Valid() && session == old(session).(started := true)
      ensures handlers.log.effects == old(handlers.log.effects) + [Started]
    {
      session := session.(started := true);
      handlers.log.Add(Started);
    }

    /** The write of a result that the engine has given. */
    method StoreResult(result: Outcome, commits: bool) returns (r: Result<()>)
      requires hash == ResultKey(store.suite, job, node)
      modifies store.fsm
      ensures (store.fsm.db, r)
           == Badger(store.suite, store.fsm.secret).apply(
                old(store.fsm.db), WriteOf(store.suite, job, node, result, commits))
    {
      match result {
        case KeyOut(key) =>
          r := store.SaveDKGResultData(hash, key, commits);
        case SignOut(x, y) =>
          r := store.SaveSignerResultData(
            hash, RVSignature(HexEncode(ToBytes(x)), HexEncode(ToBytes(y)), hash), commits);
        case ShareOut(share) =>
          r := store.UpdateDKGResultData(hash, share, commits);
      }
    }

    /**
      The engine's callback.  `result` is what GetResult gives in state Done.  The engine reports a terminal state at
      most once, so the channel is open when it does.  Seen as a node of a ceremony the service makes the callback
      steps of its session, as CallbackSteps says, and its store makes theirs: a failed session writes nothing, a done
      one exactly what WriteOf says when there is a result, and key generation leaves its handler registered.
     */
    method OnStateChanged(state: MainState, result: Option<Outcome>, commits: bool)
      requires Valid() && Fits(job, result)
      requires state != Init ==> session.started && session.callback.Quiet?
      modifies this, handlers, handlers.log, store.fsm
      ensures Valid()
      ensures state == Init ==> View() == old(View()) && store.fsm.db == old(store.fsm.db)
      ensures state != Init ==>
                AfterCallback(store.suite, Badger(store.suite, store.fsm.secret), job, node, old(View()),
                              old(store.fsm.db),
                              if state == Done then result else None, commits)
                == (View(), store.fsm.db)
      ensures handlers.log.effects ==
              old(handlers.log.effects) + if state == Init || job.kind.Dkg? then [] else [Silent(Protocol(hash))]
    {
      if state == Init {
        return;
      }
      ghost var out := if state == Done then result else None;
      if job.kind.Dkg? {
        closed := true;
      } else {
        CloseDone();
      }
      var stored := false;
      if state == Done && result.Some? {
        var r := StoreResult(result.value, commits);
        stored := r.Ok?;
      }
      session := Session(true, Finished(out, commits, stored), 1, session.resumed);
    }
  }

  /** The protocol every node's peer manager sends a ceremony's messages on. */
  function SendProtocol(suite: Suite, job: Job): Text
  {
    if job.kind.Sign? then Protocol(ToHexHash(suite, job.message)) else Protocol(job.hash)
  }

  /**
    Rendezvous: in every ceremony this program runs, the protocol all nodes send on is the one node i's handler listens
    on, with one exception that it rules out itself: a key generation whose hash contains a dash.
   */
  lemma Rendezvous(suite: Suite, job: Job, i: nat)
    requires job.selfHost ==> !job.kind.Reshare?
    ensures HandlerProtocol(suite, job, i) == SendProtocol(suite, job) <==> (job.kind.Dkg? ==> DASH !in job.hash)
  {
    if job.kind.Dkg? {
      SelfHostRendezvous(job.hash, i);
      RpcRendezvous(job.hash);
    }
  }
}
