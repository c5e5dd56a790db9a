/**
  One ceremony session on one host: key generation, signing or resharing.
  The engine is an environment that reports at most one terminal state per session.
  Its callback runs beside the process that waits for it, so it is split into the steps others can observe.
 */
module Session {
  import opened Basics
  import opened Numbers
  import opened Records
  import opened Fsm
  import opened BadgerStore
  import opened StoreInterface
  import opened StoreHistory
  import opened Keys
  import Curve

  datatype Kind = Dkg | Sign | Reshare

  /** What the engine's GetResult gives. */
  datatype Outcome =
    | KeyOut(result: DkgResult)
    | SignOut(r: nat, s: nat)
    | ShareOut(share: nat)

  /** A ceremony as it was requested; in self-host mode all nodes share one store. */
  datatype Job = Job(kind: Kind, hash: Text, pubkey: Text, message: Text, selfHost: bool)

  predicate Fits(job: Job, out: Option<Outcome>)
  {
    match out
    case None => true
    case Some(KeyOut(_)) => job.kind.Dkg?
    case Some(SignOut(_, _)) => job.kind.Sign?
    case Some(ShareOut(_)) => job.kind.Reshare?
  }

  /** The key node `i` reads its share from. */
  function ShareKey(job: Job, i: nat): Text
  {
    if job.selfHost then NodeKey(job.hash, i) else job.hash
  }

  /** The key node `i` writes its result to. */
  function ResultKey(suite: Suite, job: Job, i: nat): Text
  {
    if job.kind.Sign? then ToHexHash(suite, job.message) else ShareKey(job, i)
  }

  /** The store operation the terminal callback of node `i` performs. */
  function WriteOf(suite: Suite, job: Job, i: nat, out: Outcome, commits: bool): StoreOp
  {
    var key := ResultKey(suite, job, i);
    match out
    case KeyOut(result) => SaveOp(key, result, commits)
    case SignOut(r, s) => SignatureOp(key, RVSignature(HexEncode(ToBytes(r)), HexEncode(ToBytes(s)), key), commits)
    case ShareOut(share) => UpdateOp(key, share, commits)
  }

  /**
    Where the terminal callback stands; `out` is what GetResult gave it, nothing when the state was Failed.  At the end
    `commits` is what the database said to its transaction, and `stored` whether the store operation succeeded.
   */
  datatype Callback =
    | Quiet
    | Notified(out: Option<Outcome>)
    | Closed(out: Option<Outcome>)
    | Storing(out: Option<Outcome>)
    | Finished(out: Option<Outcome>, commits: bool, stored: bool)

  /** `closes` counts close(done); `resumed` says Process has passed its wait on `done`. */
  datatype Session = Session(started: bool, callback: Callback, closes: nat, resumed: bool)

  /** A node during the ceremony: its session, once built, and whether a handler is registered for the protocol. */
  datatype Node = Node(session: Option<Session>, handler: bool)

  const ABSENT := Node(None, false)

  /** A session service just created: the handler is registered last. */
  const BUILT := Node(Some(Session(false, Quiet, 0, false)), true)

  datatype Action =
    | Start                           // Process starts the engine
    | Notify(out: Option<Outcome>)    // the engine reports Done with a result, Done without one, or Failed
    | CloseDone                       // close(done)
    | RemoveHandler                   // sign and reshare only
    | Store(commits: bool)            // the write, when there is something to write
    | Resume                          // Process passes <-done

  function Act(suite: Suite, calls: Calls, job: Job, i: nat, h: Node, db: Db, a: Action): (Node, Db)
  {
    if h.session == None then (h, db)
    else
      var s := h.session.value;
      match a
      case Start => (h.(session := Some(s.(started := true))), db)
      case Notify(out) =>
        if s.started && s.callback.Quiet? && Fits(job, out) then
          (h.(session := Some(s.(callback := Notified(out)))), db)
        else (h, db)
      case CloseDone =>
        if s.callback.Notified? then
          var next := if job.kind.Dkg? then Storing(s.callback.out) else Closed(s.callback.out);
          (h.(session := Some(s.(callback := next, closes := s.closes + 1))), db)
        else (h, db)
      case RemoveHandler =>
        if s.callback.Closed? then (Node(Some(s.(callback := Storing(s.callback.out))), false), db) else (h, db)
      case Store(commits) =>
        if s.callback.Storing? then
          var out := s.callback.out;
          var (db', r) :=
            if out == None then (db, Err(CommitFailed))
            else calls.apply(db, WriteOf(suite, job, i, out.value, commits));
          (h.(session := Some(s.(callback := Finished(out, commits, r.Ok?)))), db')
        else (h, db)
      case Resume =>
        if s.closes > 0 then (h.(session := Some(s.(resumed := true))), db) else (h, db)
  }

  /** What a session keeps at every step. */
  predicate SessionInv(job: Job, s: Session)
  {
    && (!s.callback.Quiet? ==> s.started && Fits(job, s.callback.out))
    && s.closes == (if s.callback.Quiet? || s.callback.Notified? then 0 else 1)
    && (s.callback.Closed? ==> !job.kind.Dkg?)
    && (s.resumed ==> s.closes == 1)
  }

  /** What a node keeps: its only session has the handler until its callback removes it. */
  predicate NodeInv(job: Job, h: Node)
  {
    match h.session
    case None => !h.handler
    case Some(s) =>
      && SessionInv(job, s)
      && (h.handler <==> job.kind.Dkg? || s.callback.Quiet? || s.callback.Notified? || s.callback.Closed?)
  }

  /** The callback has written its result: the store operation has reported success. */
  predicate Saved(h: Node)
  {
    && h.session.Some?
    && h.session.value.callback.Finished?
    && h.session.value.callback.out.Some?
    && h.session.value.callback.stored
  }

  /** What the engine gave; GetResult of a coordinator whose Process has returned. */
  function ResultOf(h: Node): Option<Outcome>
  {
    if h.session.Some? && !h.session.value.callback.Quiet? then h.session.value.callback.out else None
  }

  /** The same on a host where other sessions share the handler: an action keeps the session's own invariant. */
  lemma ActOnSession(suite: Suite, calls: Calls, job: Job, i: nat, s: Session, handler: bool, db: Db, a: Action)
    requires SessionInv(job, s)
    ensures var h' := Act(suite, calls, job, i, Node(Some(s), handler), db, a).0;
            && Follows(Node(Some(s), handler), h', a)
            && SessionInv(job, h'.session.value)
            && s.closes <= h'.session.value.closes
            && (h'.handler ==> handler)
            && (handler && !h'.handler ==> !job.kind.Dkg? && h'.session.value.closes == 1)
  {
  }

  /** Every action keeps the invariant; a session stays, stays started and resumed, and keeps the engine's answer. */
  lemma ActKeepsInv(suite: Suite, calls: Calls, job: Job, i: nat, h: Node, db: Db, a: Action)
    requires NodeInv(job, h)
    ensures var h' := Act(suite, calls, job, i, h, db, a).0;
            NodeInv(job, h') && Follows(h, h', a)
  {
  }

  predicate Follows(h: Node, h': Node, a: Action)
  {
    && (h'.session.Some? <==> h.session.Some?)
    && (h.session.Some? ==>
          && (h'.session.value.started <==> h.session.value.started || a.Start?)
          && (h.session.value.resumed ==> h'.session.value.resumed)
          && (!h.session.value.callback.Quiet? ==> !h'.session.value.callback.Quiet? && ResultOf(h') == ResultOf(h)))
  }

  predicate HasFinished(h: Node)
  {
    h.session.Some? && h.session.value.callback.Finished?
  }

  predicate JustFinished(h: Node, h': Node)
  {
    HasFinished(h') && !HasFinished(h)
  }

  /** A finished callback has saved exactly when there was a result and the store operation on `db` succeeded. */
  predicate SavedIff(suite: Suite, calls: Calls, job: Job, i: nat, h: Node, db: Db)
    requires HasFinished(h)
  {
    Saved(h) <==>
    && ResultOf(h).Some?
    && calls.apply(db, WriteOf(suite, job, i, ResultOf(h).value, h.session.value.callback.commits)).1.Ok?
  }

  /** A finished key generation or signing has stored its result exactly when the transaction committed. */
  predicate StoredInv(job: Job, s: Session)
  {
    s.callback.Finished? && !job.kind.Reshare? ==> (s.callback.stored <==> s.callback.out.Some? && s.callback.commits)
  }

  lemma ActKeepsStored(suite: Suite, calls: Calls, job: Job, i: nat, s: Session, handler: bool, db: Db, a: Action)
    requires Atomic(calls) && SessionInv(job, s) && StoredInv(job, s)
    ensures var h' := Act(suite, calls, job, i, Node(Some(s), handler), db, a).0;
            h'.session.Some? && StoredInv(job, h'.session.value)
  {
  }

  /** Only the store step of a result touches the database, and it happens once. */
  lemma ActAndStore(suite: Suite, calls: Calls, job: Job, i: nat, h: Node, db: Db, a: Action)
    requires h.session.Some? ==> SessionInv(job, h.session.value)
    requires Atomic(calls)
    ensures var (h', db') := Act(suite, calls, job, i, h, db, a);
            && (Saved(h) ==> Saved(h') && ResultOf(h') == ResultOf(h))
            && (Saved(h') == Saved(h) ==> db' == db)
            && (Saved(h') && !Saved(h) ==>
                  && ResultOf(h').Some?
                  && Fits(job, ResultOf(h'))
                  && calls.apply(db, WriteOf(suite, job, i, ResultOf(h').value, true)).1.Ok?
                  && calls.apply(db, WriteOf(suite, job, i, ResultOf(h').value, true)).0 == db')
            && (JustFinished(h, h') ==> SavedIff(suite, calls, job, i, h', db))
  {
  }

  // ----- one session with a store of its own: every host of the RPC path -----

  function RunActions(suite: Suite, calls: Calls, job: Job, i: nat, h: Node, db: Db, acts: seq<Action>): (Node, Db)
  {
    if acts == [] then (h, db)
    else
      var (h', db') := RunActions(suite, calls, job, i, h, db, acts[..|acts| - 1]);
      Act(suite, calls, job, i, h', db', acts[|acts| - 1])
  }

  /**
    Over every sequence of engine reports and process steps: done is closed at most once, Process resumes only after
    the terminal callback closed it, the handler of sign and reshare leaves only by that callback, and the database is
    the old one with the engine's result written exactly when the callback has saved it: when it has finished with a
    result and the store operation succeeded.
   */
  lemma {:induction false} SessionSafety(suite: Suite, calls: Calls, job: Job, i: nat, db: Db, acts: seq<Action>)
    requires Atomic(calls)
    ensures var (h, db') := RunActions(suite, calls, job, i, BUILT, db, acts);
            && NodeInv(job, h)
            && h.session.Some?
            && h.session.value.closes <= 1
            && (h.session.value.resumed ==> !h.session.value.callback.Quiet? && !h.session.value.callback.Notified?)
            && (!h.handler ==> !job.kind.Dkg? && h.session.value.closes == 1)
            && (Saved(h) ==> ResultOf(h).Some?)
            && db' == (if Saved(h) then calls.apply(db, WriteOf(suite, job, i, ResultOf(h).value, true)).0 else db)
            && (HasFinished(h) ==> SavedIff(suite, calls, job, i, h, db))
  {
    if acts != [] {
      SessionSafety(suite, calls, job, i, db, acts[..|acts| - 1]);
      var (h, db') := RunActions(suite, calls, job, i, BUILT, db, acts[..|acts| - 1]);
      ActKeepsInv(suite, calls, job, i, h, db', acts[|acts| - 1]);
      ActAndStore(suite, calls, job, i, h, db', acts[|acts| - 1]);
    }
  }

  /** Nothing the host does by itself changes the session any more. */
  ghost predicate Quiescent(suite: Suite, calls: Calls, job: Job, i: nat, h: Node, db: Db)
  {
    forall a: Action :: !a.Start? && !a.Notify? ==> Act(suite, calls, job, i, h, db, a).0 == h
  }

  lemma RestIsFinished(suite: Suite, calls: Calls, job: Job, i: nat, h: Node, db: Db)
    requires h.session.Some? && SessionInv(job, h.session.value) && !h.session.value.callback.Quiet?
    requires Quiescent(suite, calls, job, i, h, db)
    ensures h.session.value.callback.Finished? && h.session.value.resumed
  {
    assert Act(suite, calls, job, i, h, db, CloseDone).0 == h;
    assert Act(suite, calls, job, i, h, db, RemoveHandler).0 == h;
    assert Act(suite, calls, job, i, h, db, Store(true)).0 == h;
    assert Act(suite, calls, job, i, h, db, Resume).0 == h;
  }

  /**
    Once the engine has reported and the host has come to rest, its process has resumed, the channel was closed once
    and the callback has finished; and it has saved, and the database has changed by exactly the write of the engine's
    result, when there is a result and the store operation on it succeeds.
   */
  lemma AtRest(suite: Suite, calls: Calls, job: Job, i: nat, db: Db, acts: seq<Action>)
    requires Atomic(calls)
    requires var (h, db') := RunActions(suite, calls, job, i, BUILT, db, acts);
             && h.session.Some? && !h.session.value.callback.Quiet?
             && Quiescent(suite, calls, job, i, h, db')
    ensures var (h, db') := RunActions(suite, calls, job, i, BUILT, db, acts);
            && h.session.Some?
            && h.session.value.callback.Finished?
            && h.session.value.resumed && h.session.value.closes == 1
            && (h.handler <==> job.kind.Dkg?)
            && SavedIff(suite, calls, job, i, h, db)
            && db' == if ResultOf(h).Some?
                      then
                        calls.apply(
                          db, WriteOf(suite, job, i, ResultOf(h).value, h.session.value.callback.commits)).0
                      else db
  {
    SessionSafety(suite, calls, job, i, db, acts);
    var (h, db') := RunActions(suite, calls, job, i, BUILT, db, acts);
    RestIsFinished(suite, calls, job, i, h, db');
  }

  /**
    The waiting process may answer its caller before anything is written: done is closed before the store step.
    So a reply promises the result to the caller, not to the store.
   */
  lemma RepliesBeforeStored(suite: Suite, calls: Calls, job: Job, i: nat, db: Db, out: Outcome)
    requires Fits(job, Some(out))
    ensures var (h, db') := RunActions(suite, calls, job, i, BUILT, db, [Start, Notify(Some(out)), CloseDone, Resume]);
            && h.session.Some? && h.session.value.resumed
            && ResultOf(h) == Some(out)
            && !Saved(h)
            && db' == db
  {
    var s1, s2, s3 := [Start], [Start, Notify(Some(out))], [Start, Notify(Some(out)), CloseDone];
    assert s2[..1] == s1 && s3[..2] == s2;
    assert [Start, Notify(Some(out)), CloseDone, Resume][..3] == s3;
    assert RunActions(suite, calls, job, i, BUILT, db, s1) == (Node(Some(Session(true, Quiet, 0, false)), true), db);
    assert RunActions(suite, calls, job, i, BUILT, db, s2)
        == (Node(Some(Session(true, Notified(Some(out)), 0, false)), true), db);
  }

  // ----- a session can always be brought to its end -----

  /** A node whose callback has saved and whose process has resumed. */
  function Done(job: Job, out: Outcome): Node
  {
    Node(Some(Session(true, Finished(Some(out), true, true), 1, true)), job.kind.Dkg?)
  }

  const STARTED := Node(Some(Session(true, Quiet, 0, false)), true)

  /** From the report to the end. */
  function ToTheEnd(out: Outcome): seq<Action>
  {
    [Notify(Some(out)), CloseDone, RemoveHandler, Store(true), Resume]
  }

  lemma ActsOn(suite: Suite, calls: Calls, job: Job, i: nat, h: Node, db: Db, acts: seq<Action>, a: Action)
    ensures var (h', db') := RunActions(suite, calls, job, i, h, db, acts);
            RunActions(suite, calls, job, i, h, db, acts + [a]) == Act(suite, calls, job, i, h', db', a)
  {
    assert (acts + [a])[..|acts|] == acts;
  }

  /** A started session that is given a result ends with the result written, if the store operation succeeds. */
  lemma SessionEnds(suite: Suite, calls: Calls, job: Job, i: nat, handler: bool, db: Db, out: Outcome)
    requires Fits(job, Some(out)) && calls.apply(db, WriteOf(suite, job, i, out, true)).1.Ok?
    ensures RunActions(suite, calls, job, i, STARTED.(handler := handler), db, ToTheEnd(out))
         == (Done(job, out).(handler := handler && job.kind.Dkg?),
             calls.apply(db, WriteOf(suite, job, i, out, true)).0)
  {
    var h0 := STARTED.(handler := handler);
    var a1 := [] + [Notify(Some(out))];
    var a2 := a1 + [CloseDone];
    var a3 := a2 + [RemoveHandler];
    var a4 := a3 + [Store(true)];
    ActsOn(suite, calls, job, i, h0, db, [], Notify(Some(out)));
    ActsOn(suite, calls, job, i, h0, db, a1, CloseDone);
    ActsOn(suite, calls, job, i, h0, db, a2, RemoveHandler);
    ActsOn(suite, calls, job, i, h0, db, a3, Store(true));
    ActsOn(suite, calls, job, i, h0, db, a4, Resume);
    assert ToTheEnd(out) == a4 + [Resume];
  }

  /** The share of a host after a reshare that has got this far. */
  function ShareAfter(h: Node, share: nat): nat
  {
    match ResultOf(h)
    case Some(ShareOut(renewed)) => if Saved(h) then renewed else share
    case _ => share
  }

  /** A reshare that has finished leaves the host with the engine's new share under the old public key. */
  lemma ReshareReplacesShare(suite: Suite, secret: Secret, job: Job, i: nat, db: Db, acts: seq<Action>, r: DkgResult)
    requires job.kind.Reshare?
    requires ShareKey(job, i) in db && db[ShareKey(job, i)] == DkgJson(suite, secret, r)
    ensures var (h, db') := RunActions(suite, Badger(suite, secret), job, i, BUILT, db, acts);
            && (Saved(h) ==> ResultOf(h) == Some(ShareOut(ShareAfter(h, r.share))))
            && Config(suite, secret, db', ShareKey(job, i), Curve.CompressedHex(r.publicKey))
               == Ok(ConfigOf(r.(share := ShareAfter(h, r.share))))
  {
    ReshareWrites(suite, secret, job, i, db, acts);
    var h := RunActions(suite, Badger(suite, secret), job, i, BUILT, db, acts).0;
    ConfigAfterShare(suite, secret, ShareKey(job, i), db, r, Saved(h), ShareAfter(h, r.share));
  }

  lemma ReshareWrites(suite: Suite, secret: Secret, job: Job, i: nat, db: Db, acts: seq<Action>)
    requires job.kind.Reshare?
    ensures var (h, db') := RunActions(suite, Badger(suite, secret), job, i, BUILT, db, acts);
            && (Saved(h) ==> ResultOf(h) == Some(ShareOut(ShareAfter(h, 0))))
            && db' == if Saved(h)
                      then Apply(suite, secret, db, UpdateOp(ShareKey(job, i), ShareAfter(h, 0), true)) else db
  {
    BadgerIsAtomic(suite, secret);
    SessionSafety(suite, Badger(suite, secret), job, i, db, acts);
    var h := RunActions(suite, Badger(suite, secret), job, i, BUILT, db, acts).0;
    if Saved(h) {
      ReshareWriteIs(suite, secret, job, i, db, h);
    }
  }

  lemma ReshareWriteIs(suite: Suite, secret: Secret, job: Job, i: nat, db: Db, h: Node)
    requires job.kind.Reshare? && NodeInv(job, h) && Saved(h)
    ensures ResultOf(h) == Some(ShareOut(ShareAfter(h, 0)))
    ensures Badger(suite, secret).apply(db, WriteOf(suite, job, i, ResultOf(h).value, true)).0
         == Apply(suite, secret, db, UpdateOp(ShareKey(job, i), ShareAfter(h, 0), true))
  {
  }

  /**
    A reshare whose callback has finished has saved exactly when the engine gave a share, the database accepted the
    transaction and the key held a result: on a key that holds a signature or nothing it has not.
   */
  lemma ReshareSavedIff(
      suite: Suite, secret: Secret, job: Job, i: nat, db: Db, acts: seq<Action>, e: Option<Entry>)
    requires job.kind.Reshare? && Holds(suite, secret, db, ShareKey(job, i), e)
    requires HasFinished(RunActions(suite, Badger(suite, secret), job, i, BUILT, db, acts).0)
    ensures var h := RunActions(suite, Badger(suite, secret), job, i, BUILT, db, acts).0;
            Saved(h) <==>
            ResultOf(h).Some? && h.session.value.callback.commits && e.Some? && e.value.Key?
  {
    BadgerIsAtomic(suite, secret);
    SessionSafety(suite, Badger(suite, secret), job, i, db, acts);
    var h := RunActions(suite, Badger(suite, secret), job, i, BUILT, db, acts).0;
    if ResultOf(h).Some? {
      UpdateSucceeds(suite, secret, db, ShareKey(job, i), e, ResultOf(h).value.share, h.session.value.callback.commits);
    }
  }

  lemma ConfigAfterShare(suite: Suite, secret: Secret, key: Text, db: Db, r: DkgResult, saved: bool, share: nat)
    requires key in db && db[key] == DkgJson(suite, secret, r)
    requires !saved ==> share == r.share
    ensures Config(suite, secret, if saved then Apply(suite, secret, db, UpdateOp(key, share, true)) else db,
                   key, Curve.CompressedHex(r.publicKey)) == Ok(ConfigOf(r.(share := share)))
  {
    if saved {
      UpdateOfStored(suite, secret, db, key, r, share, true);
      ConfigOfStored(suite, secret, db[key := DkgJson(suite, secret, r.(share := share))], key, r.(share := share),
                     Curve.CompressedHex(r.publicKey));
    } else {
      ConfigOfStored(suite, secret, db, key, r, Curve.CompressedHex(r.publicKey));
    }
  }

  // ----- a reshare beside signing sessions of the same host -----

  /** A signing session whose callback has come to its write. */
  datatype Signing = Signing(message: Text, r: nat, s: nat, commits: bool)

  function SigningWrite(suite: Suite, i: nat, g: Signing): StoreOp
  {
    WriteOf(suite, Job(Sign, [], [], g.message, false), i, SignOut(g.r, g.s), g.commits)
  }

  function SigningWrites(suite: Suite, i: nat, signings: seq<Signing>): seq<StoreOp>
  {
    seq(|signings|, k requires 0 <= k < |signings| => SigningWrite(suite, i, signings[k]))
  }

  /** Some signing session of the host has written to this key. */
  predicate Hits(suite: Suite, signings: seq<Signing>, key: Text)
  {
    exists k :: 0 <= k < |signings| && signings[k].commits && ToHexHash(suite, signings[k].message) == key
  }

  lemma HitsLast(suite: Suite, signings: seq<Signing>, key: Text)
    requires signings != []
    ensures var (n, g) := (|signings| - 1, signings[|signings| - 1]);
            Hits(suite, signings, key) <==>
            Hits(suite, signings[..n], key) || (g.commits && ToHexHash(suite, g.message) == key)
  {
    var n := |signings| - 1;
    if Hits(suite, signings[..n], key) {
      var k :| 0 <= k < n && signings[..n][k].commits && ToHexHash(suite, signings[..n][k].message) == key;
      assert signings[k] == signings[..n][k];
    }
    if k :| 0 <= k < n && signings[k].commits && ToHexHash(suite, signings[k].message) == key {
      assert signings[..n][k] == signings[k];
    }
  }

  lemma {:induction false} LastSigning(suite: Suite, i: nat, signings: seq<Signing>, key: Text)
    ensures var w := LastWrite(SigningWrites(suite, i, signings), key);
            && (w.Some? <==> Hits(suite, signings, key))
            && (w.Some? ==> w.value.SignatureOp?)
  {
    if signings != [] {
      var n := |signings| - 1;
      LastSigning(suite, i, signings[..n], key);
      assert SigningWrites(suite, i, signings)
          == SigningWrites(suite, i, signings[..n]) + [SigningWrite(suite, i, signings[n])];
      LastWriteExtend(SigningWrites(suite, i, signings[..n]), SigningWrite(suite, i, signings[n]), key);
      HitsLast(suite, signings, key);
    }
  }

  /**
    A reshare session exists only where a result was stored.  Its write-back panics exactly when a signing session of
    the same host has meanwhile written a signature of a message whose hash is the reshared key, and else it renews
    the share of that result.
   */
  lemma ReshareAmongSignings(
      suite: Suite, secret: Secret, i: nat, db: Db, hash: Text, r: DkgResult, signings: seq<Signing>, share: nat,
      commits: bool)
    requires Holds(suite, secret, db, hash, Some(Key(r)))
    ensures var after := Replay(Badger(suite, secret), db, SigningWrites(suite, i, signings));
            Updated(suite, secret, after, hash, share, commits) ==
            if Hits(suite, signings, hash) then (after, Err(Panic))
            else Written(after, hash, DkgJson(suite, secret, r.(share := share)), commits)
  {
    LastSigning(suite, i, signings, hash);
    ReshareWriteBack(suite, secret, db, hash, r, SigningWrites(suite, i, signings), share, commits);
  }
}
