/** What a ceremony over RPC leaves on every host, whatever order its events came in. */
module RpcOutcome {
  import opened Basics
  import opened Numbers
  import opened Records
  import opened Curve
  import opened Fsm
  import opened BadgerStore
  import opened StoreInterface
  import opened StoreHistory
  import opened Keys
  import opened Session
  import opened RpcHost
  import C = RpcCeremony

  // ----- one host -----

  /** Nothing but this ceremony has used the key of its job on this host. */
  predicate LeftAlone(host: Host, key: Text)
  {
    forall k :: 0 <= k < |host.writes| && host.writes[k].writer == None ==> host.writes[k].op.hash != key
  }

  predicate AnySaved(host: Host)
  {
    exists j :: 0 <= j < |host.sessions| && SavedSession(host.sessions[j].session)
  }

  /** Session `j` of the host has saved this answer. */
  predicate SavedAnswer(host: Host, j: nat, out: Outcome)
  {
    && j < |host.sessions|
    && SavedSession(host.sessions[j].session)
    && Answer(host.sessions[j].session) == Some(out)
  }

  /** The `k`-th operation on the host's store is the write of session `j`, which has saved this answer. */
  predicate WroteAnswer(u: Setup, i: nat, host: Host, k: nat, j: nat, out: Outcome)
  {
    && k < |host.writes|
    && SavedAnswer(host, j, out)
    && Fits(TheJob(u), Some(out))
    && Ops(host.writes)[k] == WriteOf(u.suite, TheJob(u), i, out, true)
  }

  /** Every operation on the key of the job is some session's write. */
  lemma KeyOps(u: Setup, i: nat, host: Host, key: Text, k: nat) returns (j: nat, out: Outcome)
    requires WritersInv(u, i, host.sessions, host.writes) && LeftAlone(host, key)
    requires k < |host.writes| && Ops(host.writes)[k].hash == key
    ensures WroteAnswer(u, i, host, k, j, out)
  {
    assert WriteInv(u, i, host.sessions, host.writes[k]);
    j := host.writes[k].writer.value;
    out := Answer(host.sessions[j].session).value;
  }

  /** And when some session has saved, one of the writes is its. */
  lemma SessionOp(u: Setup, i: nat, host: Host) returns (k: nat, j: nat, out: Outcome)
    requires WritersInv(u, i, host.sessions, host.writes) && AnySaved(host)
    ensures WroteAnswer(u, i, host, k, j, out)
  {
    j :| 0 <= j < |host.sessions| && SavedSession(host.sessions[j].session);
    k :| 0 <= k < |host.writes| && host.writes[k].writer == Some(j);
    assert WriteInv(u, i, host.sessions, host.writes[k]);
    out := Answer(host.sessions[j].session).value;
  }

  /** What a key of the host holds, by the operations made on it. */
  lemma HostHistory(u: Setup, i: nat, db: Db, host: Host, key: Text, before: Option<Entry>)
    requires Wf(u) && i < |u.calls| && StoreInv(u, i, u.calls[i], db, host)
    requires Holds(u.suite, u.secrets[i], db, key, before)
    ensures Holds(u.suite, u.secrets[i], host.db, key, EntryAfter(before, Ops(host.writes), key))
  {
    KeyHistory(u.suite, u.secrets[i], db, key, before, Ops(host.writes));
  }

  lemma HostHistoryWritten(u: Setup, i: nat, db: Db, host: Host, key: Text)
    requires Wf(u) && i < |u.calls| && StoreInv(u, i, u.calls[i], db, host) && LastWrite(Ops(host.writes), key).Some?
    ensures Holds(u.suite, u.secrets[i], host.db, key, EntryAfter(None, Ops(host.writes), key))
  {
    KeyWritten(u.suite, u.secrets[i], db, key, Ops(host.writes));
  }

  /**
    Over every run and whatever else uses the stores meanwhile: each key of each host holds what the operations made
    on it say, the last thing written there with the last share since.
   */
  lemma HostKeys(u: Setup, dbs: seq<Db>, events: seq<C.Event>, i: nat, key: Text, before: Option<Entry>)
    requires Wf(u) && |dbs| == |u.calls| && i < |dbs| && Holds(u.suite, u.secrets[i], dbs[i], key, before)
    ensures var host := C.Run(u, dbs, events).hosts[i];
            Holds(u.suite, u.secrets[i], host.db, key, EntryAfter(before, Ops(host.writes), key))
  {
    C.RunInv(u, dbs, events);
    HostHistory(u, i, dbs[i], C.Run(u, dbs, events).hosts[i], key, before);
  }

  // ----- signing -----

  /** In a signing, an operation on the job's own key is a signature of a message that hashes to it. */
  lemma SigningOp(u: Setup, i: nat, host: Host, k: nat)
    requires u.kind.Sign? && WritersInv(u, i, host.sessions, host.writes) && LeftAlone(host, u.request.hash)
    requires k < |host.writes| && Ops(host.writes)[k].hash == u.request.hash
    ensures Ops(host.writes)[k].SignatureOp?
    ensures AnySaved(host) && ToHexHash(u.suite, u.request.message) == u.request.hash
  {
    var j, out := KeyOps(u, i, host, u.request.hash, k);
  }

  /** The key is written exactly when some session has saved and the message hashes to it. */
  lemma SigningOps(u: Setup, i: nat, host: Host)
    requires u.kind.Sign? && WritersInv(u, i, host.sessions, host.writes) && LeftAlone(host, u.request.hash)
    ensures Reshared(Ops(host.writes), u.request.hash) == None
    ensures var w := LastWrite(Ops(host.writes), u.request.hash);
            && (w.Some? <==> AnySaved(host) && ToHexHash(u.suite, u.request.message) == u.request.hash)
            && (w.Some? ==> w.value.SignatureOp?)
  {
    var key, ops := u.request.hash, Ops(host.writes);
    forall k | 0 <= k < |ops| && ops[k].hash == key
      ensures ops[k].SignatureOp? && ToHexHash(u.suite, u.request.message) == key && AnySaved(host)
    {
      SigningOp(u, i, host, k);
    }
    LastWriteIsWrite(ops, key);
    LastWriteIndex(ops, key);
    NoReshare(ops, key);
    if AnySaved(host) && ToHexHash(u.suite, u.request.message) == key {
      var k, j, out := SessionOp(u, i, host);
      assert Writes(ops[k], key);
    }
  }

  /** A signature is never a share. */
  lemma SignatureIsNoKey(suite: Suite, secret: Secret, s: RVSignature, r: DkgResult)
    ensures SignatureJson(s) != DkgJson(suite, secret, r)
  {
    assert Ascii("share") in RecordJson(RecordOf(suite, secret, r)).fields;
    assert |Ascii("share")| == 5 && forall k :: k in SignatureJson(s).fields ==> |k| == 1 || |k| == 4;
  }

  lemma NotBoth(suite: Suite, secret: Secret, db: Db, key: Text, s: RVSignature, r: DkgResult)
    requires Holds(suite, secret, db, key, Some(Signature(s)))
    ensures !Holds(suite, secret, db, key, Some(Key(r)))
  {
    SignatureIsNoKey(suite, secret, s, r);
  }

  lemma SigningOnHost(u: Setup, i: nat, db: Db, host: Host, r: DkgResult)
    requires Wf(u) && u.kind.Sign? && i < |u.calls| && StoreInv(u, i, u.calls[i], db, host)
    requires LeftAlone(host, u.request.hash) && Holds(u.suite, u.secrets[i], db, u.request.hash, Some(Key(r)))
    ensures Holds(u.suite, u.secrets[i], host.db, u.request.hash, Some(Key(r))) <==>
            !(AnySaved(host) && ToHexHash(u.suite, u.request.message) == u.request.hash)
  {
    HostHistory(u, i, db, host, u.request.hash, Some(Key(r)));
    SigningOps(u, i, host);
    var w := LastWrite(Ops(host.writes), u.request.hash);
    if w.Some? {
      NotBoth(u.suite, u.secrets[i], host.db, u.request.hash, w.value.signature, r);
    }
  }

  /**
    Over every run of a signing and on every host: the host's share record is as it was, unless a session of the host
    has saved a signature and the message's hash is the very key of the share; then the record is lost.
   */
  lemma SigningKeepsShareIff(u: Setup, dbs: seq<Db>, events: seq<C.Event>, i: nat, r: DkgResult)
    requires Wf(u) && u.kind.Sign? && |dbs| == |u.secrets| && i < |dbs|
    requires LeftAlone(C.Run(u, dbs, events).hosts[i], u.request.hash)
    requires Holds(u.suite, u.secrets[i], dbs[i], u.request.hash, Some(Key(r)))
    ensures var host := C.Run(u, dbs, events).hosts[i];
            Holds(u.suite, u.secrets[i], host.db, u.request.hash, Some(Key(r))) <==>
            !(AnySaved(host) && ToHexHash(u.suite, u.request.message) == u.request.hash)
  {
    C.RunInv(u, dbs, events);
    SigningOnHost(u, i, dbs[i], C.Run(u, dbs, events).hosts[i], r);
  }

  // ----- resharing -----

  lemma ReshareOp(u: Setup, i: nat, host: Host, k: nat)
    requires u.kind.Reshare? && WritersInv(u, i, host.sessions, host.writes) && LeftAlone(host, u.request.hash)
    requires k < |host.writes| && Ops(host.writes)[k].hash == u.request.hash
    ensures var op := Ops(host.writes)[k]; op.UpdateOp? && exists j :: SavedAnswer(host, j, ShareOut(op.share))
    ensures AnySaved(host)
  {
    var j, out := KeyOps(u, i, host, u.request.hash, k);
    assert SavedAnswer(host, j, ShareOut(Ops(host.writes)[k].share));
  }

  lemma ReshareOps(u: Setup, i: nat, host: Host)
    requires u.kind.Reshare? && WritersInv(u, i, host.sessions, host.writes) && LeftAlone(host, u.request.hash)
    ensures var share := Reshared(Ops(host.writes), u.request.hash);
            && LastWrite(Ops(host.writes), u.request.hash) == None
            && (share.Some? <==> AnySaved(host))
            && (share.Some? ==> exists j :: SavedAnswer(host, j, ShareOut(share.value)))
  {
    var key, ops := u.request.hash, Ops(host.writes);
    forall k | 0 <= k < |ops| && ops[k].hash == key
      ensures ops[k].UpdateOp? && AnySaved(host)
    {
      ReshareOp(u, i, host, k);
    }
    LastReshareIndex(ops, key);
    if Reshared(ops, key).Some? {
      var k :| 0 <= k < |ops| && Renews(ops[k], key) && ops[k].share == Reshared(ops, key).value;
      ReshareOp(u, i, host, k);
    }
    if AnySaved(host) {
      var k, j, out := SessionOp(u, i, host);
      assert Renews(ops[k], key);
    }
  }

  /** The host serves this share under the old public key. */
  predicate ServesShare(u: Setup, i: nat, host: Host, r: DkgResult, share: nat)
    requires i < |u.secrets|
  {
    Config(u.suite, u.secrets[i], host.db, u.request.hash, CompressedHex(r.publicKey))
    == Ok(ConfigOf(r.(share := share)))
  }

  lemma ReshareOnHost(u: Setup, i: nat, db: Db, host: Host, r: DkgResult)
    requires Wf(u) && u.kind.Reshare? && i < |u.calls| && StoreInv(u, i, u.calls[i], db, host)
    requires LeftAlone(host, u.request.hash) && Holds(u.suite, u.secrets[i], db, u.request.hash, Some(Key(r)))
    ensures if AnySaved(host)
            then exists j, share :: SavedAnswer(host, j, ShareOut(share)) && ServesShare(u, i, host, r, share)
            else ServesShare(u, i, host, r, r.share)
  {
    HostHistory(u, i, db, host, u.request.hash, Some(Key(r)));
    ReshareOps(u, i, host);
    var share := LastShare(Ops(host.writes), u.request.hash, r.share);
    ConfigOfStored(u.suite, u.secrets[i], host.db, u.request.hash, r.(share := share), CompressedHex(r.publicKey));
    assert ServesShare(u, i, host, r, share);
  }

  /**
    Over every run of a reshare and on every host: the old public key stays and is served with the host's new share
    once a session of the host has saved one, and with the old share until then.
   */
  lemma ReshareRenewsShare(u: Setup, dbs: seq<Db>, events: seq<C.Event>, i: nat, r: DkgResult)
    requires Wf(u) && u.kind.Reshare? && |dbs| == |u.secrets| && i < |dbs|
    requires LeftAlone(C.Run(u, dbs, events).hosts[i], u.request.hash)
    requires Holds(u.suite, u.secrets[i], dbs[i], u.request.hash, Some(Key(r)))
    ensures var host := C.Run(u, dbs, events).hosts[i];
            if AnySaved(host)
            then exists j, share :: SavedAnswer(host, j, ShareOut(share)) && ServesShare(u, i, host, r, share)
            else ServesShare(u, i, host, r, r.share)
  {
    C.RunInv(u, dbs, events);
    ReshareOnHost(u, i, dbs[i], C.Run(u, dbs, events).hosts[i], r);
  }

  // ----- key generation -----

  lemma DkgOp(u: Setup, i: nat, host: Host, k: nat)
    requires u.kind.Dkg? && WritersInv(u, i, host.sessions, host.writes) && LeftAlone(host, u.request.hash)
    requires k < |host.writes| && Ops(host.writes)[k].hash == u.request.hash
    ensures var op := Ops(host.writes)[k]; op.SaveOp? && exists j :: SavedAnswer(host, j, KeyOut(op.result))
    ensures AnySaved(host)
  {
    var j, out := KeyOps(u, i, host, u.request.hash, k);
    assert SavedAnswer(host, j, KeyOut(Ops(host.writes)[k].result));
  }

  lemma DkgOps(u: Setup, i: nat, host: Host)
    requires u.kind.Dkg? && WritersInv(u, i, host.sessions, host.writes) && LeftAlone(host, u.request.hash)
    ensures Reshared(Ops(host.writes), u.request.hash) == None
    ensures var w := LastWrite(Ops(host.writes), u.request.hash);
            && (w.Some? <==> AnySaved(host))
            && (w.Some? ==> w.value.SaveOp? && exists j :: SavedAnswer(host, j, KeyOut(w.value.result)))
  {
    var key, ops := u.request.hash, Ops(host.writes);
    forall k | 0 <= k < |ops| && ops[k].hash == key
      ensures ops[k].SaveOp? && AnySaved(host)
    {
      DkgOp(u, i, host, k);
    }
    LastWriteIsWrite(ops, key);
    LastWriteIndex(ops, key);
    NoReshare(ops, key);
    if LastWrite(ops, key).Some? {
      var k :| 0 <= k < |ops| && Some(ops[k]) == LastWrite(ops, key);
      DkgOp(u, i, host, k);
    }
    if AnySaved(host) {
      var k, j, out := SessionOp(u, i, host);
      assert Writes(ops[k], key);
    }
  }

  /** The host serves this result under its own key, ready for the engine. */
  predicate ServesResult(u: Setup, i: nat, host: Host, r: DkgResult)
    requires i < |u.secrets|
  {
    && Config(u.suite, u.secrets[i], host.db, u.request.hash, CompressedHex(r.publicKey)) == Ok(ConfigOf(r))
    && Converted(ConfigOf(r)) == Ok(KeyOf(r))
  }

  lemma DkgOnHost(u: Setup, i: nat, db: Db, host: Host)
    requires Wf(u) && u.kind.Dkg? && i < |u.calls| && StoreInv(u, i, u.calls[i], db, host)
    requires LeftAlone(host, u.request.hash) && AnySaved(host)
    ensures exists j, r :: SavedAnswer(host, j, KeyOut(r)) && ServesResult(u, i, host, r)
  {
    DkgOps(u, i, host);
    HostHistoryWritten(u, i, db, host, u.request.hash);
    var r := LastWrite(Ops(host.writes), u.request.hash).value.result;
    ConfigOfStored(u.suite, u.secrets[i], host.db, u.request.hash, r, CompressedHex(r.publicKey));
    ConfigConverts(r);
    var j :| SavedAnswer(host, j, KeyOut(r));
    assert ServesResult(u, i, host, r);
  }

  /**
    Over every run of a key generation: each host on which a session has saved serves a result saved there, whatever
    it held under the hash before; on the others that is what it was.
   */
  lemma DkgServesEveryHost(u: Setup, dbs: seq<Db>, events: seq<C.Event>, i: nat, before: Option<Entry>)
    requires Wf(u) && u.kind.Dkg? && |dbs| == |u.secrets| && i < |dbs|
    requires LeftAlone(C.Run(u, dbs, events).hosts[i], u.request.hash)
    ensures var host := C.Run(u, dbs, events).hosts[i];
            && (AnySaved(host) ==> exists j, r :: SavedAnswer(host, j, KeyOut(r)) && ServesResult(u, i, host, r))
            && (!AnySaved(host) && Holds(u.suite, u.secrets[i], dbs[i], u.request.hash, before) ==>
                  Holds(u.suite, u.secrets[i], host.db, u.request.hash, before))
  {
    var host := C.Run(u, dbs, events).hosts[i];
    C.RunInv(u, dbs, events);
    DkgOps(u, i, host);
    if AnySaved(host) {
      DkgOnHost(u, i, dbs[i], host);
    } else if Holds(u.suite, u.secrets[i], dbs[i], u.request.hash, before) {
      HostHistory(u, i, dbs[i], host, u.request.hash, before);
    }
  }

  // ----- signatures -----

  function SignatureKey(u: Setup): Text
  {
    ToHexHash(u.suite, u.request.message)
  }

  /** The host holds this signature under the message's hash. */
  predicate HoldsSignature(u: Setup, i: nat, host: Host, r: nat, s: nat)
    requires i < |u.secrets|
  {
    Holds(u.suite, u.secrets[i], host.db, SignatureKey(u), Some(Signature(SignatureRecord(u, r, s))))
  }

  function SignatureRecord(u: Setup, r: nat, s: nat): RVSignature
  {
    RVSignature(HexEncode(ToBytes(r)), HexEncode(ToBytes(s)), SignatureKey(u))
  }

  lemma SignatureOfSession(u: Setup, i: nat, host: Host, k: nat) returns (j: nat, out: Outcome)
    requires u.kind.Sign? && WritersInv(u, i, host.sessions, host.writes) && LeftAlone(host, SignatureKey(u))
    requires k < |host.writes| && Ops(host.writes)[k].hash == SignatureKey(u)
    ensures out.SignOut? && SavedAnswer(host, j, out)
    ensures Ops(host.writes)[k] == SignatureOp(SignatureKey(u), SignatureRecord(u, out.r, out.s), true)
  {
    j, out := KeyOps(u, i, host, SignatureKey(u), k);
  }

  /** The last thing written under the signature's key is a signature that some session has saved. */
  lemma LastSignature(u: Setup, i: nat, host: Host) returns (j: nat, out: Outcome)
    requires u.kind.Sign? && WritersInv(u, i, host.sessions, host.writes) && LeftAlone(host, SignatureKey(u))
    requires AnySaved(host)
    ensures out.SignOut? && SavedAnswer(host, j, out)
    ensures LastWrite(Ops(host.writes), SignatureKey(u))
         == Some(SignatureOp(SignatureKey(u), SignatureRecord(u, out.r, out.s), true))
  {
    var key, ops := SignatureKey(u), Ops(host.writes);
    SomeSignature(u, i, host);
    LastWriteIndex(ops, key);
    LastWriteIsWrite(ops, key);
    var l :| 0 <= l < |ops| && Some(ops[l]) == LastWrite(ops, key);
    j, out := SignatureOfSession(u, i, host, l);
  }

  lemma SomeSignature(u: Setup, i: nat, host: Host)
    requires u.kind.Sign? && WritersInv(u, i, host.sessions, host.writes) && AnySaved(host)
    ensures exists k :: 0 <= k < |host.writes| && Writes(Ops(host.writes)[k], SignatureKey(u))
  {
    var k, j, out := SessionOp(u, i, host);
    assert Writes(Ops(host.writes)[k], SignatureKey(u));
  }

  lemma SignatureOnHost(u: Setup, i: nat, db: Db, host: Host) returns (j: nat, out: Outcome)
    requires Wf(u) && u.kind.Sign? && i < |u.calls| && StoreInv(u, i, u.calls[i], db, host)
    requires LeftAlone(host, SignatureKey(u)) && AnySaved(host)
    ensures out.SignOut? && SavedAnswer(host, j, out) && HoldsSignature(u, i, host, out.r, out.s)
  {
    j, out := LastSignature(u, i, host);
    SignatureReshares(u, i, host);
    HostHistoryWritten(u, i, db, host, SignatureKey(u));
  }

  lemma SignatureReshares(u: Setup, i: nat, host: Host)
    requires u.kind.Sign? && WritersInv(u, i, host.sessions, host.writes) && LeftAlone(host, SignatureKey(u))
    ensures Reshared(Ops(host.writes), SignatureKey(u)) == None
  {
    forall k | 0 <= k < |host.writes| && Ops(host.writes)[k].hash == SignatureKey(u)
      ensures !Ops(host.writes)[k].UpdateOp?
    {
      var j, out := SignatureOfSession(u, i, host, k);
    }
    NoReshare(Ops(host.writes), SignatureKey(u));
  }

  /** The host holds a signature that one of its sessions has saved. */
  ghost predicate HoldsSavedSignature(u: Setup, i: nat, host: Host)
    requires i < |u.secrets|
  {
    exists j, out :: SavedAnswer(host, j, out) && out.SignOut? && HoldsSignature(u, i, host, out.r, out.s)
  }

  lemma SavedSignature(u: Setup, i: nat, db: Db, host: Host)
    requires Wf(u) && u.kind.Sign? && i < |u.calls| && HostInv(u, i, u.calls[i], db, host)
    requires LeftAlone(host, SignatureKey(u)) && AnySaved(host)
    ensures HoldsSavedSignature(u, i, host)
  {
    var j, out := SignatureOnHost(u, i, db, host);
  }

  /** Over every run of a signing: each host on which a session has saved holds a signature saved there. */
  lemma SigningStoresSignature(u: Setup, dbs: seq<Db>, events: seq<C.Event>, i: nat)
    requires Wf(u) && u.kind.Sign? && |dbs| == |u.secrets| && i < |dbs|
    requires LeftAlone(C.Run(u, dbs, events).hosts[i], SignatureKey(u)) && AnySaved(C.Run(u, dbs, events).hosts[i])
    ensures HoldsSavedSignature(u, i, C.Run(u, dbs, events).hosts[i])
  {
    C.RunInv(u, dbs, events);
    SavedSignature(u, i, dbs[i], C.Run(u, dbs, events).hosts[i]);
  }

  // ----- the coordinator's reply -----

  /** The only session of host 0 has the engine's report, and this is its answer. */
  predicate CoordinatorHas(s: C.State, out: Option<Outcome>)
  {
    && |s.hosts| >= 1 && |s.hosts[0].sessions| == 1
    && !s.hosts[0].sessions[0].session.callback.Quiet?
    && Answer(s.hosts[0].sessions[0].session) == out
  }

  lemma AnswerKeptByAct(u: Setup, dbs: seq<Db>, s: C.State, j: nat, act: Action, out: Option<Outcome>)
    requires Wf(u) && C.HostsInv(u, dbs, s.hosts) && CoordinatorHas(s, out) && j < |s.hosts[0].sessions|
    ensures CoordinatorHas(C.Acted(u, s, 0, j, act), out)
  {
    C.HostActs(u, dbs, s.hosts, 0, j, act);
  }

  lemma ReportedHasStarted(u: Setup, dbs: seq<Db>, s: C.State, out: Option<Outcome>)
    requires C.Inv(u, dbs, s) && CoordinatorHas(s, out)
    ensures !C.StartsNow(s)
  {
    assert SeatInv(u, u.calls[0], dbs[0], s.hosts[0].writes, s.hosts[0].sessions[0]);
  }

  /** An event that leaves the session of host 0 as it is. */
  lemma AnswerKeptByOther(u: Setup, dbs: seq<Db>, s: C.State, ev: C.Event, out: Option<Outcome>)
    requires C.Inv(u, dbs, s) && CoordinatorHas(s, out)
    requires !ev.PeerServes? && !ev.Starts? && !ev.Acts? && !ev.Elsewhere?
    ensures CoordinatorHas(C.Next(u, s, ev), out)
  {
  }

  lemma AnswerKeptByServing(
      u: Setup, dbs: seq<Db>, s: C.State, engineOk: bool, replyArrives: bool, out: Option<Outcome>)
    requires C.Inv(u, dbs, s) && CoordinatorHas(s, out)
    ensures CoordinatorHas(C.Next(u, s, C.PeerServes(engineOk, replyArrives)), out)
  {
    C.NextServes(u, s, engineOk, replyArrives);
  }

  lemma AnswerKeptByUse(u: Setup, s: C.State, i: nat, op: StoreOp, out: Option<Outcome>)
    requires |s.hosts| == |u.calls| >= 1 && CoordinatorHas(s, out)
    ensures CoordinatorHas(C.Next(u, s, C.Elsewhere(i, op)), out)
  {
    C.NextUses(u, s, i, op);
  }

  lemma AnswerKeptByActs(u: Setup, dbs: seq<Db>, s: C.State, i: nat, j: nat, act: Action, out: Option<Outcome>)
    requires Wf(u) && C.HostsInv(u, dbs, s.hosts) && CoordinatorHas(s, out)
    ensures CoordinatorHas(C.Next(u, s, C.Acts(i, j, act)), out)
  {
    C.NextActs(u, s, i, j, act);
    if i == 0 && j < |s.hosts[0].sessions| && !act.Start? {
      AnswerKeptByAct(u, dbs, s, j, act, out);
    }
  }

  lemma AnswerKept(u: Setup, dbs: seq<Db>, s: C.State, ev: C.Event, out: Option<Outcome>)
    requires Wf(u) && C.Inv(u, dbs, s) && CoordinatorHas(s, out)
    ensures CoordinatorHas(C.Next(u, s, ev), out)
  {
    match ev
    case PeerServes(engineOk, replyArrives) => AnswerKeptByServing(u, dbs, s, engineOk, replyArrives, out);
    case Starts =>
      C.NextStarts(u, s);
      ReportedHasStarted(u, dbs, s, out);
    case Acts(i, j, act) => AnswerKeptByActs(u, dbs, s, i, j, act, out);
    case Elsewhere(i, op) => AnswerKeptByUse(u, s, i, op, out);
    case _ => AnswerKeptByOther(u, dbs, s, ev, out);
  }

  predicate CoordinatorHasAfter(u: Setup, dbs: seq<Db>, events: seq<C.Event>, out: Option<Outcome>)
    requires |dbs| == |u.calls| >= 1
  {
    CoordinatorHas(C.Run(u, dbs, events), out)
  }

  lemma AnswerThen(u: Setup, dbs: seq<Db>, events: seq<C.Event>, ev: C.Event, out: Option<Outcome>)
    requires Wf(u) && |dbs| == |u.calls| && CoordinatorHasAfter(u, dbs, events, out)
    ensures CoordinatorHasAfter(u, dbs, events + [ev], out)
  {
    C.RunInv(u, dbs, events);
    C.RunExtend(u, dbs, events, ev);
    AnswerKept(u, dbs, C.Run(u, dbs, events), ev, out);
  }

  lemma AnswerStays(
      u: Setup, dbs: seq<Db>, events: seq<C.Event>, more: seq<C.Event>, out: Option<Outcome>)
    requires Wf(u) && |dbs| == |u.calls| && CoordinatorHasAfter(u, dbs, events, out)
    ensures CoordinatorHasAfter(u, dbs, events + more, out)
  {
    var p := (run: seq<C.Event>) => CoordinatorHasAfter(u, dbs, run, out);
    forall run, ev | p(run)
      ensures p(run + [ev])
    {
      AnswerThen(u, dbs, run, ev, out);
    }
    Survives(p, events, more);
  }

  /** What the store of host 0 shows of this answer, when nothing else there has used its key. */
  ghost predicate ShowsAnswer(u: Setup, db: Db, host: Host, out: Outcome)
    requires |u.secrets| >= 1
  {
    match out
    case KeyOut(r) => LeftAlone(host, u.request.hash) ==> ServesResult(u, 0, host, r)
    case SignOut(r, s) => LeftAlone(host, SignatureKey(u)) ==> HoldsSignature(u, 0, host, r, s)
    case ShareOut(share) =>
      LeftAlone(host, u.request.hash) ==>
        forall r :: Holds(u.suite, u.secrets[0], db, u.request.hash, Some(Key(r))) ==> ServesShare(u, 0, host, r, share)
  }

  /** With one session on the host, what any session has saved is what that one has. */
  lemma OnlySession(host: Host, j: nat, out: Outcome, k: nat, other: Outcome)
    requires |host.sessions| == 1 && SavedAnswer(host, j, out) && SavedAnswer(host, k, other)
    ensures j == k == 0 && out == other
  {
  }

  lemma SavedShows(u: Setup, db: Db, host: Host, out: Outcome)
    requires Wf(u) && HostInv(u, 0, u.calls[0], db, host) && |host.sessions| == 1 && SavedAnswer(host, 0, out)
    ensures ShowsAnswer(u, db, host, out)
  {
    assert SeatInv(u, u.calls[0], db, host.writes, host.sessions[0]);
    assert AnySaved(host);
    match out
    case KeyOut(_) =>
      if LeftAlone(host, u.request.hash) {
        DkgOnHost(u, 0, db, host);
        var j, r :| SavedAnswer(host, j, KeyOut(r)) && ServesResult(u, 0, host, r);
        OnlySession(host, 0, out, j, KeyOut(r));
      }
    case SignOut(_, _) =>
      if LeftAlone(host, SignatureKey(u)) {
        var j, saved := SignatureOnHost(u, 0, db, host);
        OnlySession(host, 0, out, j, saved);
      }
    case ShareOut(_) =>
      if LeftAlone(host, u.request.hash) {
        forall r | Holds(u.suite, u.secrets[0], db, u.request.hash, Some(Key(r)))
          ensures ServesShare(u, 0, host, r, out.share)
        {
          ReshareOnHost(u, 0, db, host, r);
          var j, share :| SavedAnswer(host, j, ShareOut(share)) && ServesShare(u, 0, host, r, share);
          OnlySession(host, 0, out, j, ShareOut(share));
        }
      }
  }

  /**
    What a caller was answered is what gets stored, on the RPC path too: once the coordinator's process has resumed, its
    answer never changes, and from the moment its callback has saved, however late, the write of that answer is one of
    the operations that make its store, and the store shows it unless something else has used its key.
   */
  lemma ReplyIsWhatIsStored(u: Setup, dbs: seq<Db>, events: seq<C.Event>, more: seq<C.Event>)
    requires Wf(u) && |dbs| == |u.calls|
    requires var host := C.Run(u, dbs, events).hosts[0];
             host.sessions != [] && host.sessions[0].session.resumed
    ensures var out := Answer(C.Run(u, dbs, events).hosts[0].sessions[0].session);
            && CoordinatorHas(C.Run(u, dbs, events), out)
            && CoordinatorHas(C.Run(u, dbs, events + more), out)
            && var host := C.Run(u, dbs, events + more).hosts[0];
               SavedSession(host.sessions[0].session) ==>
                 && out.Some?
                 && (exists k :: WroteAnswer(u, 0, host, k, 0, out.value))
                 && ShowsAnswer(u, dbs[0], host, out.value)
  {
    var s := C.Run(u, dbs, events);
    C.RunInv(u, dbs, events);
    assert SeatInv(u, u.calls[0], dbs[0], s.hosts[0].writes, s.hosts[0].sessions[0]);
    var out := Answer(s.hosts[0].sessions[0].session);
    AnswerStays(u, dbs, events, more, out);
    C.RunInv(u, dbs, events + more);
    var host := C.Run(u, dbs, events + more).hosts[0];
    if SavedSession(host.sessions[0].session) {
      SavedShows(u, dbs[0], host, out.value);
      OnlyWrite(u, host, out.value);
    }
  }

  lemma OnlyWrite(u: Setup, host: Host, out: Outcome)
    requires WritersInv(u, 0, host.sessions, host.writes) && |host.sessions| == 1 && SavedAnswer(host, 0, out)
    ensures exists k :: WroteAnswer(u, 0, host, k, 0, out)
  {
    assert AnySaved(host);
    var k, j, saved := SessionOp(u, 0, host);
    OnlySession(host, 0, out, j, saved);
  }

  // ----- at rest -----

  /** The host has nothing left to do by itself for this session. */
  ghost predicate SeatAtRest(u: Setup, i: nat, host: Host, j: nat)
    requires i < |u.calls| && j < |host.sessions|
  {
    Quiescent(u.suite, u.calls[i], TheJob(u), i, Node(Some(host.sessions[j].session), host.handler), host.db)
  }

  /**
    At rest a session that has its report has finished: its process has resumed, and it has written its answer exactly
    when its store operation succeeded, which for key generation and signing means that there was a result and the
    transaction committed.
   */
  lemma HostAtRest(u: Setup, dbs: seq<Db>, events: seq<C.Event>, i: nat, j: nat)
    requires Wf(u) && |dbs| == |u.calls| && i < |dbs| && j < |C.Run(u, dbs, events).hosts[i].sessions|
    requires var host := C.Run(u, dbs, events).hosts[i];
             SeatAtRest(u, i, host, j) && !host.sessions[j].session.callback.Quiet?
    ensures var host := C.Run(u, dbs, events).hosts[i];
            var session := host.sessions[j].session;
            && session.callback.Finished? && session.resumed && session.closes == 1
            && (HasWritten(host.writes, j) <==> Answer(session).Some? && session.callback.stored)
            && (!u.kind.Reshare? ==>
                  (HasWritten(host.writes, j) <==> Answer(session).Some? && session.callback.commits))
  {
    var host := C.Run(u, dbs, events).hosts[i];
    C.RunInv(u, dbs, events);
    assert SeatInv(u, u.calls[i], dbs[i], host.writes, host.sessions[j]);
    RestIsFinished(u.suite, u.calls[i], TheJob(u), i, Node(Some(host.sessions[j].session), host.handler), host.db);
    if !SavedSession(host.sessions[j].session) {
      UnsavedHasNotWritten(u, i, host.sessions, host.writes, j);
    }
  }

  /** The key of the job as the callback of session `j` found it when it came to its write. */
  function FoundEntry(u: Setup, host: Host, j: nat, before: Option<Entry>): Option<Entry>
    requires j < |host.sessions|
  {
    var n := if host.sessions[j].ended <= |host.writes| then host.sessions[j].ended else |host.writes|;
    EntryAfter(before, Ops(host.writes[..n]), u.request.hash)
  }

  lemma FoundOnHost(u: Setup, i: nat, db: Db, host: Host, j: nat, before: Option<Entry>)
    requires Wf(u) && u.kind.Reshare? && i < |u.calls| && HostInv(u, i, u.calls[i], db, host)
    requires j < |host.sessions| && host.sessions[j].session.callback.Finished?
    requires Holds(u.suite, u.secrets[i], db, u.request.hash, before)
    ensures var session := host.sessions[j].session;
            SavedSession(session) <==>
            && Answer(session).Some? && session.callback.commits
            && FoundEntry(u, host, j, before).Some? && FoundEntry(u, host, j, before).value.Key?
  {
    var live := host.sessions[j];
    assert SeatInv(u, u.calls[i], db, host.writes, live);
    assert EndedInv(u, i, u.calls[i], db, host.writes, live);
    if Answer(live.session).Some? {
      var found, out := StoreAt(u, u.calls[i], db, host.writes, live.ended), Answer(live.session).value;
      FoundHolds(u, i, db, host, j, before);
      UpdateSucceeds(u.suite, u.secrets[i], found, u.request.hash, FoundEntry(u, host, j, before), out.share,
                     live.session.callback.commits);
      ShareWriteIs(u, i, found, out, live.session.callback.commits);
    }
  }

  lemma FoundHolds(u: Setup, i: nat, db: Db, host: Host, j: nat, before: Option<Entry>)
    requires Wf(u) && i < |u.calls| && j < |host.sessions| && host.sessions[j].ended <= |host.writes|
    requires Holds(u.suite, u.secrets[i], db, u.request.hash, before)
    ensures Holds(u.suite, u.secrets[i], StoreAt(u, u.calls[i], db, host.writes, host.sessions[j].ended),
                  u.request.hash, FoundEntry(u, host, j, before))
  {
    KeyHistory(u.suite, u.secrets[i], db, u.request.hash, before, Ops(host.writes[..host.sessions[j].ended]));
  }

  lemma ShareWriteIs(u: Setup, i: nat, db: Db, out: Outcome, commits: bool)
    requires Wf(u) && u.kind.Reshare? && i < |u.calls| && out.ShareOut?
    ensures u.calls[i].apply(db, WriteOf(u.suite, TheJob(u), i, out, commits))
         == Updated(u.suite, u.secrets[i], db, u.request.hash, out.share, commits)
  {
  }

  /**
    For resharing, a session whose callback has finished has written exactly when there was a share, the transaction
    committed, and the operations made on the host's store by then had left a result under the key.
   */
  lemma ReshareHasWrittenIff(
      u: Setup, dbs: seq<Db>, events: seq<C.Event>, i: nat, j: nat, before: Option<Entry>)
    requires Wf(u) && u.kind.Reshare? && |dbs| == |u.calls| && i < |dbs|
    requires j < |C.Run(u, dbs, events).hosts[i].sessions|
    requires C.Run(u, dbs, events).hosts[i].sessions[j].session.callback.Finished?
    requires Holds(u.suite, u.secrets[i], dbs[i], u.request.hash, before)
    ensures var host := C.Run(u, dbs, events).hosts[i];
            var session := host.sessions[j].session;
            HasWritten(host.writes, j) <==>
            && Answer(session).Some? && session.callback.commits
            && FoundEntry(u, host, j, before).Some? && FoundEntry(u, host, j, before).value.Key?
  {
    var host := C.Run(u, dbs, events).hosts[i];
    C.RunInv(u, dbs, events);
    FoundOnHost(u, i, dbs[i], host, j, before);
    if !SavedSession(host.sessions[j].session) {
      UnsavedHasNotWritten(u, i, host.sessions, host.writes, j);
    }
  }
}
