/** What self-host ceremonies leave in the shared store, over every interleaving. */
module SelfHostStore {
  import opened Basics
  import opened Numbers
  import opened Curve
  import opened Records
  import opened Fsm
  import opened BadgerStore
  import opened StoreInterface
  import opened StoreHistory
  import opened Keys
  import opened Session
  import opened SelfHost
  import J = Json
  import W = Workers

  function KeyAt(e: Ceremony, i: nat): Text
  {
    ResultKey(e.suite, e.job, i)
  }

  /** What a finished write leaves under its key. */
  function ResultJson(e: Ceremony, i: nat, out: Outcome): J.Json
  {
    match WriteOf(e.suite, e.job, i, out, true)
    case SaveOp(_, result, _) => DkgJson(e.suite, e.secret, result)
    case SignatureOp(_, signature, _) => SignatureJson(signature)
    case UpdateOp(_, _, _) => J.JNull
  }

  /** One step of any host: either nothing is saved, or one result is written under that host's key. */
  ghost predicate Effect(e: Ceremony, i: nat, h: Node, h': Node, db: Db, db': Db)
  {
    && (Saved(h) ==> Saved(h') && ResultOf(h') == ResultOf(h))
    && (Saved(h') == Saved(h) ==> db' == db)
    && (Saved(h') && !Saved(h) ==>
          ResultOf(h').Some? && db' == db[KeyAt(e, i) := ResultJson(e, i, ResultOf(h').value)])
  }

  lemma ActEffect(e: Ceremony, i: nat, h: Node, db: Db, act: Action)
    requires Wf(e) && NodeInv(e.job, h)
    ensures var (h', db') := Act(e.suite, e.calls, e.job, i, h, db, act);
            Effect(e, i, h, h', db, db')
  {
    BadgerIsAtomic(e.suite, e.secret);
    ActAndStore(e.suite, e.calls, e.job, i, h, db, act);
  }

  lemma BuildEffect(e: Ceremony, s: State, i: nat, engineOk: bool)
    requires Shape(e, s) && i < e.n && s.nodes[i].session == None
    ensures var s' := Build(e, s, i, engineOk);
            s'.nodes == s.nodes[i := s'.nodes[i]] && Effect(e, i, s.nodes[i], s'.nodes[i], s.db, s'.db)
  {
  }

  lemma CtlEffect(e: Ceremony, s: State, step: W.Step)
    requires Wf(e) && NodesInv(e, s)
    ensures var s' := Next(e, s, Ctl(step));
            s'.nodes == s.nodes[0 := s'.nodes[0]] && Effect(e, 0, s.nodes[0], s'.nodes[0], s.db, s'.db)
  {
    ActEffect(e, 0, s.nodes[0], s.db, Start);
  }

  lemma NodeEffect(e: Ceremony, s: State, j: nat, act: Action)
    requires Wf(e) && NodesInv(e, s) && j < e.n
    ensures var s' := Next(e, s, NodeActs(j, act));
            s'.nodes == s.nodes[j := s'.nodes[j]] && Effect(e, j, s.nodes[j], s'.nodes[j], s.db, s'.db)
  {
    ActEffect(e, j, s.nodes[j], s.db, act);
    NextActs(e, s, j, act);
  }

  lemma NextActs(e: Ceremony, s: State, j: nat, act: Action)
    requires Shape(e, s) && j < e.n
    ensures Next(e, s, NodeActs(j, act)) ==
            if j == 0 && act.Start? then s
            else
              var (h, db) := Act(e.suite, e.calls, e.job, j, s.nodes[j], s.db, act);
              s.(nodes := s.nodes[j := h], db := db)
  {
  }

  /** Every event touches at most one host, with an effect as above. */
  lemma NextEffect(e: Ceremony, s: State, ev: Event) returns (i: nat)
    requires Wf(e) && NodesInv(e, s)
    ensures i < e.n
    ensures Next(e, s, ev).nodes == s.nodes[i := Next(e, s, ev).nodes[i]]
    ensures Effect(e, i, s.nodes[i], Next(e, s, ev).nodes[i], s.db, Next(e, s, ev).db)
  {
    i := 0;
    match ev
    case WorkerBuilds(w, _) =>
      if w < e.n - 1 && s.control.workers[w] == W.Spawned {
        i := w + 1;
        BuildEffect(e, s, i, ev.engineOk);
      }
    case PrimaryBuilds(_) =>
      if s.control.primary == W.Fresh {
        BuildEffect(e, s, 0, ev.engineOk);
      }
    case Ctl(step) => CtlEffect(e, s, step);
    case NodeActs(j, act) =>
      if j < e.n {
        i := j;
        NodeEffect(e, s, j, act);
      }
  }

  // ----- many ceremonies over one store -----

  /** A process in self-host mode: all its ceremonies, whenever they begin, work on the same store. */
  datatype Site = Site(suite: Suite, secret: Secret, ceremonies: seq<Ceremony>)

  predicate Sized(site: Site)
  {
    forall c :: 0 <= c < |site.ceremonies| ==> site.ceremonies[c].n >= 1
  }

  /** Any number of key generations, each under a hash of its own, and any number of signings of any messages. */
  ghost predicate SiteWf(site: Site)
  {
    && (forall c :: 0 <= c < |site.ceremonies| ==>
          && Wf(site.ceremonies[c])
          && site.ceremonies[c].suite == site.suite
          && site.ceremonies[c].secret == site.secret)
    && (forall c, d :: 0 <= c < d < |site.ceremonies| && IsDkg(site, c) && IsDkg(site, d) ==>
          site.ceremonies[c].job.hash != site.ceremonies[d].job.hash)
  }

  predicate IsDkg(site: Site, c: nat)
    requires c < |site.ceremonies|
  {
    site.ceremonies[c].job.kind.Dkg?
  }

  /**
    What sessions of the RPC path write to the same store: results and new shares under whatever key the caller names,
    and signatures under the hash of the message.
   */
  datatype RpcWrite =
    | Generates(hash: Text, result: DkgResult, commits: bool)
    | Signs(message: Text, r: nat, s: nat, commits: bool)
    | Reshares(hash: Text, share: nat, commits: bool)

  function OpOf(suite: Suite, x: RpcWrite): StoreOp
  {
    match x
    case Generates(hash, result, commits) => SaveOp(hash, result, commits)
    case Signs(message, r, s, commits) =>
      var key := ToHexHash(suite, message);
      SignatureOp(key, RVSignature(HexEncode(ToBytes(r)), HexEncode(ToBytes(s)), key), commits)
    case Reshares(hash, share, commits) => UpdateOp(hash, share, commits)
  }

  /** They are what sessions of that path write at their end. */
  lemma RpcWrites(suite: Suite, hash: Text, message: Text, i: nat, result: DkgResult, r: nat, s: nat, share: nat,
                  commits: bool)
    ensures OpOf(suite, Generates(hash, result, commits))
         == WriteOf(suite, Job(Dkg, hash, [], [], false), i, KeyOut(result), commits)
    ensures OpOf(suite, Signs(message, r, s, commits))
         == WriteOf(suite, Job(Sign, hash, [], message, false), i, SignOut(r, s), commits)
    ensures OpOf(suite, Reshares(hash, share, commits))
         == WriteOf(suite, Job(Reshare, hash, [], [], false), i, ShareOut(share), commits)
  {
  }

  /** The states of the ceremonies; the store is the common one, whatever their own says. */
  datatype World = World(states: seq<State>, db: Db)

  datatype Happening =
    | Ours(c: nat, ev: Event)    // an event of one ceremony
    | Elsewhere(op: RpcWrite)    // the RPC path of the same process

  predicate WorldShape(site: Site, w: World)
  {
    |w.states| == |site.ceremonies| && forall c :: 0 <= c < |w.states| ==> Shape(site.ceremonies[c], w.states[c])
  }

  function At(w: World, c: nat): State
    requires c < |w.states|
  {
    w.states[c].(db := w.db)
  }

  function Then(site: Site, w: World, hp: Happening): (w': World)
    requires WorldShape(site, w)
    ensures WorldShape(site, w')
  {
    match hp
    case Ours(c, ev) =>
      if c < |w.states| then
        var s := Next(site.ceremonies[c], At(w, c), ev);
        World(w.states[c := s], s.db)
      else w
    case Elsewhere(op) => w.(db := Apply(site.suite, site.secret, w.db, OpOf(site.suite, op)))
  }

  function Live(site: Site, db: Db, hs: seq<Happening>): (w: World)
    requires Sized(site)
    ensures WorldShape(site, w)
  {
    if hs == [] then
      World(seq(|site.ceremonies|, c requires 0 <= c < |site.ceremonies| => Init(site.ceremonies[c], db)), db)
    else Then(site, Live(site, db, hs[..|hs| - 1]), hs[|hs| - 1])
  }

  lemma LiveExtend(site: Site, db: Db, hs: seq<Happening>, hp: Happening)
    requires Sized(site)
    ensures Live(site, db, hs + [hp]) == Then(site, Live(site, db, hs), hp)
  {
    assert (hs + [hp])[..|hs|] == hs;
  }

  // ----- every ceremony stays safe whatever the others do -----

  ghost predicate WorldInv(site: Site, w: World)
    requires WorldShape(site, w)
  {
    forall c :: 0 <= c < |w.states| ==>
      NodesInv(site.ceremonies[c], w.states[c]) && W.Reachable(site.ceremonies[c].n, w.states[c].control)
  }

  lemma OtherStore(e: Ceremony, s: State, db: Db)
    requires NodesInv(e, s)
    ensures NodesInv(e, s.(db := db))
  {
  }

  lemma ThenKeepsInv(site: Site, w: World, hp: Happening)
    requires WorldShape(site, w) && WorldInv(site, w)
    ensures WorldInv(site, Then(site, w, hp))
  {
    if hp.Ours? && hp.c < |w.states| {
      OtherStore(site.ceremonies[hp.c], w.states[hp.c], w.db);
      ReachableNext(site.ceremonies[hp.c], At(w, hp.c), hp.ev);
    }
  }

  /** Each ceremony of a site keeps what SelfHostSafety says, however the ceremonies overlap. */
  lemma {:induction false} EveryCeremonySafe(site: Site, db: Db, hs: seq<Happening>)
    requires Sized(site)
    ensures WorldInv(site, Live(site, db, hs))
    ensures forall c :: 0 <= c < |site.ceremonies| ==> Safe(site.ceremonies[c], Live(site, db, hs).states[c])
  {
    if hs == [] {
      forall c | 0 <= c < |site.ceremonies|
        ensures NodesInv(site.ceremonies[c], Init(site.ceremonies[c], db))
        ensures W.Reachable(site.ceremonies[c].n, Init(site.ceremonies[c], db).control)
      {
        ReachableInit(site.ceremonies[c], db);
      }
    } else {
      EveryCeremonySafe(site, db, hs[..|hs| - 1]);
      ThenKeepsInv(site, Live(site, db, hs[..|hs| - 1]), hs[|hs| - 1]);
    }
    forall c | 0 <= c < |site.ceremonies|
      ensures Safe(site.ceremonies[c], Live(site, db, hs).states[c])
    {
      ReachableIsSafe(site.ceremonies[c], Live(site, db, hs).states[c]);
    }
  }

  // ----- where everything in the store comes from -----

  /** Node `i` of ceremony `c` has written its result under the key `k`. */
  predicate Wrote(site: Site, w: World, c: nat, i: nat, k: Text)
    requires WorldShape(site, w)
  {
    && c < |w.states| && i < site.ceremonies[c].n
    && Saved(w.states[c].nodes[i])
    && ResultOf(w.states[c].nodes[i]).Some?
    && KeyAt(site.ceremonies[c], i) == k
  }

  function WrittenBy(site: Site, w: World, c: nat, i: nat, k: Text): J.Json
    requires WorldShape(site, w) && Wrote(site, w, c, i, k)
  {
    ResultJson(site.ceremonies[c], i, ResultOf(w.states[c].nodes[i]).value)
  }

  /** The store holds that result now. */
  predicate Shows(site: Site, w: World, c: nat, i: nat, k: Text)
    requires WorldShape(site, w)
  {
    Wrote(site, w, c, i, k) && k in w.db && w.db[k] == WrittenBy(site, w, c, i, k)
  }

  ghost predicate FromWriters(site: Site, db: Db, w: World, k: Text)
    requires WorldShape(site, w)
  {
    if exists c, i :: Wrote(site, w, c, i, k) then exists c, i :: Shows(site, w, c, i, k) else SameAt(w.db, db, k)
  }

  /** The RPC path has not written under this key. */
  predicate Untouched(site: Site, hs: seq<Happening>, k: Text)
  {
    forall hp :: hp in hs && hp.Elsewhere? ==> OpOf(site.suite, hp.op).hash != k
  }

  /** From one world to the next, node `i` of ceremony `c` makes a step, and nothing else happens. */
  ghost predicate Moves(site: Site, w: World, w': World, c: nat, i: nat)
  {
    && WorldShape(site, w) && WorldShape(site, w')
    && c < |w.states| && i < site.ceremonies[c].n
    && w'.states == w.states[c := w'.states[c]]
    && w'.states[c].nodes == w.states[c].nodes[i := w'.states[c].nodes[i]]
    && Effect(site.ceremonies[c], i, w.states[c].nodes[i], w'.states[c].nodes[i], w.db, w'.db)
  }

  lemma OneNodeMoves(site: Site, w: World, c: nat, ev: Event) returns (i: nat)
    requires SiteWf(site) && WorldShape(site, w) && WorldInv(site, w) && c < |w.states|
    ensures Moves(site, w, Then(site, w, Ours(c, ev)), c, i)
  {
    OtherStore(site.ceremonies[c], w.states[c], w.db);
    i := NextEffect(site.ceremonies[c], At(w, c), ev);
  }

  /** What was written stays written, by the same nodes. */
  lemma WroteStays(site: Site, w: World, w': World, c: nat, i: nat, d: nat, j: nat, k: Text)
    requires Moves(site, w, w', c, i) && Wrote(site, w, d, j, k)
    ensures Wrote(site, w', d, j, k)
    ensures WrittenBy(site, w', d, j, k) == WrittenBy(site, w, d, j, k)
  {
  }

  /** The step writes the key. */
  predicate SavesUnder(site: Site, w: World, w': World, c: nat, i: nat, k: Text)
    requires WorldShape(site, w) && WorldShape(site, w') && c < |w.states| && i < site.ceremonies[c].n
  {
    Saved(w'.states[c].nodes[i]) && !Saved(w.states[c].nodes[i]) && KeyAt(site.ceremonies[c], i) == k
  }

  lemma EventKeepsWriters(site: Site, db: Db, w: World, c: nat, ev: Event, k: Text)
    requires SiteWf(site) && WorldShape(site, w) && WorldInv(site, w) && c < |w.states|
    requires FromWriters(site, db, w, k)
    ensures FromWriters(site, db, Then(site, w, Ours(c, ev)), k)
  {
    var i := OneNodeMoves(site, w, c, ev);
    MoveKeepsWriters(site, db, w, Then(site, w, Ours(c, ev)), c, i, k);
  }

  lemma MoveKeepsWriters(site: Site, db: Db, w: World, w': World, c: nat, i: nat, k: Text)
    requires Moves(site, w, w', c, i) && FromWriters(site, db, w, k)
    ensures FromWriters(site, db, w', k)
  {
    if SavesUnder(site, w, w', c, i, k) {
      assert Shows(site, w', c, i, k);
    } else {
      KeyUnmoved(site, db, w, w', c, i, k);
    }
  }

  lemma KeyUnmoved(site: Site, db: Db, w: World, w': World, c: nat, i: nat, k: Text)
    requires Moves(site, w, w', c, i) && !SavesUnder(site, w, w', c, i, k) && FromWriters(site, db, w, k)
    ensures SameAt(w'.db, w.db, k) && FromWriters(site, db, w', k)
  {
    assert SameAt(w'.db, w.db, k);
    if exists d, j :: Wrote(site, w, d, j, k) {
      var d, j :| Shows(site, w, d, j, k);
      WroteStays(site, w, w', c, i, d, j, k);
      assert Shows(site, w', d, j, k);
    } else {
      forall d, j
        ensures !Wrote(site, w', d, j, k)
      {
        assert !Wrote(site, w, d, j, k);
      }
    }
  }

  /**
    At every moment of every interleaving of any number of ceremonies, and for every key nothing else writes to: the
    store holds the result of a node that has saved under that key, or what it held at first when none has.
   */
  lemma {:induction false} Provenance(site: Site, db: Db, hs: seq<Happening>, k: Text)
    requires SiteWf(site) && Untouched(site, hs, k)
    ensures FromWriters(site, db, Live(site, db, hs), k)
  {
    if hs != [] {
      var earlier, hp := hs[..|hs| - 1], hs[|hs| - 1];
      var w := Live(site, db, earlier);
      assert hp in hs && forall other :: other in earlier ==> other in hs;
      Provenance(site, db, earlier, k);
      EveryCeremonySafe(site, db, earlier);
      if hp.Ours? && hp.c < |w.states| {
        EventKeepsWriters(site, db, w, hp.c, hp.ev, k);
      } else if hp.Elsewhere? {
        OtherKeysUntouched(site.suite, site.secret, w.db, OpOf(site.suite, hp.op), k);
        ElsewhereKeepsWriters(site, db, w, hp.op, k);
      }
    } else {
      assert forall c, i :: !Wrote(site, Live(site, db, []), c, i, k);
    }
  }

  lemma ElsewhereKeepsWriters(site: Site, db: Db, w: World, op: RpcWrite, k: Text)
    requires WorldShape(site, w) && FromWriters(site, db, w, k)
    requires SameAt(Apply(site.suite, site.secret, w.db, OpOf(site.suite, op)), w.db, k)
    ensures FromWriters(site, db, Then(site, w, Elsewhere(op)), k)
  {
    var w' := Then(site, w, Elsewhere(op));
    assert forall c, i :: Wrote(site, w', c, i, k) <==> Wrote(site, w, c, i, k);
    if exists c, i :: Wrote(site, w, c, i, k) {
      var c, i :| Shows(site, w, c, i, k);
      assert Shows(site, w', c, i, k);
    }
  }

  // ----- shares -----

  /** The key of a node is written by that node's own key generation only. */
  lemma OwnNodeWrites(site: Site, w: World, c: nat, i: nat, hash: Text, j: nat)
    requires SiteWf(site) && WorldShape(site, w) && WorldInv(site, w)
    requires Wrote(site, w, c, i, NodeKey(hash, j))
    ensures IsDkg(site, c) && site.ceremonies[c].job.hash == hash && i == j
    ensures ResultOf(w.states[c].nodes[i]).value.KeyOut?
  {
    var e := site.ceremonies[c];
    assert NodeInv(e.job, w.states[c].nodes[i]);
    HashIsNotNodeKey(e.suite, e.job.message, hash, j);
    NodeKeyInjective(e.job.hash, i, hash, j);
  }

  /** Node `i` of a key generation of this hash has saved. */
  predicate Generated(site: Site, w: World, d: nat, hash: Text, i: nat)
    requires WorldShape(site, w)
  {
    && d < |w.states| && IsDkg(site, d) && site.ceremonies[d].job.hash == hash && i < site.ceremonies[d].n
    && Saved(w.states[d].nodes[i])
  }

  lemma GeneratedWrote(site: Site, w: World, d: nat, hash: Text, i: nat)
    requires SiteWf(site) && WorldShape(site, w) && WorldInv(site, w)
    requires Generated(site, w, d, hash, i)
    ensures Wrote(site, w, d, i, NodeKey(hash, i))
    ensures ResultOf(w.states[d].nodes[i]).Some? && ResultOf(w.states[d].nodes[i]).value.KeyOut?
    ensures WrittenBy(site, w, d, i, NodeKey(hash, i))
         == DkgJson(site.suite, site.secret, ResultOf(w.states[d].nodes[i]).value.result)
  {
    assert NodeInv(site.ceremonies[d].job, w.states[d].nodes[i]);
  }

  lemma DkgKey(site: Site, c: nat, i: nat)
    requires SiteWf(site) && c < |site.ceremonies| && IsDkg(site, c)
    ensures KeyAt(site.ceremonies[c], i) == NodeKey(site.ceremonies[c].job.hash, i)
  {
  }

  lemma OneGeneration(site: Site, c: nat, d: nat)
    requires SiteWf(site) && c < |site.ceremonies| && d < |site.ceremonies|
    requires IsDkg(site, c) && IsDkg(site, d) && site.ceremonies[c].job.hash == site.ceremonies[d].job.hash
    ensures c == d
  {
  }

  /** There is one writer of a node key, so the store shows what it has written. */
  lemma GeneratedShows(site: Site, db: Db, w: World, d: nat, hash: Text, i: nat)
    requires SiteWf(site) && WorldShape(site, w) && WorldInv(site, w)
    requires FromWriters(site, db, w, NodeKey(hash, i)) && Generated(site, w, d, hash, i)
    ensures Shows(site, w, d, i, NodeKey(hash, i))
  {
    GeneratedWrote(site, w, d, hash, i);
    var c, j :| Shows(site, w, c, j, NodeKey(hash, i));
    OwnNodeWrites(site, w, c, j, hash, i);
    OneGeneration(site, c, d);
  }

  /** A share changes only when its own node saves a new one: no signing and no other key generation touches it. */
  lemma SharesStay(site: Site, db: Db, w: World, hash: Text, i: nat)
    requires SiteWf(site) && WorldShape(site, w) && WorldInv(site, w)
    requires FromWriters(site, db, w, NodeKey(hash, i))
    requires forall d :: !Generated(site, w, d, hash, i)
    ensures SameAt(w.db, db, NodeKey(hash, i))
  {
    if c, j :| Wrote(site, w, c, j, NodeKey(hash, i)) {
      OwnNodeWrites(site, w, c, j, hash, i);
      assert Generated(site, w, c, hash, i);
    }
  }

  /** No key generation or reshare of the RPC path has named this key. */
  predicate NotNamed(hs: seq<Happening>, key: Text)
  {
    forall hp :: hp in hs && hp.Elsewhere? && !hp.op.Signs? ==> hp.op.hash != key
  }

  /** Nothing else of the RPC path can reach a node key. */
  lemma OnlyNamed(site: Site, hs: seq<Happening>, hash: Text, i: nat)
    requires NotNamed(hs, NodeKey(hash, i))
    ensures Untouched(site, hs, NodeKey(hash, i))
  {
    forall hp | hp in hs && hp.Elsewhere?
      ensures OpOf(site.suite, hp.op).hash != NodeKey(hash, i)
    {
      if hp.op.Signs? {
        HashIsNotNodeKey(site.suite, hp.op.message, hash, i);
      }
    }
  }

  /**
    Until its own node saves a new share, or a key generation or reshare over RPC names it, every answer for a node key
    stays the same, whatever else is signed or generated by anyone.
   */
  lemma SigningKeepsShares(site: Site, db: Db, hs: seq<Happening>, hash: Text, i: nat, pubkey: Text)
    requires SiteWf(site) && NotNamed(hs, NodeKey(hash, i))
    requires forall d :: !Generated(site, Live(site, db, hs), d, hash, i)
    ensures Config(site.suite, site.secret, Live(site, db, hs).db, NodeKey(hash, i), pubkey)
         == Config(site.suite, site.secret, db, NodeKey(hash, i), pubkey)
  {
    OnlyNamed(site, hs, hash, i);
    EveryCeremonySafe(site, db, hs);
    Provenance(site, db, hs, NodeKey(hash, i));
    SharesStay(site, db, Live(site, db, hs), hash, i);
    ConfigLocal(site.suite, site.secret, db, Live(site, db, hs).db, NodeKey(hash, i), pubkey);
  }

  lemma ConfigLocal(suite: Suite, secret: Secret, db: Db, db': Db, hash: Text, pubkey: Text)
    requires SameAt(db', db, hash)
    ensures Config(suite, secret, db', hash, pubkey) == Config(suite, secret, db, hash, pubkey)
  {
  }

  lemma LoadIs(e: Ceremony, i: nat, db: Db)
    requires Wf(e)
    ensures LoadKey(e, i, db) ==
            Load(Badger(e.suite, e.secret), db, NodeKey(e.job.hash, i), e.job.pubkey)
  {
  }

  /** Keys change by builds only, and a build fills in the key of its own node. */
  lemma KeysChange(e: Ceremony, s: State, ev: Event)
    requires Shape(e, s)
    ensures ev.Ctl? || ev.NodeActs? ==> Next(e, s, ev).keys == s.keys
    ensures ev.WorkerBuilds? ==>
              Next(e, s, ev).keys == s.keys
              || (ev.w < e.n - 1 && Next(e, s, ev).keys == Build(e, s, ev.w + 1, ev.engineOk).keys)
    ensures ev.PrimaryBuilds? ==>
              Next(e, s, ev).keys == s.keys || Next(e, s, ev).keys == Build(e, s, 0, ev.engineOk).keys
  {
  }

  ghost predicate LoadedFrom(e: Ceremony, i: nat, db: Db, key: EngineKey)
  {
    LoadKey(e, i, db) == Ok(key)
  }

  lemma BuildKeys(e: Ceremony, s: State, j: nat, engineOk: bool, i: nat)
    requires e.job.kind.Sign? && Shape(e, s) && i < e.n && j < e.n
    ensures var keys := Build(e, s, j, engineOk).keys;
            keys[i] == s.keys[i] || (keys[i].Some? && LoadedFrom(e, i, s.db, keys[i].value))
  {
  }

  lemma KeysMove(e: Ceremony, s: State, ev: Event, i: nat)
    requires e.job.kind.Sign? && i < e.n && Shape(e, s)
    ensures var keys := Next(e, s, ev).keys;
            keys[i] == s.keys[i] || (keys[i].Some? && LoadedFrom(e, i, s.db, keys[i].value))
  {
    KeysChange(e, s, ev);
    if ev.WorkerBuilds? && ev.w < e.n - 1 {
      BuildKeys(e, s, ev.w + 1, ev.engineOk, i);
    } else if ev.PrimaryBuilds? {
      BuildKeys(e, s, 0, ev.engineOk, i);
    }
  }

  /** Nodes that have saved stay saved, with the same results. */
  ghost predicate SavesKept(site: Site, w: World, w': World)
    requires WorldShape(site, w) && WorldShape(site, w')
  {
    forall c: nat, i: nat :: c < |site.ceremonies| && i < site.ceremonies[c].n ==>
      SaveKept(w.states[c].nodes[i], w'.states[c].nodes[i])
  }

  predicate SaveKept(h: Node, h': Node)
  {
    Saved(h) ==> Saved(h') && ResultOf(h') == ResultOf(h)
  }

  lemma MoveKeepsSaves(site: Site, w: World, w': World, c: nat, i: nat)
    requires Moves(site, w, w', c, i)
    ensures SavesKept(site, w, w')
  {
  }

  lemma ThenKeepsSaves(site: Site, w: World, hp: Happening)
    requires SiteWf(site) && WorldShape(site, w) && WorldInv(site, w)
    ensures SavesKept(site, w, Then(site, w, hp))
  {
    if hp.Ours? && hp.c < |w.states| {
      var i := OneNodeMoves(site, w, hp.c, hp.ev);
      MoveKeepsSaves(site, w, Then(site, w, hp), hp.c, i);
    }
  }
}
