/**
  The shared store of self-host mode as the history of what was done to it, by any number of overlapping ceremonies and
  by the RPC path of the same process.
 */
module SelfHostHistory {
  import opened Basics
  import opened Curve
  import opened Records
  import opened Fsm
  import opened BadgerStore
  import opened StoreInterface
  import opened StoreHistory
  import opened Keys
  import opened Session
  import opened SelfHost
  import opened SelfHostStore

  // ----- the operations of a run -----

  /** The write of node `i` of ceremony `c`, which has saved. */
  function NodeOp(site: Site, w: World, c: nat, i: nat): StoreOp
    requires WorldShape(site, w) && HasSaved(site, w, c, i)
  {
    var e := site.ceremonies[c];
    WriteOf(e.suite, e.job, i, ResultOf(w.states[c].nodes[i]).value, true)
  }

  predicate HasSaved(site: Site, w: World, c: nat, i: nat)
    requires WorldShape(site, w)
  {
    c < |w.states| && i < site.ceremonies[c].n && Saved(w.states[c].nodes[i])
  }

  /** What one happening does to the store: at most one operation. */
  function StepOps(site: Site, w: World, hp: Happening): (ops: seq<StoreOp>)
    requires WorldShape(site, w)
    ensures |ops| <= 1
  {
    match hp
    case Elsewhere(x) => [OpOf(site.suite, x)]
    case Ours(c, ev) =>
      var w' := Then(site, w, hp);
      if ev.NodeActs? && HasSaved(site, w', c, ev.i) && !HasSaved(site, w, c, ev.i) then [NodeOp(site, w', c, ev.i)]
      else []
  }

  function RunOps(site: Site, db: Db, hs: seq<Happening>): seq<StoreOp>
    requires Sized(site)
  {
    if hs == [] then []
    else
      RunOps(site, db, hs[..|hs| - 1]) + StepOps(site, Live(site, db, hs[..|hs| - 1]), hs[|hs| - 1])
  }

  lemma OpsExtend(site: Site, db: Db, hs: seq<Happening>, hp: Happening)
    requires Sized(site)
    ensures RunOps(site, db, hs + [hp]) == RunOps(site, db, hs) + StepOps(site, Live(site, db, hs), hp)
  {
    assert (hs + [hp])[..|hs|] == hs;
  }

  // ----- the store is what they make of it -----

  /** A node's own step, as an operation on the store. */
  lemma ActIsOp(e: Ceremony, i: nat, h: Node, db: Db, act: Action)
    requires Wf(e) && NodeInv(e.job, h)
    ensures var (h', db') := Act(e.suite, e.calls, e.job, i, h, db, act);
            && (Saved(h) ==> Saved(h'))
            && (Saved(h') && !Saved(h) ==>
                  && ResultOf(h').Some?
                  && db' == Apply(e.suite, e.secret, db, WriteOf(e.suite, e.job, i, ResultOf(h').value, true)))
            && (Saved(h') == Saved(h) ==> db' == db)
  {
    BadgerIsAtomic(e.suite, e.secret);
    ActAndStore(e.suite, e.calls, e.job, i, h, db, act);
  }

  lemma NextIsOp(e: Ceremony, s: State, ev: Event)
    requires Wf(e) && NodesInv(e, s)
    ensures !ev.NodeActs? ==> Next(e, s, ev).db == s.db
    ensures ev.NodeActs? && ev.i >= e.n ==> Next(e, s, ev).db == s.db
    ensures ev.NodeActs? && ev.i < e.n ==>
              var (h, h') := (s.nodes[ev.i], Next(e, s, ev).nodes[ev.i]);
              && (Saved(h) ==> Saved(h'))
              && (Saved(h') && !Saved(h) ==>
                    && ResultOf(h').Some?
                    && Next(e, s, ev).db
                       == Apply(e.suite, e.secret, s.db, WriteOf(e.suite, e.job, ev.i, ResultOf(h').value, true)))
              && (Saved(h') == Saved(h) ==> Next(e, s, ev).db == s.db)
  {
    if ev.NodeActs? && ev.i < e.n {
      ActIsOp(e, ev.i, s.nodes[ev.i], s.db, ev.act);
    }
  }

  lemma StepIsOps(site: Site, w: World, hp: Happening)
    requires SiteWf(site) && WorldShape(site, w) && WorldInv(site, w)
    ensures var ops := StepOps(site, w, hp);
            Then(site, w, hp).db == if ops == [] then w.db else Apply(site.suite, site.secret, w.db, ops[0])
  {
    if hp.Ours? && hp.c < |w.states| {
      OtherStore(site.ceremonies[hp.c], w.states[hp.c], w.db);
      NextIsOp(site.ceremonies[hp.c], At(w, hp.c), hp.ev);
    }
  }

  lemma ReplayStep(suite: Suite, secret: Secret, db: Db, ops: seq<StoreOp>, more: seq<StoreOp>)
    requires |more| <= 1
    ensures Replay(Badger(suite, secret), db, ops + more) ==
            var d := Replay(Badger(suite, secret), db, ops);
            if more == [] then d else Apply(suite, secret, d, more[0])
  {
    if more == [] {
      assert ops + more == ops;
    } else {
      assert (ops + more)[..|ops|] == ops;
    }
  }

  ghost predicate IsHistory(site: Site, db: Db, hs: seq<Happening>)
    requires Sized(site)
  {
    Live(site, db, hs).db == Replay(Badger(site.suite, site.secret), db, RunOps(site, db, hs))
  }

  lemma HistoryNext(site: Site, db: Db, hs: seq<Happening>, hp: Happening)
    requires SiteWf(site) && IsHistory(site, db, hs)
    ensures IsHistory(site, db, hs + [hp])
  {
    EveryCeremonySafe(site, db, hs);
    LiveExtend(site, db, hs, hp);
    OpsExtend(site, db, hs, hp);
    StepIsOps(site, Live(site, db, hs), hp);
    ReplayStep(site.suite, site.secret, db, RunOps(site, db, hs), StepOps(site, Live(site, db, hs), hp));
  }

  // ----- and this is where they come from -----

  /** Node `i` of ceremony `c` has made this write. */
  predicate NodeMade(site: Site, w: World, c: nat, i: nat, op: StoreOp)
    requires WorldShape(site, w)
  {
    HasSaved(site, w, c, i) && op == NodeOp(site, w, c, i)
  }

  predicate RpcMade(site: Site, hs: seq<Happening>, x: RpcWrite, op: StoreOp)
  {
    Elsewhere(x) in hs && op == OpOf(site.suite, x)
  }

  ghost predicate Explained(site: Site, w: World, hs: seq<Happening>, op: StoreOp)
    requires WorldShape(site, w)
  {
    (exists c, i :: NodeMade(site, w, c, i, op)) || exists x :: RpcMade(site, hs, x, op)
  }

  lemma MadeStays(site: Site, w: World, w': World, c: nat, i: nat, op: StoreOp)
    requires WorldShape(site, w) && WorldShape(site, w') && SavesKept(site, w, w') && NodeMade(site, w, c, i, op)
    ensures NodeMade(site, w', c, i, op)
  {
    assert SaveKept(w.states[c].nodes[i], w'.states[c].nodes[i]);
  }

  lemma ExplainedStays(site: Site, w: World, w': World, hs: seq<Happening>, hp: Happening, op: StoreOp)
    requires WorldShape(site, w) && WorldShape(site, w') && SavesKept(site, w, w') && Explained(site, w, hs, op)
    ensures Explained(site, w', hs + [hp], op)
  {
    if c, i :| NodeMade(site, w, c, i, op) {
      MadeStays(site, w, w', c, i, op);
    } else {
      var x :| RpcMade(site, hs, x, op);
      assert RpcMade(site, hs + [hp], x, op);
    }
  }

  lemma StepExplained(site: Site, w: World, hs: seq<Happening>, hp: Happening)
    requires WorldShape(site, w) && StepOps(site, w, hp) != []
    ensures Explained(site, Then(site, w, hp), hs + [hp], StepOps(site, w, hp)[0])
  {
    match hp
    case Elsewhere(x) => assert RpcMade(site, hs + [hp], x, OpOf(site.suite, x));
    case Ours(c, ev) => assert NodeMade(site, Then(site, w, hp), c, ev.i, StepOps(site, w, hp)[0]);
  }

  /** Each operation has its author, and each node that has saved its operation. */
  ghost predicate Accounted(site: Site, w: World, hs: seq<Happening>, ops: seq<StoreOp>)
    requires WorldShape(site, w)
  {
    && (forall op :: op in ops ==> Explained(site, w, hs, op))
    && (forall c: nat, i: nat :: HasSaved(site, w, c, i) ==> NodeOp(site, w, c, i) in ops)
  }

  /** A node that has just saved did so by a step of its own, which is in the history. */
  lemma SavedByStep(site: Site, w: World, hp: Happening, c: nat, i: nat)
    requires SiteWf(site) && WorldShape(site, w) && WorldInv(site, w)
    requires HasSaved(site, Then(site, w, hp), c, i) && !HasSaved(site, w, c, i)
    ensures StepOps(site, w, hp) == [NodeOp(site, Then(site, w, hp), c, i)]
  {
    var e := site.ceremonies[c];
    OtherStore(e, w.states[c], w.db);
    SavesByActing(e, At(w, c), hp.ev, i);
  }

  lemma SavesByActing(e: Ceremony, s: State, ev: Event, i: nat)
    requires Wf(e) && NodesInv(e, s) && i < e.n
    requires Saved(Next(e, s, ev).nodes[i]) && !Saved(s.nodes[i])
    ensures ev.NodeActs? && ev.i == i
  {
    match ev
    case WorkerBuilds(_, _) =>
    case PrimaryBuilds(_) =>
    case Ctl(_) => ActAndStart(e, s.nodes[0], s.db);
    case NodeActs(_, _) =>
  }

  lemma ActAndStart(e: Ceremony, h: Node, db: Db)
    requires NodeInv(e.job, h)
    ensures Saved(Act(e.suite, e.calls, e.job, 0, h, db, Start).0) ==> Saved(h)
  {
  }

  lemma AccountedThen(site: Site, w: World, hs: seq<Happening>, ops: seq<StoreOp>, hp: Happening)
    requires SiteWf(site) && WorldShape(site, w) && WorldInv(site, w) && Accounted(site, w, hs, ops)
    ensures Accounted(site, Then(site, w, hp), hs + [hp], ops + StepOps(site, w, hp))
  {
    var w', more := Then(site, w, hp), StepOps(site, w, hp);
    ThenKeepsSaves(site, w, hp);
    forall op | op in ops + more
      ensures Explained(site, w', hs + [hp], op)
    {
      if op in ops {
        ExplainedStays(site, w, w', hs, hp, op);
      } else {
        StepExplained(site, w, hs, hp);
      }
    }
    forall c: nat, i: nat | HasSaved(site, w', c, i)
      ensures NodeOp(site, w', c, i) in ops + more
    {
      if HasSaved(site, w, c, i) {
        MadeStays(site, w, w', c, i, NodeOp(site, w, c, i));
      } else {
        SavedByStep(site, w, hp, c, i);
      }
    }
  }

  ghost predicate AccountedAfter(site: Site, db: Db, hs: seq<Happening>)
    requires Sized(site)
  {
    Accounted(site, Live(site, db, hs), hs, RunOps(site, db, hs))
  }

  lemma AccountedNext(site: Site, db: Db, hs: seq<Happening>, hp: Happening)
    requires SiteWf(site) && AccountedAfter(site, db, hs)
    ensures AccountedAfter(site, db, hs + [hp])
  {
    EveryCeremonySafe(site, db, hs);
    LiveExtend(site, db, hs, hp);
    OpsExtend(site, db, hs, hp);
    AccountedThen(site, Live(site, db, hs), hs, RunOps(site, db, hs), hp);
  }

  lemma AtFirst(site: Site, db: Db)
    requires SiteWf(site)
    ensures IsHistory(site, db, []) && AccountedAfter(site, db, [])
  {
    assert forall c: nat, i: nat :: !HasSaved(site, Live(site, db, []), c, i);
  }

  /**
    At every moment of every interleaving of any number of ceremonies with anything on the RPC path, the shared store
    is the initial one after the operations of the run, in order; each of them is the write of a node that has saved or
    one of the RPC path, and no node has saved without it.
   */
  lemma StoreIsHistory(site: Site, db: Db, hs: seq<Happening>)
    requires SiteWf(site)
    ensures Live(site, db, hs).db == Replay(Badger(site.suite, site.secret), db, RunOps(site, db, hs))
    ensures Accounted(site, Live(site, db, hs), hs, RunOps(site, db, hs))
  {
    var p := (run: seq<Happening>) => IsHistory(site, db, run) && AccountedAfter(site, db, run);
    AtFirst(site, db);
    forall run, hp | p(run)
      ensures p(run + [hp])
    {
      HistoryNext(site, db, run, hp);
      AccountedNext(site, db, run, hp);
    }
    Survives(p, [], hs);
    assert [] + hs == hs;
  }
}
