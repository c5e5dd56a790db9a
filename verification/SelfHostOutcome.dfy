/** How the ceremonies of a site end: one store for every order of events, and the answers that callers were given. */
module SelfHostOutcome {
  import opened Basics
  import opened Numbers
  import opened Records
  import opened Fsm
  import opened BadgerStore
  import opened StoreInterface
  import opened StoreHistory
  import opened Keys
  import opened Session
  import opened SelfHost
  import opened SelfHostStore
  import opened SelfHostHistory
  import W = Workers
  import J = Json

  // ----- the store does not depend on the order -----

  /** Nodes that write under this key write the same, as the nodes of a signing do when they agree on the signature. */
  ghost predicate Unanimous(site: Site, w: World, k: Text)
    requires WorldShape(site, w)
  {
    forall c: nat, i: nat, d: nat, j: nat :: Wrote(site, w, c, i, k) && Wrote(site, w, d, j, k) ==>
      WrittenBy(site, w, c, i, k) == WrittenBy(site, w, d, j, k)
  }

  /** Key generations are always unanimous: every key has one writer. */
  lemma DkgUnanimous(site: Site, w: World, k: Text)
    requires SiteWf(site) && WorldShape(site, w) && WorldInv(site, w)
    requires forall c :: 0 <= c < |w.states| ==> IsDkg(site, c)
    ensures Unanimous(site, w, k)
  {
    forall c: nat, i: nat, d: nat, j: nat | Wrote(site, w, c, i, k) && Wrote(site, w, d, j, k)
      ensures c == d && i == j
    {
      DkgKey(site, c, i);
      OwnNodeWrites(site, w, d, j, site.ceremonies[c].job.hash, i);
      OneGeneration(site, c, d);
    }
  }

  predicate OnlyOurs(hs: seq<Happening>)
  {
    forall hp :: hp in hs ==> hp.Ours?
  }

  /** The same nodes have saved the same results. */
  ghost predicate SameSaves(site: Site, w: World, w': World)
    requires WorldShape(site, w) && WorldShape(site, w')
  {
    forall c, i :: 0 <= c < |site.ceremonies| && 0 <= i < site.ceremonies[c].n ==>
      SameSave(w.states[c].nodes[i], w'.states[c].nodes[i])
  }

  predicate SameSave(h: Node, h': Node)
  {
    (Saved(h) <==> Saved(h')) && (Saved(h) ==> ResultOf(h) == ResultOf(h'))
  }

  lemma SameWriter(site: Site, w: World, w': World, c: nat, i: nat, k: Text)
    requires WorldShape(site, w) && WorldShape(site, w') && SameSaves(site, w, w')
    ensures Wrote(site, w, c, i, k) <==> Wrote(site, w', c, i, k)
    ensures Wrote(site, w, c, i, k) ==> WrittenBy(site, w', c, i, k) == WrittenBy(site, w, c, i, k)
  {
    if c < |site.ceremonies| && i < site.ceremonies[c].n {
      assert SameSave(w.states[c].nodes[i], w'.states[c].nodes[i]);
    }
  }

  lemma SameKey(site: Site, db: Db, w: World, w': World, k: Text)
    requires WorldShape(site, w) && WorldShape(site, w') && SameSaves(site, w, w') && Unanimous(site, w, k)
    requires FromWriters(site, db, w, k) && FromWriters(site, db, w', k)
    ensures SameAt(w.db, w'.db, k)
  {
    forall c: nat, i: nat
      ensures Wrote(site, w, c, i, k) <==> Wrote(site, w', c, i, k)
      ensures Wrote(site, w, c, i, k) ==> WrittenBy(site, w', c, i, k) == WrittenBy(site, w, c, i, k)
    {
      SameWriter(site, w, w', c, i, k);
    }
    if exists c: nat, i: nat :: Wrote(site, w, c, i, k) {
      var c: nat, i: nat :| Shows(site, w, c, i, k);
      var d: nat, j: nat :| Shows(site, w', d, j, k);
      assert Wrote(site, w, d, j, k);
    }
  }

  /**
    Two runs of the same ceremonies in which the same nodes have saved the same results end with the same under every
    key that the RPC path has not written, whatever it did elsewhere.
   */
  lemma ConfluenceAt(site: Site, db: Db, hs: seq<Happening>, hs': seq<Happening>, k: Text)
    requires SiteWf(site) && Untouched(site, hs, k) && Untouched(site, hs', k)
    requires SameSaves(site, Live(site, db, hs), Live(site, db, hs')) && Unanimous(site, Live(site, db, hs), k)
    ensures SameAt(Live(site, db, hs).db, Live(site, db, hs').db, k)
  {
    Provenance(site, db, hs, k);
    Provenance(site, db, hs', k);
    SameKey(site, db, Live(site, db, hs), Live(site, db, hs'), k);
  }

  /** And without the RPC path in the same store. */
  lemma Confluence(site: Site, db: Db, hs: seq<Happening>, hs': seq<Happening>)
    requires SiteWf(site) && OnlyOurs(hs) && OnlyOurs(hs')
    requires SameSaves(site, Live(site, db, hs), Live(site, db, hs'))
    requires forall k :: Unanimous(site, Live(site, db, hs), k)
    ensures Live(site, db, hs).db == Live(site, db, hs').db
  {
    forall k
      ensures SameAt(Live(site, db, hs).db, Live(site, db, hs').db, k)
    {
      ConfluenceAt(site, db, hs, hs', k);
    }
    SameEverywhere(Live(site, db, hs).db, Live(site, db, hs').db);
  }

  // ----- at rest the store is a function of what the engine and the database answered -----

  /** What the environment does: the engine's answer to each node, and whether the database accepts its write. */
  datatype Environment = Environment(answer: (nat, nat) -> Option<Outcome>, accepts: (nat, nat) -> bool)

  predicate ObeysEvent(env: Environment, hp: Happening)
  {
    hp.Ours? && hp.ev.NodeActs? ==>
      match hp.ev.act
      case Notify(out) => out == env.answer(hp.c, hp.ev.i)
      case Store(commits) => commits == env.accepts(hp.c, hp.ev.i)
      case _ => true
  }

  predicate Obeys(env: Environment, hs: seq<Happening>)
  {
    forall hp :: hp in hs ==> ObeysEvent(env, hp)
  }

  predicate ObeysNode(env: Environment, c: nat, i: nat, h: Node)
  {
    h.session.Some? ==>
      var callback := h.session.value.callback;
      && (!callback.Quiet? ==> callback.out == env.answer(c, i))
      && (callback.Finished? ==> (callback.stored <==> callback.out.Some? && env.accepts(c, i)))
  }

  /** In self-host mode nothing but the database can refuse a write. */
  lemma WriteSucceeds(e: Ceremony, i: nat, db: Db, out: Outcome, commits: bool)
    requires Wf(e) && Fits(e.job, Some(out))
    ensures e.calls.apply(db, WriteOf(e.suite, e.job, i, out, commits)).1.Ok? <==> commits
  {
    BadgerIsAtomic(e.suite, e.secret);
  }

  lemma ActObeys(env: Environment, e: Ceremony, c: nat, i: nat, h: Node, db: Db, act: Action)
    requires Wf(e) && NodeInv(e.job, h)
    requires ObeysNode(env, c, i, h) && ObeysEvent(env, Ours(c, NodeActs(i, act)))
    ensures ObeysNode(env, c, i, Act(e.suite, e.calls, e.job, i, h, db, act).0)
  {
    if act.Store? && h.session.Some? && h.session.value.callback.Storing? && h.session.value.callback.out.Some? {
      WriteSucceeds(e, i, db, h.session.value.callback.out.value, act.commits);
    }
    ActObeysAny(env, e.suite, e.calls, e.job, c, i, h, db, act);
  }

  /** The same for any store on which a write succeeds exactly when the database accepts it. */
  lemma ActObeysAny(
      env: Environment, suite: Suite, calls: Calls, job: Job, c: nat, i: nat, h: Node, db: Db, act: Action)
    requires ObeysNode(env, c, i, h) && ObeysEvent(env, Ours(c, NodeActs(i, act)))
    requires act.Store? && h.session.Some?
             && h.session.value.callback.Storing? && h.session.value.callback.out.Some? ==>
               (calls.apply(db, WriteOf(suite, job, i, h.session.value.callback.out.value, act.commits)).1.Ok?
                <==> act.commits)
    ensures ObeysNode(env, c, i, Act(suite, calls, job, i, h, db, act).0)
  {
  }

  lemma NextObeys(env: Environment, e: Ceremony, s: State, c: nat, ev: Event, i: nat)
    requires Wf(e) && NodesInv(e, s) && i < e.n
    requires ObeysNode(env, c, i, s.nodes[i]) && ObeysEvent(env, Ours(c, ev))
    ensures ObeysNode(env, c, i, Next(e, s, ev).nodes[i])
  {
    match ev
    case WorkerBuilds(_, _) =>
    case PrimaryBuilds(_) =>
    case Ctl(_) =>
      if i == 0 {
        assert ObeysEvent(env, Ours(c, NodeActs(0, Start)));
        ActObeys(env, e, c, 0, s.nodes[0], s.db, Start);
      }
    case NodeActs(j, act) =>
      if i == j {
        ActObeys(env, e, c, i, s.nodes[i], s.db, act);
      }
  }

  lemma {:induction false} NodesObey(site: Site, db: Db, hs: seq<Happening>, env: Environment, c: nat, i: nat)
    requires SiteWf(site) && Obeys(env, hs) && c < |site.ceremonies| && i < site.ceremonies[c].n
    ensures ObeysNode(env, c, i, Live(site, db, hs).states[c].nodes[i])
  {
    if hs != [] {
      var earlier, hp := hs[..|hs| - 1], hs[|hs| - 1];
      assert hp in hs && forall other :: other in earlier ==> other in hs;
      NodesObey(site, db, earlier, env, c, i);
      if hp.Ours? && hp.c == c {
        EveryCeremonySafe(site, db, earlier);
        OtherStore(site.ceremonies[c], Live(site, db, earlier).states[c], Live(site, db, earlier).db);
        NextObeys(env, site.ceremonies[c], At(Live(site, db, earlier), c), c, hp.ev, i);
      }
    }
  }

  /** No host has anything left to do by itself; an engine that has not reported may never do so. */
  ghost predicate AllAtRest(site: Site, w: World)
    requires WorldShape(site, w)
  {
    forall c, i :: 0 <= c < |w.states| && 0 <= i < site.ceremonies[c].n ==>
      NodeAtRest(site.ceremonies[c], i, w.states[c].nodes[i], w.db)
  }

  ghost predicate NodeAtRest(e: Ceremony, i: nat, h: Node, db: Db)
  {
    Quiescent(e.suite, e.calls, e.job, i, h, db)
  }

  /** The engine has reported to this node's session. */
  predicate HasReport(h: Node)
  {
    h.session.Some? && !h.session.value.callback.Quiet?
  }

  lemma RestSavesNode(env: Environment, e: Ceremony, c: nat, i: nat, h: Node, db: Db)
    requires NodeInv(e.job, h) && ObeysNode(env, c, i, h) && NodeAtRest(e, i, h, db)
    ensures Saved(h) <==> HasReport(h) && env.answer(c, i).Some? && env.accepts(c, i)
    ensures HasReport(h) ==> ResultOf(h) == env.answer(c, i)
  {
    if HasReport(h) {
      RestIsFinished(e.suite, e.calls, e.job, i, h, db);
    }
  }

  /** At rest a node has saved exactly when it has a report, with a result, and the database's consent. */
  lemma RestSaves(site: Site, db: Db, hs: seq<Happening>, env: Environment, c: nat, i: nat)
    requires SiteWf(site) && Obeys(env, hs) && AllAtRest(site, Live(site, db, hs))
    requires c < |site.ceremonies| && i < site.ceremonies[c].n
    ensures var h := Live(site, db, hs).states[c].nodes[i];
            && (Saved(h) <==> HasReport(h) && env.answer(c, i).Some? && env.accepts(c, i))
            && (HasReport(h) ==> ResultOf(h) == env.answer(c, i))
  {
    var w := Live(site, db, hs);
    EveryCeremonySafe(site, db, hs);
    NodesObey(site, db, hs, env, c, i);
    assert NodeInv(site.ceremonies[c].job, w.states[c].nodes[i]);
    RestSavesNode(env, site.ceremonies[c], c, i, w.states[c].nodes[i], w.db);
  }

  /** The same nodes have reports. */
  ghost predicate SameReports(site: Site, w: World, w': World)
    requires WorldShape(site, w) && WorldShape(site, w')
  {
    forall c, i :: 0 <= c < |site.ceremonies| && 0 <= i < site.ceremonies[c].n ==>
      BothReported(w.states[c].nodes[i], w'.states[c].nodes[i])
  }

  predicate BothReported(h: Node, h': Node)
  {
    HasReport(h) <==> HasReport(h')
  }

  lemma RestSame(site: Site, db: Db, hs: seq<Happening>, hs': seq<Happening>, env: Environment)
    requires SiteWf(site) && Obeys(env, hs) && Obeys(env, hs')
    requires AllAtRest(site, Live(site, db, hs)) && AllAtRest(site, Live(site, db, hs'))
    requires SameReports(site, Live(site, db, hs), Live(site, db, hs'))
    ensures SameSaves(site, Live(site, db, hs), Live(site, db, hs'))
  {
    var w, w' := Live(site, db, hs), Live(site, db, hs');
    forall c, i | 0 <= c < |site.ceremonies| && 0 <= i < site.ceremonies[c].n
      ensures SameSave(w.states[c].nodes[i], w'.states[c].nodes[i])
    {
      RestSaves(site, db, hs, env, c, i);
      RestSaves(site, db, hs', env, c, i);
      assert BothReported(w.states[c].nodes[i], w'.states[c].nodes[i]);
    }
  }

  /**
    At rest the order of events has left no trace: given what the engine and the database answer to each node and which
    nodes the engine has reported to, all runs end with the same under every key that the RPC path has not written,
    whatever it did elsewhere.
   */
  lemma ConfluenceAtRestAt(
      site: Site, db: Db, hs: seq<Happening>, hs': seq<Happening>, env: Environment, k: Text)
    requires SiteWf(site) && Untouched(site, hs, k) && Untouched(site, hs', k) && Obeys(env, hs) && Obeys(env, hs')
    requires AllAtRest(site, Live(site, db, hs)) && AllAtRest(site, Live(site, db, hs'))
    requires SameReports(site, Live(site, db, hs), Live(site, db, hs')) && Unanimous(site, Live(site, db, hs), k)
    ensures SameAt(Live(site, db, hs).db, Live(site, db, hs').db, k)
  {
    RestSame(site, db, hs, hs', env);
    ConfluenceAt(site, db, hs, hs', k);
  }

  /** And without the RPC path the whole store is the same. */
  lemma ConfluenceAtRest(site: Site, db: Db, hs: seq<Happening>, hs': seq<Happening>, env: Environment)
    requires SiteWf(site) && OnlyOurs(hs) && OnlyOurs(hs') && Obeys(env, hs) && Obeys(env, hs')
    requires AllAtRest(site, Live(site, db, hs)) && AllAtRest(site, Live(site, db, hs'))
    requires SameReports(site, Live(site, db, hs), Live(site, db, hs'))
    requires forall k :: Unanimous(site, Live(site, db, hs), k)
    ensures Live(site, db, hs).db == Live(site, db, hs').db
  {
    RestSame(site, db, hs, hs', env);
    Confluence(site, db, hs, hs');
  }

  /** Node `i` of ceremony `c` is to write under `k`: it has a report, with a result, and the database's consent. */
  predicate Due(site: Site, w: World, env: Environment, c: nat, i: nat, k: Text)
    requires WorldShape(site, w)
  {
    && c < |w.states| && i < site.ceremonies[c].n
    && HasReport(w.states[c].nodes[i])
    && env.answer(c, i).Some? && env.accepts(c, i)
    && KeyAt(site.ceremonies[c], i) == k
  }

  /** The store holds what node `i` of ceremony `c` was to write. */
  predicate Delivered(site: Site, w: World, env: Environment, c: nat, i: nat, k: Text)
    requires WorldShape(site, w)
  {
    && Due(site, w, env, c, i, k)
    && k in w.db && w.db[k] == ResultJson(site.ceremonies[c], i, env.answer(c, i).value)
  }

  ghost predicate FromDue(site: Site, db: Db, w: World, env: Environment, k: Text)
    requires WorldShape(site, w)
  {
    if exists c: nat, i: nat :: Due(site, w, env, c, i, k)
    then exists c: nat, i: nat :: Delivered(site, w, env, c, i, k)
    else SameAt(w.db, db, k)
  }

  lemma DueIsWritten(site: Site, db: Db, w: World, env: Environment, k: Text)
    requires WorldShape(site, w) && FromWriters(site, db, w, k)
    requires forall c: nat, i: nat :: Due(site, w, env, c, i, k) <==> Wrote(site, w, c, i, k)
    requires forall c: nat, i: nat ::
               Wrote(site, w, c, i, k) ==> ResultOf(w.states[c].nodes[i]) == env.answer(c, i)
    ensures FromDue(site, db, w, env, k)
  {
    if exists c: nat, i: nat :: Due(site, w, env, c, i, k) {
      var c: nat, i: nat :| Shows(site, w, c, i, k);
      assert Delivered(site, w, env, c, i, k);
    }
  }

  /**
    The store at rest: under a key that was due a result is a result that was due there, and under every other key
    what was there at first.
   */
  lemma StoreAtRest(site: Site, db: Db, hs: seq<Happening>, env: Environment, k: Text)
    requires SiteWf(site) && Untouched(site, hs, k) && Obeys(env, hs) && AllAtRest(site, Live(site, db, hs))
    ensures FromDue(site, db, Live(site, db, hs), env, k)
  {
    var w := Live(site, db, hs);
    Provenance(site, db, hs, k);
    forall c: nat, i: nat
      ensures Due(site, w, env, c, i, k) <==> Wrote(site, w, c, i, k)
      ensures Wrote(site, w, c, i, k) ==> ResultOf(w.states[c].nodes[i]) == env.answer(c, i)
    {
      if c < |w.states| && i < site.ceremonies[c].n {
        RestSaves(site, db, hs, env, c, i);
      }
    }
    DueIsWritten(site, db, w, env, k);
  }

  // ----- signatures and replies -----

  function SignedRecord(key: Text, r: nat, s: nat): J.Json
  {
    SignatureJson(RVSignature(HexEncode(ToBytes(r)), HexEncode(ToBytes(s)), key))
  }

  /** Every node that has saved under this key was given the same answer. */
  ghost predicate Agreed(site: Site, w: World, k: Text, out: Outcome)
    requires WorldShape(site, w)
  {
    forall c: nat, i: nat :: Wrote(site, w, c, i, k) ==> ResultOf(w.states[c].nodes[i]) == Some(out)
  }

  lemma AgreedShows(site: Site, db: Db, w: World, c: nat, i: nat, k: Text, out: Outcome)
    requires WorldShape(site, w) && FromWriters(site, db, w, k)
    requires Wrote(site, w, c, i, k) && Agreed(site, w, k, out) && out.SignOut?
    ensures k in w.db && w.db[k] == SignedRecord(k, out.r, out.s)
  {
    var d: nat, j: nat :| Shows(site, w, d, j, k);
    assert Wrote(site, w, d, j, k);
    assert WrittenBy(site, w, d, j, k) == ResultJson(site.ceremonies[d], j, out);
  }

  /** When all agree on (r, s), any save leaves that signature under the message's hash; it reads back as r and s. */
  lemma SignatureStored(site: Site, db: Db, hs: seq<Happening>, c: nat, i: nat, k: Text, r: nat, s: nat)
    requires SiteWf(site) && Untouched(site, hs, k)
    requires Wrote(site, Live(site, db, hs), c, i, k) && Agreed(site, Live(site, db, hs), k, SignOut(r, s))
    ensures var w := Live(site, db, hs); k in w.db && w.db[k] == SignedRecord(k, r, s)
    ensures FromBytes(FromHex(HexEncode(ToBytes(r)))) == r && FromBytes(FromHex(HexEncode(ToBytes(s)))) == s
  {
    Provenance(site, db, hs, k);
    AgreedShows(site, db, Live(site, db, hs), c, i, k, SignOut(r, s));
    HexNumberRoundTrip(r);
    HexNumberRoundTrip(s);
  }

  /** The engine has reported to this node, and this is what it gave. */
  predicate Reported(h: Node, out: Option<Outcome>)
  {
    h.session.Some? && !h.session.value.callback.Quiet? && ResultOf(h) == out
  }

  lemma ReportStays(site: Site, w: World, hp: Happening, c: nat, i: nat, out: Option<Outcome>)
    requires WorldShape(site, w) && WorldInv(site, w) && c < |w.states| && i < site.ceremonies[c].n
    requires Reported(w.states[c].nodes[i], out)
    ensures Reported(Then(site, w, hp).states[c].nodes[i], out)
  {
    if hp.Ours? && hp.c == c {
      OtherStore(site.ceremonies[c], w.states[c], w.db);
      AnswerStep(site.ceremonies[c], At(w, c), hp.ev, i);
    }
  }

  /** In the world after these happenings the node has this report. */
  predicate ReportedAfter(site: Site, db: Db, hs: seq<Happening>, c: nat, i: nat, out: Option<Outcome>)
    requires Sized(site) && c < |site.ceremonies| && i < site.ceremonies[c].n
  {
    Reported(Live(site, db, hs).states[c].nodes[i], out)
  }

  lemma ReportThen(site: Site, db: Db, hs: seq<Happening>, hp: Happening, c: nat, i: nat, out: Option<Outcome>)
    requires Sized(site) && c < |site.ceremonies| && i < site.ceremonies[c].n
    requires ReportedAfter(site, db, hs, c, i, out)
    ensures ReportedAfter(site, db, hs + [hp], c, i, out)
  {
    EveryCeremonySafe(site, db, hs);
    ReportStays(site, Live(site, db, hs), hp, c, i, out);
    LiveExtend(site, db, hs, hp);
  }

  lemma AnswerStays(
      site: Site, db: Db, hs: seq<Happening>, more: seq<Happening>, c: nat, i: nat, out: Option<Outcome>)
    requires Sized(site) && c < |site.ceremonies| && i < site.ceremonies[c].n
    requires ReportedAfter(site, db, hs, c, i, out)
    ensures ReportedAfter(site, db, hs + more, c, i, out)
  {
    var p := (run: seq<Happening>) => ReportedAfter(site, db, run, c, i, out);
    forall run, hp | p(run)
      ensures p(run + [hp])
    {
      ReportThen(site, db, run, hp, c, i, out);
    }
    Survives(p, hs, more);
  }

  /** What the store shows once a node has saved: its own answer, in signing when all agree. */
  lemma SavedAnswer(site: Site, db: Db, w: World, c: nat, i: nat, out: Outcome)
    requires SiteWf(site) && WorldShape(site, w) && WorldInv(site, w) && c < |w.states| && i < site.ceremonies[c].n
    requires FromWriters(site, db, w, KeyAt(site.ceremonies[c], i))
    requires Saved(w.states[c].nodes[i]) && ResultOf(w.states[c].nodes[i]) == Some(out)
    requires IsDkg(site, c) || Agreed(site, w, KeyAt(site.ceremonies[c], i), out)
    ensures var k := KeyAt(site.ceremonies[c], i); k in w.db && w.db[k] == ResultJson(site.ceremonies[c], i, out)
  {
    var e := site.ceremonies[c];
    if IsDkg(site, c) {
      GeneratedShows(site, db, w, c, e.job.hash, i);
    } else {
      assert NodeInv(e.job, w.states[c].nodes[i]);
      AgreedShows(site, db, w, c, i, KeyAt(e, i), out);
    }
  }

  function PrimaryWrite(site: Site, c: nat, out: Outcome): StoreOp
    requires c < |site.ceremonies|
  {
    WriteOf(site.ceremonies[c].suite, site.ceremonies[c].job, 0, out, true)
  }

  lemma SavedIsWritten(site: Site, db: Db, hs: seq<Happening>, c: nat, out: Outcome)
    requires SiteWf(site) && c < |site.ceremonies| && Saved(Live(site, db, hs).states[c].nodes[0])
    requires ResultOf(Live(site, db, hs).states[c].nodes[0]) == Some(out)
    ensures PrimaryWrite(site, c, out) in RunOps(site, db, hs)
  {
    StoreIsHistory(site, db, hs);
    assert HasSaved(site, Live(site, db, hs), c, 0);
  }

  /**
    What a caller was answered is what gets stored: the answer never changes after the reply, and from the moment the
    primary's callback has saved, however late, the write of that answer is among the operations that make the store,
    and the store holds it under the primary's key unless the RPC path has written there.
   */
  lemma ReplyIsWhatIsStored(site: Site, db: Db, hs: seq<Happening>, more: seq<Happening>, c: nat)
    requires SiteWf(site) && c < |site.ceremonies| && Live(site, db, hs).states[c].control.primary == W.Replied
    ensures var h := Live(site, db, hs).states[c].nodes[0];
            && Reported(h, ResultOf(h)) && h.session.value.resumed
            && var (w, k) := (Live(site, db, hs + more), KeyAt(site.ceremonies[c], 0));
               && ResultOf(w.states[c].nodes[0]) == ResultOf(h)
               && (Saved(w.states[c].nodes[0]) ==>
                     && ResultOf(h).Some?
                     && PrimaryWrite(site, c, ResultOf(h).value) in RunOps(site, db, hs + more)
                     && (Untouched(site, hs + more, k) && (IsDkg(site, c) || Agreed(site, w, k, ResultOf(h).value)) ==>
                           k in w.db && w.db[k] == ResultJson(site.ceremonies[c], 0, ResultOf(h).value)))
  {
    var h, w := Live(site, db, hs).states[c].nodes[0], Live(site, db, hs + more);
    EveryCeremonySafe(site, db, hs);
    assert NodeInv(site.ceremonies[c].job, h);
    AnswerStays(site, db, hs, more, c, 0, ResultOf(h));
    var k := KeyAt(site.ceremonies[c], 0);
    if Saved(w.states[c].nodes[0]) {
      SavedIsWritten(site, db, hs + more, c, ResultOf(h).value);
    }
    if Saved(w.states[c].nodes[0]) && Untouched(site, hs + more, k) {
      EveryCeremonySafe(site, db, hs + more);
      Provenance(site, db, hs + more, k);
      if IsDkg(site, c) || Agreed(site, w, k, ResultOf(h).value) {
        SavedAnswer(site, db, w, c, 0, ResultOf(h).value);
      }
    }
  }
}
