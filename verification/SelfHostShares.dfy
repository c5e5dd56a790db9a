/**
  Key shares in self-host mode: what the record of a node holds, and what its signing sessions work with, while any
  number of ceremonies overlap and the RPC path uses the same store.
 */
module SelfHostShares {
  import opened Basics
  import opened Curve
  import opened Records
  import opened Fsm
  import opened BadgerStore
  import opened StoreInterface
  import opened StoreHistory
  import opened Keys
  import opened Session
  import opened SelfHost
  import opened SelfHostStore
  import opened SelfHostHistory

  // ----- the record of a node -----

  /** The result that node `i` has saved in key generation `d`. */
  predicate GeneratedResult(site: Site, w: World, d: nat, hash: Text, i: nat, r: DkgResult)
    requires WorldShape(site, w)
  {
    Generated(site, w, d, hash, i) && ResultOf(w.states[d].nodes[i]) == Some(KeyOut(r))
  }

  /** The result of node `i`, or one that a key generation of the RPC path has brought under the node's own key. */
  ghost predicate SavedFor(site: Site, w: World, hs: seq<Happening>, hash: Text, i: nat, r: DkgResult)
    requires WorldShape(site, w)
  {
    (exists d :: GeneratedResult(site, w, d, hash, i, r)) || Elsewhere(Generates(NodeKey(hash, i), r, true)) in hs
  }

  /** The write of a node, under a node key. */
  lemma NodeMadeKey(site: Site, w: World, c: nat, j: nat, op: StoreOp, hash: Text, i: nat)
    requires SiteWf(site) && WorldShape(site, w) && WorldInv(site, w)
    requires NodeMade(site, w, c, j, op) && op.hash == NodeKey(hash, i)
    ensures op.SaveOp? && op.commits && GeneratedResult(site, w, c, hash, i, op.result)
  {
    assert Wrote(site, w, c, j, NodeKey(hash, i));
    OwnNodeWrites(site, w, c, j, hash, i);
  }

  /** What can be done to a node key: its own result is saved, or the RPC path generates or reshares that very key. */
  lemma NodeKeyOp(site: Site, w: World, hs: seq<Happening>, op: StoreOp, hash: Text, i: nat)
    requires SiteWf(site) && WorldShape(site, w) && WorldInv(site, w)
    requires Explained(site, w, hs, op) && op.hash == NodeKey(hash, i)
    ensures !op.SignatureOp?
    ensures op.SaveOp? && op.commits ==> SavedFor(site, w, hs, hash, i, op.result)
    ensures op.UpdateOp? && op.commits ==> Elsewhere(Reshares(NodeKey(hash, i), op.share, true)) in hs
  {
    if c, j :| NodeMade(site, w, c, j, op) {
      NodeMadeKey(site, w, c, j, op, hash, i);
    } else {
      var x :| RpcMade(site, hs, x, op);
      if x.Signs? {
        HashIsNotNodeKey(site.suite, x.message, hash, i);
      }
    }
  }

  /** The last write under a node key, and the last reshare since, by their authors. */
  lemma NodeKeyHistory(site: Site, w: World, hs: seq<Happening>, ops: seq<StoreOp>, hash: Text, i: nat)
    requires SiteWf(site) && WorldShape(site, w) && WorldInv(site, w) && Accounted(site, w, hs, ops)
    ensures var last := LastWrite(ops, NodeKey(hash, i));
            last.Some? ==> last.value.SaveOp? && SavedFor(site, w, hs, hash, i, last.value.result)
    ensures (exists d :: Generated(site, w, d, hash, i)) ==> LastWrite(ops, NodeKey(hash, i)).Some?
    ensures var share := Reshared(ops, NodeKey(hash, i));
            share.Some? ==> Elsewhere(Reshares(NodeKey(hash, i), share.value, true)) in hs
  {
    var key := NodeKey(hash, i);
    LastWriteIsWrite(ops, key);
    LastWriteIndex(ops, key);
    ResharedIndex(ops, key);
    if LastWrite(ops, key).Some? {
      NodeKeyOp(site, w, hs, LastWrite(ops, key).value, hash, i);
    }
    if Reshared(ops, key).Some? {
      var k :| 0 <= k < |ops| && Renews(ops[k], key) && ops[k].share == Reshared(ops, key).value;
      assert ops[k] in ops;
      NodeKeyOp(site, w, hs, ops[k], hash, i);
    }
    if d :| Generated(site, w, d, hash, i) {
      GeneratedIsWritten(site, w, ops, d, hash, i);
    }
  }

  lemma GeneratedIsWritten(site: Site, w: World, ops: seq<StoreOp>, d: nat, hash: Text, i: nat)
    requires SiteWf(site) && WorldShape(site, w) && WorldInv(site, w) && Generated(site, w, d, hash, i)
    requires forall c: nat, j: nat :: HasSaved(site, w, c, j) ==> NodeOp(site, w, c, j) in ops
    ensures exists k :: 0 <= k < |ops| && Writes(ops[k], NodeKey(hash, i))
  {
    GeneratedWrote(site, w, d, hash, i);
    assert HasSaved(site, w, d, i);
    var op := NodeOp(site, w, d, i);
    var k :| 0 <= k < |ops| && ops[k] == op;
    assert Writes(ops[k], NodeKey(hash, i));
  }

  /** What the record is known to hold: anything once it was written, and else what it held at first. */
  ghost predicate Known(site: Site, db: Db, hs: seq<Happening>, before: Option<Entry>, key: Text)
    requires Sized(site)
  {
    LastWrite(RunOps(site, db, hs), key).Some? || Holds(site.suite, site.secret, db, key, before)
  }

  lemma WrittenEntryAfter(before: Option<Entry>, ops: seq<StoreOp>, key: Text)
    requires LastWrite(ops, key).Some?
    ensures EntryAfter(before, ops, key) == EntryAfter(None, ops, key)
  {
  }

  /** What the record of a node holds: the last thing written there, or what was there, with the last share since. */
  ghost predicate RecordIs(site: Site, db: Db, hs: seq<Happening>, before: Option<Entry>, key: Text)
    requires Sized(site)
  {
    Holds(site.suite, site.secret, Live(site, db, hs).db, key, EntryAfter(before, RunOps(site, db, hs), key))
  }

  lemma KnownRecord(site: Site, db: Db, hs: seq<Happening>, before: Option<Entry>, key: Text)
    requires SiteWf(site) && Known(site, db, hs, before, key)
    ensures RecordIs(site, db, hs, before, key)
  {
    var ops := RunOps(site, db, hs);
    StoreIsHistory(site, db, hs);
    if LastWrite(ops, key).Some? {
      KeyWritten(site.suite, site.secret, db, key, ops);
      WrittenEntryAfter(before, ops, key);
    } else {
      KeyHistory(site.suite, site.secret, db, key, before, ops);
    }
  }

  /**
    The record of a node at every moment, in every interleaving of all ceremonies with anything on the RPC path.  It
    holds the last thing written under its key, or what was there at first, with the last share reshared since.  What
    was written is the node's own result, and is there once the node has saved, unless a key generation of the RPC path
    has named this very key; and the RPC path has reshared it only by naming it too.
   */
  lemma RecordOfNode(site: Site, db: Db, hs: seq<Happening>, before: Option<Entry>, hash: Text, i: nat)
    requires SiteWf(site)
    ensures var (w, ops, key) := (Live(site, db, hs), RunOps(site, db, hs), NodeKey(hash, i));
            && (Known(site, db, hs, before, key) ==> RecordIs(site, db, hs, before, key))
            && (LastWrite(ops, key).Some? ==>
                  LastWrite(ops, key).value.SaveOp?
                  && SavedFor(site, w, hs, hash, i, LastWrite(ops, key).value.result))
            && ((exists d :: Generated(site, w, d, hash, i)) ==> LastWrite(ops, key).Some?)
            && (Reshared(ops, key).Some? ==> Elsewhere(Reshares(key, Reshared(ops, key).value, true)) in hs)
  {
    StoreIsHistory(site, db, hs);
    EveryCeremonySafe(site, db, hs);
    NodeKeyHistory(site, Live(site, db, hs), hs, RunOps(site, db, hs), hash, i);
    if Known(site, db, hs, before, NodeKey(hash, i)) {
      KnownRecord(site, db, hs, before, NodeKey(hash, i));
    }
  }

  /** The record serves this result, ready for the engine. */
  predicate Serves(site: Site, db: Db, key: Text, r: DkgResult)
  {
    && Config(site.suite, site.secret, db, key, CompressedHex(r.publicKey)) == Ok(ConfigOf(r))
    && Converted(ConfigOf(r)) == Ok(KeyOf(r))
  }

  /** The result last saved for the node, with the share last reshared since. */
  function Latest(site: Site, db: Db, hs: seq<Happening>, key: Text, r: DkgResult): DkgResult
    requires Sized(site)
  {
    r.(share := LastShare(RunOps(site, db, hs), key, r.share))
  }

  lemma ServedEntry(suite: Suite, secret: Secret, db: Db, ops: seq<StoreOp>, key: Text, r: DkgResult)
    requires LastWrite(ops, key) == Some(SaveOp(key, r, true))
    requires Holds(suite, secret, db, key, EntryAfter(None, ops, key))
    ensures var last := r.(share := LastShare(ops, key, r.share));
            && Config(suite, secret, db, key, CompressedHex(r.publicKey)) == Ok(ConfigOf(last))
            && Converted(ConfigOf(last)) == Ok(KeyOf(last))
  {
    var last := r.(share := LastShare(ops, key, r.share));
    assert EntryAfter(None, ops, key) == Some(Key(last));
    ConfigOfStored(suite, secret, db, key, last, CompressedHex(r.publicKey));
    ConfigConverts(last);
  }

  /**
    Key generation, end to end, in any database and whatever else goes on: once a node's callback has saved, its key
    serves the result last saved there, with the share last reshared since, ready for the engine; and that result is
    the node's own unless a key generation of the RPC path has named the key.
   */
  lemma DkgServesEveryNode(site: Site, db: Db, hs: seq<Happening>, c: nat, hash: Text, i: nat)
    requires SiteWf(site) && Generated(site, Live(site, db, hs), c, hash, i)
    ensures exists r ::
              && SavedFor(site, Live(site, db, hs), hs, hash, i, r)
              && Serves(site, Live(site, db, hs).db, NodeKey(hash, i), Latest(site, db, hs, NodeKey(hash, i), r))
  {
    var ops, key := RunOps(site, db, hs), NodeKey(hash, i);
    RecordOfNode(site, db, hs, None, hash, i);
    LastWriteIsWrite(ops, key);
    var r := LastWrite(ops, key).value.result;
    ServedEntry(site.suite, site.secret, Live(site, db, hs).db, ops, key, r);
    assert Serves(site, Live(site, db, hs).db, key, Latest(site, db, hs, key, r));
  }

  lemma NotNamedIsOwn(site: Site, w: World, hs: seq<Happening>, hash: Text, i: nat, r: DkgResult)
    requires WorldShape(site, w) && NotNamed(hs, NodeKey(hash, i)) && SavedFor(site, w, hs, hash, i, r)
    ensures exists d :: GeneratedResult(site, w, d, hash, i, r)
  {
  }

  /** Where the RPC path has not named the key, that is exactly what the node has generated. */
  lemma DkgServesOwnResult(site: Site, db: Db, hs: seq<Happening>, c: nat, hash: Text, i: nat)
    requires SiteWf(site) && Generated(site, Live(site, db, hs), c, hash, i) && NotNamed(hs, NodeKey(hash, i))
    ensures exists r ::
              && GeneratedResult(site, Live(site, db, hs), c, hash, i, r)
              && Serves(site, Live(site, db, hs).db, NodeKey(hash, i), r)
  {
    var w, key := Live(site, db, hs), NodeKey(hash, i);
    DkgServesEveryNode(site, db, hs, c, hash, i);
    var r :| SavedFor(site, w, hs, hash, i, r) && Serves(site, w.db, key, Latest(site, db, hs, key, r));
    NotNamedIsOwn(site, w, hs, hash, i, r);
    var d :| GeneratedResult(site, w, d, hash, i, r);
    OneGeneration(site, c, d);
    NotNamedShare(site, db, hs, hash, i, r);
    assert GeneratedResult(site, w, c, hash, i, r) && Serves(site, w.db, key, r);
  }

  lemma NotNamedShare(site: Site, db: Db, hs: seq<Happening>, hash: Text, i: nat, r: DkgResult)
    requires SiteWf(site) && NotNamed(hs, NodeKey(hash, i))
    ensures Latest(site, db, hs, NodeKey(hash, i), r) == r
  {
    var share := Reshared(RunOps(site, db, hs), NodeKey(hash, i));
    RecordOfNode(site, db, hs, None, hash, i);
    assert share == None;
  }

  // ----- signing sessions -----

  /** This key was loaded from the record of node `i` as it stood after the first `n` happenings. */
  ghost predicate LoadedAt(site: Site, db: Db, hs: seq<Happening>, n: nat, c: nat, i: nat, key: EngineKey)
    requires Sized(site) && c < |site.ceremonies|
  {
    n <= |hs| && LoadedFrom(site.ceremonies[c], i, Live(site, db, hs[..n]).db, key)
  }

  ghost predicate LoadedOnce(site: Site, db: Db, hs: seq<Happening>, c: nat, i: nat)
    requires Sized(site) && c < |site.ceremonies| && i < site.ceremonies[c].n
  {
    var key := Live(site, db, hs).states[c].keys[i];
    key.Some? ==> exists n: nat :: LoadedAt(site, db, hs, n, c, i, key.value)
  }

  lemma LoadedAtStays(site: Site, db: Db, hs: seq<Happening>, hp: Happening, n: nat, c: nat, i: nat, key: EngineKey)
    requires Sized(site) && c < |site.ceremonies| && LoadedAt(site, db, hs, n, c, i, key)
    ensures LoadedAt(site, db, hs + [hp], n, c, i, key)
  {
    assert (hs + [hp])[..n] == hs[..n];
  }

  lemma LoadedNow(site: Site, db: Db, hs: seq<Happening>, hp: Happening, c: nat, i: nat, key: EngineKey)
    requires Sized(site) && c < |site.ceremonies|
    requires LoadedFrom(site.ceremonies[c], i, Live(site, db, hs).db, key)
    ensures LoadedAt(site, db, hs + [hp], |hs|, c, i, key)
  {
    assert (hs + [hp])[..|hs|] == hs;
  }

  lemma KeysThen(site: Site, w: World, hp: Happening, c: nat, i: nat)
    requires WorldShape(site, w) && c < |w.states| && i < site.ceremonies[c].n && site.ceremonies[c].job.kind.Sign?
    ensures var key := Then(site, w, hp).states[c].keys[i];
            key == w.states[c].keys[i] || (key.Some? && LoadedFrom(site.ceremonies[c], i, w.db, key.value))
  {
    if hp.Ours? && hp.c == c {
      KeysMove(site.ceremonies[c], At(w, c), hp.ev, i);
    }
  }

  lemma LoadedNext(site: Site, db: Db, hs: seq<Happening>, hp: Happening, c: nat, i: nat)
    requires Sized(site) && c < |site.ceremonies| && i < site.ceremonies[c].n && site.ceremonies[c].job.kind.Sign?
    requires LoadedOnce(site, db, hs, c, i)
    ensures LoadedOnce(site, db, hs + [hp], c, i)
  {
    LiveExtend(site, db, hs, hp);
    KeysThen(site, Live(site, db, hs), hp, c, i);
    var kept, now := Live(site, db, hs).states[c].keys[i], Live(site, db, hs + [hp]).states[c].keys[i];
    if now.Some? {
      if now == kept {
        var n: nat :| LoadedAt(site, db, hs, n, c, i, now.value);
        LoadedAtStays(site, db, hs, hp, n, c, i, now.value);
      } else {
        LoadedNow(site, db, hs, hp, c, i, now.value);
      }
    }
  }

  /** Every signing session of node `i` works with a share that the node's own record held at a moment of the run. */
  lemma SignsWithHeldShare(site: Site, db: Db, hs: seq<Happening>, c: nat, i: nat)
    requires Sized(site) && c < |site.ceremonies| && i < site.ceremonies[c].n && site.ceremonies[c].job.kind.Sign?
    ensures LoadedOnce(site, db, hs, c, i)
  {
    var p := (run: seq<Happening>) => LoadedOnce(site, db, run, c, i);
    forall run, hp | p(run)
      ensures p(run + [hp])
    {
      LoadedNext(site, db, run, hp, c, i);
    }
    Survives(p, [], hs);
    assert [] + hs == hs;
  }

  /** Only a record that holds a result can be loaded. */
  lemma LoadedEntry(e: Ceremony, i: nat, db: Db, entry: Option<Entry>, key: EngineKey)
    requires Wf(e) && Holds(e.suite, e.secret, db, NodeKey(e.job.hash, i), entry) && LoadedFrom(e, i, db, key)
    ensures entry.Some? && entry.value.Key? && key == KeyOf(entry.value.result)
    ensures e.job.pubkey == CompressedHex(entry.value.result.publicKey)
  {
    var k := NodeKey(e.job.hash, i);
    LoadIs(e, i, db);
    match entry
    case None =>
    case Some(Key(r)) => LoadOfStored(e.suite, e.secret, db, k, r, e.job.pubkey);
    case Some(Signature(s)) => SignatureBuildsNothing(e.suite, e.secret, db, k, s, e.job.pubkey);
  }

  /** A result of the record, however it got there: saved for the node, or there at first. */
  ghost predicate RecordResult(
      site: Site, db: Db, hs: seq<Happening>, before: Option<Entry>, hash: Text, i: nat, r: DkgResult)
    requires Sized(site)
  {
    SavedFor(site, Live(site, db, hs), hs, hash, i, r) || before == Some(Key(r))
  }

  /** This is the key of a result of the node's record with the share last reshared since, asked for by its own key. */
  ghost predicate OwnShare(
      site: Site, db: Db, hs: seq<Happening>, before: Option<Entry>, job: Job, i: nat, key: EngineKey, r: DkgResult)
    requires Sized(site)
  {
    && RecordResult(site, db, hs, before, job.hash, i, r)
    && key == KeyOf(Latest(site, db, hs, NodeKey(job.hash, i), r))
    && job.pubkey == CompressedHex(r.publicKey)
  }

  lemma EntryBase(before: Option<Entry>, ops: seq<StoreOp>, key: Text) returns (r: DkgResult)
    requires EntryAfter(before, ops, key).Some? && EntryAfter(before, ops, key).value.Key?
    ensures EntryAfter(before, ops, key).value.result == r.(share := LastShare(ops, key, r.share))
    ensures var last := LastWrite(ops, key);
            if last == None then before == Some(Key(r)) else last.value.SaveOp? && last.value.result == r
  {
    LastWriteIsWrite(ops, key);
    var last := LastWrite(ops, key);
    r := if last == None then before.value.result else last.value.result;
  }

  ghost predicate HasOwnShare(
      site: Site, db: Db, hs: seq<Happening>, before: Option<Entry>, job: Job, i: nat, key: EngineKey)
    requires Sized(site)
  {
    exists r :: OwnShare(site, db, hs, before, job, i, key, r)
  }

  /** What is loaded from a record that is known is the node's own. */
  lemma LoadsOwnShare(
      site: Site, db: Db, hs: seq<Happening>, before: Option<Entry>, c: nat, i: nat, key: EngineKey)
    requires SiteWf(site) && c < |site.ceremonies|
    requires Known(site, db, hs, before, NodeKey(site.ceremonies[c].job.hash, i))
    requires LoadedFrom(site.ceremonies[c], i, Live(site, db, hs).db, key)
    ensures HasOwnShare(site, db, hs, before, site.ceremonies[c].job, i, key)
  {
    var e, k := site.ceremonies[c], NodeKey(site.ceremonies[c].job.hash, i);
    KnownRecord(site, db, hs, before, k);
    LoadedEntry(e, i, Live(site, db, hs).db, EntryAfter(before, RunOps(site, db, hs), k), key);
    EntryIsShare(site, db, hs, before, e.job, i, key);
  }

  lemma EntryIsShare(site: Site, db: Db, hs: seq<Happening>, before: Option<Entry>, job: Job, i: nat, key: EngineKey)
    requires SiteWf(site)
    requires var entry := EntryAfter(before, RunOps(site, db, hs), NodeKey(job.hash, i));
             && entry.Some? && entry.value.Key?
             && key == KeyOf(entry.value.result) && job.pubkey == CompressedHex(entry.value.result.publicKey)
    ensures HasOwnShare(site, db, hs, before, job, i, key)
  {
    var r := EntryBase(before, RunOps(site, db, hs), NodeKey(job.hash, i));
    EntryResult(site, db, hs, before, job.hash, i, r);
    assert OwnShare(site, db, hs, before, job, i, key, r);
  }

  lemma EntryResult(site: Site, db: Db, hs: seq<Happening>, before: Option<Entry>, hash: Text, i: nat, r: DkgResult)
    requires SiteWf(site)
    requires var last := LastWrite(RunOps(site, db, hs), NodeKey(hash, i));
             if last == None then before == Some(Key(r)) else last.value.SaveOp? && last.value.result == r
    ensures RecordResult(site, db, hs, before, hash, i, r)
  {
    RecordOfNode(site, db, hs, before, hash, i);
  }

  /** Loaded after the first `n` happenings, and the node's own if its record was known by then. */
  ghost predicate OwnShareAt(
      site: Site, db: Db, hs: seq<Happening>, before: Option<Entry>, c: nat, i: nat, key: EngineKey, n: nat)
    requires Sized(site) && c < |site.ceremonies|
  {
    && LoadedAt(site, db, hs, n, c, i, key)
    && (Known(site, db, hs[..n], before, NodeKey(site.ceremonies[c].job.hash, i)) ==>
          HasOwnShare(site, db, hs[..n], before, site.ceremonies[c].job, i, key))
  }

  lemma LoadedIsOwn(
      site: Site, db: Db, hs: seq<Happening>, before: Option<Entry>, c: nat, i: nat, key: EngineKey, n: nat)
    requires SiteWf(site) && c < |site.ceremonies| && LoadedAt(site, db, hs, n, c, i, key)
    ensures OwnShareAt(site, db, hs, before, c, i, key, n)
  {
    if Known(site, db, hs[..n], before, NodeKey(site.ceremonies[c].job.hash, i)) {
      LoadsOwnShare(site, db, hs[..n], before, c, i, key);
    }
  }

  /**
    Node i always signs with share i.  In every interleaving of any number of key generations and signings with
    anything on the RPC path, also while late saves are still under way: a signing session of node i holds what the
    node's own record held after the first `n` happenings, for some n.  Where that record had been written by then, or
    held at first what this program had written, that is the result last saved for the node, with the share last
    reshared since; the session was asked for by its public key.
   */
  lemma SignsWithOwnShare(site: Site, db: Db, hs: seq<Happening>, before: Option<Entry>, c: nat, i: nat)
    requires SiteWf(site) && c < |site.ceremonies| && i < site.ceremonies[c].n && site.ceremonies[c].job.kind.Sign?
    ensures var key := Live(site, db, hs).states[c].keys[i];
            key.Some? ==> exists n: nat :: OwnShareAt(site, db, hs, before, c, i, key.value, n)
  {
    var key := Live(site, db, hs).states[c].keys[i];
    SignsWithHeldShare(site, db, hs, c, i);
    if key.Some? {
      var n: nat :| LoadedAt(site, db, hs, n, c, i, key.value);
      LoadedIsOwn(site, db, hs, before, c, i, key.value, n);
    }
  }

  // ----- the plain case -----

  ghost predicate GeneratedAfter(site: Site, db: Db, hs: seq<Happening>, d: nat, hash: Text, i: nat, r: DkgResult)
    requires Sized(site)
  {
    GeneratedResult(site, Live(site, db, hs), d, hash, i, r)
  }

  lemma GeneratedNext(site: Site, db: Db, hs: seq<Happening>, hp: Happening, d: nat, hash: Text, i: nat, r: DkgResult)
    requires SiteWf(site) && GeneratedAfter(site, db, hs, d, hash, i, r)
    ensures GeneratedAfter(site, db, hs + [hp], d, hash, i, r)
  {
    EveryCeremonySafe(site, db, hs);
    LiveExtend(site, db, hs, hp);
    ThenKeepsSaves(site, Live(site, db, hs), hp);
    assert SaveKept(Live(site, db, hs).states[d].nodes[i], Live(site, db, hs + [hp]).states[d].nodes[i]);
  }

  lemma GeneratedStays(
      site: Site, db: Db, hs: seq<Happening>, more: seq<Happening>, d: nat, hash: Text, i: nat, r: DkgResult)
    requires SiteWf(site) && GeneratedAfter(site, db, hs, d, hash, i, r)
    ensures GeneratedAfter(site, db, hs + more, d, hash, i, r)
  {
    var p := (run: seq<Happening>) => GeneratedAfter(site, db, run, d, hash, i, r);
    forall run, hp | p(run)
      ensures p(run + [hp])
    {
      GeneratedNext(site, db, run, hp, d, hash, i, r);
    }
    Survives(p, hs, more);
  }

  /** Node `i` has generated this share, and the request was for its public key. */
  ghost predicate GeneratedShare(
      site: Site, db: Db, hs: seq<Happening>, job: Job, i: nat, key: EngineKey, d: nat, r: DkgResult)
    requires Sized(site)
  {
    GeneratedAfter(site, db, hs, d, job.hash, i, r) && key == KeyOf(r) && job.pubkey == CompressedHex(r.publicKey)
  }

  lemma OwnIsGenerated(site: Site, db: Db, hs: seq<Happening>, job: Job, i: nat, key: EngineKey)
      returns (d: nat, r: DkgResult)
    requires SiteWf(site) && HasOwnShare(site, db, hs, None, job, i, key) && NotNamed(hs, NodeKey(job.hash, i))
    ensures GeneratedShare(site, db, hs, job, i, key, d, r)
  {
    r :| OwnShare(site, db, hs, None, job, i, key, r);
    NotNamedIsOwn(site, Live(site, db, hs), hs, job.hash, i, r);
    NotNamedShare(site, db, hs, job.hash, i, r);
    d :| GeneratedResult(site, Live(site, db, hs), d, job.hash, i, r);
  }

  lemma AbsentIsKnown(site: Site, db: Db, hs: seq<Happening>, key: Text)
    requires Sized(site) && key !in db
    ensures Known(site, db, hs, None, key)
  {
  }

  lemma GeneratedByNow(site: Site, db: Db, hs: seq<Happening>, n: nat, job: Job, i: nat, key: EngineKey)
      returns (d: nat, r: DkgResult)
    requires SiteWf(site) && n <= |hs| && NotNamed(hs, NodeKey(job.hash, i))
    requires HasOwnShare(site, db, hs[..n], None, job, i, key)
    ensures GeneratedShare(site, db, hs, job, i, key, d, r)
  {
    PrefixNotNamed(hs, n, NodeKey(job.hash, i));
    d, r := OwnIsGenerated(site, db, hs[..n], job, i, key);
    GeneratedOn(site, db, hs[..n], hs[n..], hs, job, i, key, d, r);
  }

  lemma PrefixNotNamed(hs: seq<Happening>, n: nat, key: Text)
    requires n <= |hs| && NotNamed(hs, key)
    ensures NotNamed(hs[..n], key) && hs[..n] + hs[n..] == hs
  {
  }

  lemma GeneratedOn(
      site: Site, db: Db, run: seq<Happening>, more: seq<Happening>, hs: seq<Happening>, job: Job, i: nat,
      key: EngineKey, d: nat, r: DkgResult)
    requires SiteWf(site) && hs == run + more && GeneratedShare(site, db, run, job, i, key, d, r)
    ensures GeneratedShare(site, db, hs, job, i, key, d, r)
  {
    GeneratedStays(site, db, run, more, d, job.hash, i, r);
  }

  /** With no record at first and the key not named over RPC, that is exactly the share the node has generated. */
  lemma SignsWithGeneratedShare(site: Site, db: Db, hs: seq<Happening>, c: nat, i: nat)
    requires SiteWf(site) && c < |site.ceremonies| && i < site.ceremonies[c].n && site.ceremonies[c].job.kind.Sign?
    requires NodeKey(site.ceremonies[c].job.hash, i) !in db
    requires NotNamed(hs, NodeKey(site.ceremonies[c].job.hash, i))
    ensures var (job, key) := (site.ceremonies[c].job, Live(site, db, hs).states[c].keys[i]);
            key.Some? ==> exists d, r :: GeneratedShare(site, db, hs, job, i, key.value, d, r)
  {
    var job, key := site.ceremonies[c].job, Live(site, db, hs).states[c].keys[i];
    SignsWithOwnShare(site, db, hs, None, c, i);
    if key.Some? {
      var n: nat :| OwnShareAt(site, db, hs, None, c, i, key.value, n);
      AbsentIsKnown(site, db, hs[..n], NodeKey(job.hash, i));
      var d, r := GeneratedByNow(site, db, hs, n, job, i, key.value);
    }
  }
}
