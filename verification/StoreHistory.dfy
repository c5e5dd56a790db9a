/** Runs of the encrypted store: what a reader sees after any sequence of saves, reshares and signatures. */
module StoreHistory {
  import opened Basics
  import opened Numbers
  import opened Json
  import opened Curve
  import opened Records
  import opened Encrypto
  import opened Fsm
  import opened BadgerStore
  import opened StoreInterface

  // ----- the plain store it implements -----

  datatype Entry = Key(result: DkgResult) | Signature(signature: RVSignature)

  type Plain = map<Text, Entry>

  function PlainApply(m: Plain, op: StoreOp): Plain
  {
    if !op.commits then m
    else
      match op
      case SaveOp(hash, result, _) => m[hash := Key(result)]
      case SignatureOp(hash, signature, _) => m[hash := Signature(signature)]
      case UpdateOp(hash, share, _) =>
        if hash in m && m[hash].Key? then m[hash := Key(m[hash].result.(share := share))] else m
  }

  function PlainApplyAll(m: Plain, ops: seq<StoreOp>): Plain
  {
    if ops == [] then m else PlainApply(PlainApplyAll(m, ops[..|ops| - 1]), ops[|ops| - 1])
  }

  function EntryJson(suite: Suite, secret: Secret, e: Entry): Json
  {
    match e
    case Key(result) => DkgJson(suite, secret, result)
    case Signature(signature) => SignatureJson(signature)
  }

  /** The database that stands for a plain store. */
  function Concrete(suite: Suite, secret: Secret, m: Plain): Db
  {
    map k | k in m :: EntryJson(suite, secret, m[k])
  }

  /** What GetSignerConfig answers, told on the plain store. */
  function PlainConfig(strict: bool, m: Plain, hash: Text, pubkey: Text): Result<SignerConfig>
  {
    if hash !in m then Err(KeyNotFound)
    else
      match m[hash]
      case Key(r) => if pubkey == CompressedHex(r.publicKey) then Ok(ConfigOf(r)) else Err(PubkeyMismatch)
      case Signature(_) => SignatureConfig(strict, pubkey)
  }

  lemma WriteRefines(suite: Suite, secret: Secret, m: Plain, hash: Text, e: Entry)
    ensures Concrete(suite, secret, m)[hash := EntryJson(suite, secret, e)] == Concrete(suite, secret, m[hash := e])
  {
  }

  lemma UpdateRefines(suite: Suite, secret: Secret, m: Plain, hash: Text, share: nat, commits: bool)
    ensures Updated(suite, secret, Concrete(suite, secret, m), hash, share, commits).0
         == Concrete(suite, secret, PlainApply(m, UpdateOp(hash, share, commits)))
  {
    var db := Concrete(suite, secret, m);
    if hash in m {
      match m[hash]
      case Key(r) =>
        UpdateOfStored(suite, secret, db, hash, r, share, commits);
        WriteRefines(suite, secret, m, hash, Key(r.(share := share)));
      case Signature(s) =>
        UpdateOfOthers(suite, secret, db, hash, s, share, commits);
    }
  }

  lemma ApplyRefines(suite: Suite, secret: Secret, m: Plain, op: StoreOp)
    ensures Apply(suite, secret, Concrete(suite, secret, m), op) == Concrete(suite, secret, PlainApply(m, op))
  {
    match op
    case SaveOp(hash, result, _) => WriteRefines(suite, secret, m, hash, Key(result));
    case SignatureOp(hash, signature, _) => WriteRefines(suite, secret, m, hash, Signature(signature));
    case UpdateOp(hash, share, commits) => UpdateRefines(suite, secret, m, hash, share, commits);
  }

  /** Every run of the encrypted store is a run of the plain one. */
  lemma {:induction false} RunRefines(suite: Suite, secret: Secret, m: Plain, ops: seq<StoreOp>)
    ensures Replay(Badger(suite, secret), Concrete(suite, secret, m), ops)
         == Concrete(suite, secret, PlainApplyAll(m, ops))
  {
    if ops != [] {
      RunRefines(suite, secret, m, ops[..|ops| - 1]);
      ApplyRefines(suite, secret, PlainApplyAll(m, ops[..|ops| - 1]), ops[|ops| - 1]);
    }
  }

  /** Reading refines too: every answer of GetSignerConfig, errors included, is the plain store's. */
  lemma ConfigRefines(suite: Suite, secret: Secret, m: Plain, hash: Text, pubkey: Text)
    ensures Config(suite, secret, Concrete(suite, secret, m), hash, pubkey)
         == PlainConfig(suite.strict, m, hash, pubkey)
  {
    var db := Concrete(suite, secret, m);
    if hash in m {
      match m[hash]
      case Key(r) => ConfigOfStored(suite, secret, db, hash, r, pubkey);
      case Signature(s) => ConfigOfSignature(suite, secret, db, hash, s, pubkey);
    }
  }

  // ----- the life of one key, told by the operations alone -----

  /** The last committed save or signature under `hash`. */
  function LastWrite(ops: seq<StoreOp>, hash: Text): Option<StoreOp>
  {
    if ops == [] then None
    else
      var op := ops[|ops| - 1];
      if op.commits && op.hash == hash && !op.UpdateOp? then Some(op) else LastWrite(ops[..|ops| - 1], hash)
  }

  /** The share of the last committed reshare of `hash` since then. */
  function Reshared(ops: seq<StoreOp>, hash: Text): Option<nat>
  {
    if ops == [] then None
    else
      var op := ops[|ops| - 1];
      if !op.commits || op.hash != hash then Reshared(ops[..|ops| - 1], hash)
      else if op.UpdateOp? then Some(op.share)
      else None
  }

  lemma LastWriteExtend(ops: seq<StoreOp>, op: StoreOp, hash: Text)
    ensures LastWrite(ops + [op], hash) ==
            if op.commits && op.hash == hash && !op.UpdateOp? then Some(op) else LastWrite(ops, hash)
  {
    assert (ops + [op])[..|ops|] == ops;
  }

  function WrittenEntry(op: StoreOp): Entry
    requires !op.UpdateOp?
  {
    if op.SaveOp? then Key(op.result) else Signature(op.signature)
  }

  lemma {:induction false} LastWriteIsWrite(ops: seq<StoreOp>, hash: Text)
    ensures var w := LastWrite(ops, hash);
            w.Some? ==> w.value in ops && w.value.commits && w.value.hash == hash && !w.value.UpdateOp?
  {
    if ops != [] {
      LastWriteIsWrite(ops[..|ops| - 1], hash);
    }
  }

  /** What a key holds after a history: the last thing written, or what was there, with the last share since. */
  function EntryAfter(before: Option<Entry>, ops: seq<StoreOp>, hash: Text): Option<Entry>
  {
    LastWriteIsWrite(ops, hash);
    var w, share := LastWrite(ops, hash), Reshared(ops, hash);
    var base := if w == None then before else Some(WrittenEntry(w.value));
    if share.Some? && base.Some? && base.value.Key? then Some(Key(base.value.result.(share := share.value))) else base
  }

  /** The database holds this entry, or nothing, under a key. */
  predicate Holds(suite: Suite, secret: Secret, db: Db, hash: Text, e: Option<Entry>)
  {
    if e == None then hash !in db else hash in db && db[hash] == EntryJson(suite, secret, e.value)
  }

  /** No operation touches a key other than its own. */
  lemma OtherKeysUntouched(suite: Suite, secret: Secret, db: Db, op: StoreOp, hash: Text)
    requires op.hash != hash
    ensures hash in db <==> hash in Apply(suite, secret, db, op)
    ensures hash in db ==> Apply(suite, secret, db, op)[hash] == db[hash]
  {
  }

  lemma OpOnKey(suite: Suite, secret: Secret, db: Db, hash: Text, e: Option<Entry>, op: StoreOp)
    requires Holds(suite, secret, db, hash, e) && op.hash == hash
    ensures Holds(suite, secret, Apply(suite, secret, db, op), hash,
                  if !op.commits then e
                  else if !op.UpdateOp? then Some(WrittenEntry(op))
                  else if e.Some? && e.value.Key? then Some(Key(e.value.result.(share := op.share)))
                  else e)
  {
    if op.UpdateOp? && e.Some? {
      match e.value
      case Key(r) => UpdateOfStored(suite, secret, db, hash, r, op.share, op.commits);
      case Signature(s) => UpdateOfOthers(suite, secret, db, hash, s, op.share, op.commits);
    }
  }

  /** A reshare succeeds exactly when the key holds a result and the transaction commits. */
  lemma UpdateSucceeds(
      suite: Suite, secret: Secret, db: Db, hash: Text, e: Option<Entry>, share: nat, commits: bool)
    requires Holds(suite, secret, db, hash, e)
    ensures Updated(suite, secret, db, hash, share, commits).1.Ok? <==> commits && e.Some? && e.value.Key?
  {
    match e
    case None => UpdateOfOthers(suite, secret, db, hash, RVSignature([], [], []), share, commits);
    case Some(Key(r)) => UpdateOfStored(suite, secret, db, hash, r, share, commits);
    case Some(Signature(s)) => UpdateOfOthers(suite, secret, db, hash, s, share, commits);
  }

  /** One more operation on what a key holds. */
  lemma EntryStep(before: Option<Entry>, ops: seq<StoreOp>, hash: Text)
    requires ops != []
    ensures var op, e := ops[|ops| - 1], EntryAfter(before, ops[..|ops| - 1], hash);
            EntryAfter(before, ops, hash) ==
            if !op.commits || op.hash != hash then e
            else if !op.UpdateOp? then Some(WrittenEntry(op))
            else if e.Some? && e.value.Key? then Some(Key(e.value.result.(share := op.share)))
            else e
  {
  }

  /** Any history whatever, in any database: a key holds what its own committed operations say. */
  lemma {:induction false} KeyHistory(
      suite: Suite, secret: Secret, db: Db, hash: Text, before: Option<Entry>, ops: seq<StoreOp>)
    requires Holds(suite, secret, db, hash, before)
    ensures Holds(suite, secret, Replay(Badger(suite, secret), db, ops), hash, EntryAfter(before, ops, hash))
  {
    if ops != [] {
      var earlier, op := ops[..|ops| - 1], ops[|ops| - 1];
      var mid := Replay(Badger(suite, secret), db, earlier);
      KeyHistory(suite, secret, db, hash, before, earlier);
      EntryStep(before, ops, hash);
      if op.hash == hash {
        OpOnKey(suite, secret, mid, hash, EntryAfter(before, earlier, hash), op);
      } else {
        OtherKeysUntouched(suite, secret, mid, op, hash);
      }
    }
  }

  /** Once a key has been written, what it held before does not matter, whatever that was. */
  lemma {:induction false} KeyWritten(suite: Suite, secret: Secret, db: Db, hash: Text, ops: seq<StoreOp>)
    requires LastWrite(ops, hash).Some?
    ensures Holds(suite, secret, Replay(Badger(suite, secret), db, ops), hash, EntryAfter(None, ops, hash))
  {
    var earlier, op := ops[..|ops| - 1], ops[|ops| - 1];
    var mid := Replay(Badger(suite, secret), db, earlier);
    EntryStep(None, ops, hash);
    if !op.commits || op.hash != hash || op.UpdateOp? {
      KeyWritten(suite, secret, db, hash, earlier);
      if op.hash == hash {
        OpOnKey(suite, secret, mid, hash, EntryAfter(None, earlier, hash), op);
      } else {
        OtherKeysUntouched(suite, secret, mid, op, hash);
      }
    }
  }

  /** A history without a write to the key leaves the result that was there, with the last share. */
  lemma {:induction false} OnlyReshared(ops: seq<StoreOp>, hash: Text)
    requires forall op :: op in ops && op.hash == hash ==> op.UpdateOp?
    ensures LastWrite(ops, hash) == None
  {
    LastWriteIsWrite(ops, hash);
  }

  /** The share of the last committed reshare of `hash`, or `share` when there is none. */
  function LastShare(ops: seq<StoreOp>, hash: Text, share: nat): nat
  {
    match Reshared(ops, hash)
    case None => share
    case Some(last) => last
  }

  /**
    After a save and any sequence of reshares of that key, interleaved with anything on other keys and with any
    transaction failing, in a database that held anything: the configuration is the saved one with the last share,
    it converts into a usable key, and the record's key, address and Birkhoff table are those of the save.
   */
  lemma ReshareHistory(suite: Suite, secret: Secret, db: Db, hash: Text, r: DkgResult, ops: seq<StoreOp>)
    requires forall op :: op in ops && op.hash == hash ==> op.UpdateOp?
    ensures var after := Replay(Badger(suite, secret), Apply(suite, secret, db, SaveOp(hash, r, true)), ops);
            var last := r.(share := LastShare(ops, hash, r.share));
            && Config(suite, secret, after, hash, CompressedHex(r.publicKey)) == Ok(ConfigOf(last))
            && Converted(ConfigOf(last)) == Ok(KeyOf(last))
            && Record(after, hash).Ok?
            && Record(after, hash).value.(share := []) == RecordOf(suite, secret, r).(share := [])
  {
    var saved := Apply(suite, secret, db, SaveOp(hash, r, true));
    var after := Replay(Badger(suite, secret), saved, ops);
    var last := r.(share := LastShare(ops, hash, r.share));
    OnlyReshared(ops, hash);
    KeyHistory(suite, secret, saved, hash, Some(Key(r)), ops);
    assert EntryAfter(Some(Key(r)), ops, hash) == Some(Key(last));
    ConfigOfStored(suite, secret, after, hash, last, CompressedHex(r.publicKey));
    ConfigConverts(last);
    RecordReadBack(suite, secret, after, hash, last);
  }

  /** A key that held a result holds one still, with some share, unless a signature was the last thing written. */
  lemma EntryOfResult(r: DkgResult, ops: seq<StoreOp>, hash: Text, share: nat)
    ensures var (w, e) := (LastWrite(ops, hash), EntryAfter(Some(Key(r)), ops, hash));
            && e.Some?
            && (e.value.Signature? <==> w.Some? && w.value.SignatureOp?)
            && (e.value.Key? ==>
                  e.value.result.(share := share)
                  == (if w.Some? && w.value.SaveOp? then w.value.result else r).(share := share))
  {
    LastWriteIsWrite(ops, hash);
  }

  /**
    The write-back of a reshare whose session was built on a result, with any operations in between: it panics exactly
    when the last thing written under its key meanwhile is a signature, and else it renews the share of what is there.
   */
  lemma ReshareWriteBack(
      suite: Suite, secret: Secret, db: Db, hash: Text, r: DkgResult, ops: seq<StoreOp>, share: nat, commits: bool)
    requires Holds(suite, secret, db, hash, Some(Key(r)))
    ensures var (after, w) := (Replay(Badger(suite, secret), db, ops), LastWrite(ops, hash));
            var current := if w.Some? && w.value.SaveOp? then w.value.result else r;
            Updated(suite, secret, after, hash, share, commits) ==
            if w.Some? && w.value.SignatureOp? then (after, Err(Panic))
            else Written(after, hash, DkgJson(suite, secret, current.(share := share)), commits)
  {
    var after := Replay(Badger(suite, secret), db, ops);
    KeyHistory(suite, secret, db, hash, Some(Key(r)), ops);
    LastWriteIsWrite(ops, hash);
    EntryOfResult(r, ops, hash, share);
    match EntryAfter(Some(Key(r)), ops, hash).value
    case Key(last) => UpdateOfStored(suite, secret, after, hash, last, share, commits);
    case Signature(s) => UpdateOfOthers(suite, secret, after, hash, s, share, commits);
  }

  // ----- histories of a key, by what they contain -----

  /** The last write is one of the writes, and there is one when there are any. */
  lemma {:induction false} LastWriteIndex(ops: seq<StoreOp>, key: Text)
    ensures LastWrite(ops, key).Some? ==>
              exists k :: 0 <= k < |ops| && Some(ops[k]) == LastWrite(ops, key)
    ensures (exists k :: 0 <= k < |ops| && Writes(ops[k], key)) ==> LastWrite(ops, key).Some?
  {
    if ops != [] {
      var n := |ops| - 1;
      LastWriteIndex(ops[..n], key);
      if LastWrite(ops[..n], key).Some? {
        var k :| 0 <= k < n && Some(ops[..n][k]) == LastWrite(ops[..n], key);
        assert ops[k] == ops[..n][k];
      }
      assert forall k :: 0 <= k < n ==> ops[..n][k] == ops[k];
    }
  }

  predicate Writes(op: StoreOp, key: Text)
  {
    op.commits && op.hash == key && !op.UpdateOp?
  }

  predicate Renews(op: StoreOp, key: Text)
  {
    op.commits && op.hash == key && op.UpdateOp?
  }

  /** Where a key is only reshared, its last share is that of one of the reshares, when there are any. */
  lemma {:induction false} LastReshareIndex(ops: seq<StoreOp>, key: Text)
    requires forall k :: 0 <= k < |ops| ==> !Writes(ops[k], key)
    ensures LastWrite(ops, key) == None
    ensures if exists k :: 0 <= k < |ops| && Renews(ops[k], key)
            then Reshared(ops, key).Some? &&
                 exists k :: 0 <= k < |ops| && Renews(ops[k], key) && ops[k].share == Reshared(ops, key).value
            else Reshared(ops, key) == None
  {
    if ops != [] {
      var n := |ops| - 1;
      assert forall k :: 0 <= k < n ==> ops[..n][k] == ops[k];
      LastReshareIndex(ops[..n], key);
      if !Renews(ops[n], key) && exists k :: 0 <= k < n && Renews(ops[k], key) {
        assert exists k :: 0 <= k < n && Renews(ops[..n][k], key);
        var k :| 0 <= k < n && Renews(ops[..n][k], key) && ops[..n][k].share == Reshared(ops[..n], key).value;
        assert Renews(ops[k], key) && ops[k].share == Reshared(ops, key).value;
      }
    }
  }

  lemma {:induction false} NoReshare(ops: seq<StoreOp>, key: Text)
    requires forall k :: 0 <= k < |ops| && ops[k].hash == key ==> !ops[k].UpdateOp?
    ensures Reshared(ops, key) == None
  {
    if ops != [] {
      assert forall k :: 0 <= k < |ops| - 1 ==> ops[..|ops| - 1][k] == ops[k];
      NoReshare(ops[..|ops| - 1], key);
    }
  }

  /** A share that was reshared came with one of the reshares. */
  lemma {:induction false} ResharedIndex(ops: seq<StoreOp>, key: Text)
    ensures Reshared(ops, key).Some? ==>
              exists k :: 0 <= k < |ops| && Renews(ops[k], key) && ops[k].share == Reshared(ops, key).value
  {
    if ops != [] {
      var n := |ops| - 1;
      ResharedIndex(ops[..n], key);
      if Reshared(ops[..n], key).Some? {
        var k :| 0 <= k < n && Renews(ops[..n][k], key) && ops[..n][k].share == Reshared(ops[..n], key).value;
        assert ops[k] == ops[..n][k];
      }
    }
  }

  // ----- operations on different keys -----

  predicate SameAt(a: Db, b: Db, k: Text)
  {
    (k in a <==> k in b) && (k in a ==> a[k] == b[k])
  }

  lemma SameEverywhere(a: Db, b: Db)
    requires forall k :: SameAt(a, b, k)
    ensures a == b
  {
    forall k
      ensures k in a <==> k in b
      ensures k in a ==> a[k] == b[k]
    {
      assert SameAt(a, b, k);
    }
  }

  /** An operation on one key and then one on another, seen from a key. */
  lemma CommuteAt(suite: Suite, secret: Secret, db: Db, a: StoreOp, b: StoreOp, k: Text)
    requires a.hash != b.hash && k != a.hash
    ensures SameAt(Apply(suite, secret, Apply(suite, secret, db, a), b),
                   Apply(suite, secret, Apply(suite, secret, db, b), a), k)
  {
    var da, d := Apply(suite, secret, db, a), Apply(suite, secret, db, b);
    OtherKeysUntouched(suite, secret, d, a, k);
    OtherKeysUntouched(suite, secret, db, a, k);
    if k == b.hash {
      SameAtKey(suite, secret, db, da, b);
    } else {
      OtherKeysUntouched(suite, secret, da, b, k);
      OtherKeysUntouched(suite, secret, db, b, k);
    }
  }

  /** Operations on different keys commute, in any database. */
  lemma OpsCommute(suite: Suite, secret: Secret, db: Db, a: StoreOp, b: StoreOp)
    requires a.hash != b.hash
    ensures Apply(suite, secret, Apply(suite, secret, db, a), b) == Apply(suite, secret, Apply(suite, secret, db, b), a)
  {
    forall k
      ensures SameAt(Apply(suite, secret, Apply(suite, secret, db, a), b),
                     Apply(suite, secret, Apply(suite, secret, db, b), a), k)
    {
      if k != a.hash {
        CommuteAt(suite, secret, db, a, b, k);
      } else {
        CommuteAt(suite, secret, db, b, a, k);
      }
    }
    SameEverywhere(Apply(suite, secret, Apply(suite, secret, db, a), b),
                   Apply(suite, secret, Apply(suite, secret, db, b), a));
  }

  /** What an operation leaves under its key depends on what was under that key only. */
  lemma SameAtKey(suite: Suite, secret: Secret, db: Db, db': Db, op: StoreOp)
    requires op.hash in db <==> op.hash in db'
    requires op.hash in db ==> db[op.hash] == db'[op.hash]
    ensures op.hash in Apply(suite, secret, db, op) <==> op.hash in Apply(suite, secret, db', op)
    ensures op.hash in Apply(suite, secret, db, op) ==>
              Apply(suite, secret, db, op)[op.hash] == Apply(suite, secret, db', op)[op.hash]
  {
  }
}
