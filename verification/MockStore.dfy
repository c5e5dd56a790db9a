/** The in-memory store, and how far the encrypted store agrees with it. */
module MockStore {
  import opened Basics
  import opened Numbers
  import opened Curve
  import opened Records
  import opened Fsm
  import opened BadgerStore
  import opened StoreInterface
  import opened StoreHistory

  /** The mock keeps the share in plain hexadecimal. */
  function MockRecord(suite: Suite, r: DkgResult): DkgRecord
  {
    DkgRecord(
      HexEncode(ToBytes(r.share)),
      Pubkey(HexEncode(ToBytes(r.publicKey.x)), HexEncode(ToBytes(r.publicKey.y))),
      CompressedHex(r.publicKey),
      suite.address(r.publicKey),
      BkTexts(r.bks))
  }

  /** The mock's record is the encrypted store's with the share in the clear. */
  lemma MockRecordDescribes(suite: Suite, secret: Secret, r: DkgResult)
    ensures MockRecord(suite, r).(share := RecordOf(suite, secret, r).share) == RecordOf(suite, secret, r)
    ensures FromBytes(FromHex(MockRecord(suite, r).share)) == r.share
    ensures FromBytes(FromHex(MockRecord(suite, r).pubkey.x)) == r.publicKey.x
    ensures FromBytes(FromHex(MockRecord(suite, r).pubkey.y)) == r.publicKey.y
  {
    HexNumberRoundTrip(r.share);
    HexNumberRoundTrip(r.publicKey.x);
    HexNumberRoundTrip(r.publicKey.y);
  }

  /** Printing what the bytes of the numbers read as is printing the numbers. */
  lemma DecimalConfig(r: DkgResult)
    ensures ConfigOf(r) ==
            SignerConfig(
              PrintInt(FromBytes(ToBytes(r.share))),
              Pubkey(PrintInt(FromBytes(ToBytes(r.publicKey.x))), PrintInt(FromBytes(ToBytes(r.publicKey.y)))),
              BkTexts(r.bks))
  {
    FromToBytes(r.share);
    FromToBytes(r.publicKey.x);
    FromToBytes(r.publicKey.y);
  }

  lemma Overwritten<V>(m: map<Text, V>, k: Text, v: V, v': V)
    ensures m[k := v][k := v'] == m[k := v']
  {
  }

  class MockDB {
    const suite: Suite
    var dkgResults: map<Text, DkgRecord>
    var signerConfigs: map<Text, SignerConfig>

    constructor (suite: Suite)
      ensures dkgResults == map[] && signerConfigs == map[] && this.suite == suite
    {
      this.suite := suite;
      dkgResults, signerConfigs := map[], map[];
    }

    method SaveDKGResultData(hash: Text, result: DkgResult)
      modifies this
      ensures dkgResults == old(dkgResults)[hash := MockRecord(suite, result)]
      ensures signerConfigs == old(signerConfigs)[hash := ConfigOf(result)]
    {
      KeepRecord(hash, result);
      KeepConfig(hash, result);
    }

    /** The first half of the save. */
    method KeepRecord(hash: Text, result: DkgResult)
      modifies this`dkgResults
      ensures dkgResults == old(dkgResults)[hash := MockRecord(suite, result)]
    {
      ghost var before := dkgResults;
      ghost var rec := MockRecord(suite, result).(bks := map[]);
      dkgResults := dkgResults[hash := MockRecord(suite, result).(bks := map[])];
      FillBks(hash, result.bks);
      Overwritten(before, hash, rec, rec.(bks := BkTexts(result.bks)));
    }

    /** The second half. */
    method KeepConfig(hash: Text, result: DkgResult)
      modifies this`signerConfigs
      ensures signerConfigs == old(signerConfigs)[hash := ConfigOf(result)]
    {
      var bks := BksOf(result.bks);
      DecimalConfig(result);
      signerConfigs := signerConfigs[hash := SignerConfig(
        PrintInt(FromBytes(ToBytes(result.share))),
        Pubkey(PrintInt(FromBytes(ToBytes(result.publicKey.x))), PrintInt(FromBytes(ToBytes(result.publicKey.y)))),
        bks)];
    }

    /** The first loop of the save: the parameters go into the record that is already in the map. */
    method FillBks(hash: Text, bks: map<Text, BkParameter>)
      requires hash in dkgResults && dkgResults[hash].bks == map[]
      modifies this`dkgResults
      ensures dkgResults == old(dkgResults)[hash := old(dkgResults)[hash].(bks := BkTexts(bks))]
    {
      var todo := bks.Keys;
      while todo != {}
        invariant todo <= bks.Keys
        invariant hash in dkgResults
        invariant dkgResults[hash].bks == BkTexts(bks) - todo
        invariant dkgResults == old(dkgResults)[hash := old(dkgResults)[hash].(bks := dkgResults[hash].bks)]
      {
        var id :| id in todo;
        var rec := dkgResults[hash];
        dkgResults := dkgResults[hash := rec.(bks := rec.bks[id := BkText(bks[id])])];
        todo := todo - {id};
      }
      assert dkgResults[hash].bks == BkTexts(bks);
    }

    /** The second loop of the save. */
    method BksOf(bks: map<Text, BkParameter>) returns (texts: map<Text, BK>)
      ensures texts == BkTexts(bks)
    {
      texts := map[];
      var todo := bks.Keys;
      while todo != {}
        invariant todo <= bks.Keys
        invariant texts == BkTexts(bks) - todo
      {
        var id :| id in todo;
        texts := texts[id := BkText(bks[id])];
        todo := todo - {id};
      }
      assert texts == BkTexts(bks);
    }

    /** The public key of the query is not looked at. */
    method GetSignerConfig(hash: Text, pubkey: Text) returns (r: Result<SignerConfig>)
      ensures r == if hash in signerConfigs then Ok(signerConfigs[hash]) else Err(ConfigNotFound)
    {
      if hash !in signerConfigs {
        return Err(ConfigNotFound);
      }
      return Ok(signerConfigs[hash]);
    }

    /** Logs and does nothing, so the mock may be left as it is. */
    method UpdateDKGResultData(hash: Text, share: nat)
    {
    }

    method SaveSignerResultData(hash: Text, signature: RVSignature)
    {
    }
  }

  /** The configurations the mock holds after a run: reshares and signatures leave no trace. */
  function MockConfigs(ops: seq<StoreOp>): map<Text, SignerConfig>
  {
    if ops == [] then map[]
    else
      var before, op := MockConfigs(ops[..|ops| - 1]), ops[|ops| - 1];
      if op.SaveOp? then before[op.hash := ConfigOf(op.result)] else before
  }

  /** The result of the last save under a key, whatever was written there since. */
  function LastSaved(ops: seq<StoreOp>, hash: Text): Option<DkgResult>
  {
    if ops == [] then None
    else if ops[|ops| - 1].SaveOp? && ops[|ops| - 1].hash == hash then Some(ops[|ops| - 1].result)
    else LastSaved(ops[..|ops| - 1], hash)
  }

  /** The mock holds the last save of every key, whatever came after it and whatever the database said. */
  lemma {:induction false} MockHoldsLastSave(ops: seq<StoreOp>, hash: Text)
    ensures hash in MockConfigs(ops) <==> LastSaved(ops, hash).Some?
    ensures LastSaved(ops, hash).Some? ==> MockConfigs(ops)[hash] == ConfigOf(LastSaved(ops, hash).value)
  {
    if ops != [] {
      MockHoldsLastSave(ops[..|ops| - 1], hash);
    }
  }

  /** When all transactions succeed, a key that was saved was last written by that save or by a later signature. */
  lemma {:induction false} LastSaveIsLastWrite(ops: seq<StoreOp>, hash: Text)
    requires forall op :: op in ops ==> op.commits
    requires LastSaved(ops, hash).Some?
    ensures LastWrite(ops, hash).Some?
    ensures var w := LastWrite(ops, hash).value; w.SaveOp? ==> w.result == LastSaved(ops, hash).value
  {
    assert ops[|ops| - 1] in ops;
    if !ops[|ops| - 1].SaveOp? || ops[|ops| - 1].hash != hash {
      assert forall o :: o in ops[..|ops| - 1] ==> o in ops;
      LastSaveIsLastWrite(ops[..|ops| - 1], hash);
    }
  }

  /** What is served for a signature is not the configuration of any result. */
  lemma SignatureIsNoResult(strict: bool, pubkey: Text, r: DkgResult)
    ensures SignatureConfig(strict, pubkey) != Ok(ConfigOf(r))
  {
    OriginOffCurve();
    if PrintInt(r.publicKey.x) == PrintInt(0) && PrintInt(r.publicKey.y) == PrintInt(0) {
      PrintIntInjective(r.publicKey.x, 0);
      PrintIntInjective(r.publicKey.y, 0);
    }
  }

  /** Different results have different configurations. */
  lemma ConfigTells(r: DkgResult, last: DkgResult)
    ensures ConfigOf(last) == ConfigOf(r) <==> last == r
  {
    ConfigConverts(r);
    ConfigConverts(last);
  }

  /**
    Over every run, whatever the database refuses, and for every key that was ever saved: the encrypted store, asked
    with the compressed form of the last result saved, gives the mock's answer exactly when the key's committed
    operations leave that very result.
   */
  lemma AgreesWithMockIff(suite: Suite, secret: Secret, ops: seq<StoreOp>, hash: Text)
    requires LastSaved(ops, hash).Some?
    ensures var r := LastSaved(ops, hash).value;
            && hash in MockConfigs(ops)
            && (Config(suite, secret, Replay(Badger(suite, secret), map[], ops), hash, CompressedHex(r.publicKey))
                == Ok(MockConfigs(ops)[hash])
                <==> EntryAfter(None, ops, hash) == Some(Key(r)))
  {
    var r, db := LastSaved(ops, hash).value, Replay(Badger(suite, secret), map[], ops);
    MockHoldsLastSave(ops, hash);
    KeyHistory(suite, secret, map[], hash, None, ops);
    match EntryAfter(None, ops, hash)
    case None =>
    case Some(Key(last)) =>
      ConfigOfStored(suite, secret, db, hash, last, CompressedHex(r.publicKey));
      ConfigTells(r, last);
    case Some(Signature(s)) =>
      ConfigOfSignature(suite, secret, db, hash, s, CompressedHex(r.publicKey));
      SignatureIsNoResult(suite.strict, CompressedHex(r.publicKey), r);
  }

  /** The key's last committed write is the last save, and no reshare since has changed its share. */
  lemma EntryIsSave(ops: seq<StoreOp>, hash: Text, r: DkgResult)
    ensures EntryAfter(None, ops, hash) == Some(Key(r)) <==>
            var w := LastWrite(ops, hash);
            && w.Some? && w.value.SaveOp?
            && w.value.result.(share := LastShare(ops, hash, w.value.result.share)) == r
  {
    LastWriteIsWrite(ops, hash);
  }

  /**
    Where all transactions succeed that means: no signature was written over the last save, and no reshare since then
    changed its share.
   */
  lemma AgreesWhenCommitted(suite: Suite, secret: Secret, ops: seq<StoreOp>, hash: Text)
    requires forall op :: op in ops ==> op.commits
    requires LastSaved(ops, hash).Some?
    ensures var r := LastSaved(ops, hash).value;
            && hash in MockConfigs(ops)
            && LastWrite(ops, hash).Some?
            && (Config(suite, secret, Replay(Badger(suite, secret), map[], ops), hash, CompressedHex(r.publicKey))
                == Ok(MockConfigs(ops)[hash])
                <==> LastWrite(ops, hash).value.SaveOp? && LastShare(ops, hash, r.share) == r.share)
  {
    var r := LastSaved(ops, hash).value;
    LastSaveIsLastWrite(ops, hash);
    AgreesWithMockIff(suite, secret, ops, hash);
    EntryIsSave(ops, hash, r);
  }

  /** A save that the database refuses sets the two apart, with no signature and no reshare in sight. */
  lemma RefusedSaveSetsApart(suite: Suite, secret: Secret, hash: Text, a: DkgResult, b: DkgResult)
    requires a != b
    ensures var ops := [SaveOp(hash, a, true)] + [SaveOp(hash, b, false)];
            && LastSaved(ops, hash) == Some(b)
            && hash in MockConfigs(ops)
            && Config(suite, secret, Replay(Badger(suite, secret), map[], ops), hash, CompressedHex(b.publicKey))
               != Ok(MockConfigs(ops)[hash])
  {
    var ops := [SaveOp(hash, a, true)] + [SaveOp(hash, b, false)];
    assert ops[..1] == [SaveOp(hash, a, true)];
    assert LastWrite(ops, hash) == LastWrite([SaveOp(hash, a, true)], hash) == Some(SaveOp(hash, a, true));
    assert Reshared(ops, hash) == Reshared([SaveOp(hash, a, true)], hash) == None;
    AgreesWithMockIff(suite, secret, ops, hash);
    EntryIsSave(ops, hash, b);
  }

  /**
    So the encrypted store refines the mock on every key whose last save was committed and has no committed reshare or
    signature after it, whatever else happened and failed.
   */
  lemma RefinesMockWithoutReshare(suite: Suite, secret: Secret, ops: seq<StoreOp>, hash: Text)
    requires LastSaved(ops, hash).Some? && Reshared(ops, hash) == None
    requires LastWrite(ops, hash) == Some(SaveOp(hash, LastSaved(ops, hash).value, true))
    ensures hash in MockConfigs(ops)
    ensures Config(suite, secret, Replay(Badger(suite, secret), map[], ops), hash,
                   CompressedHex(LastSaved(ops, hash).value.publicKey)) == Ok(MockConfigs(ops)[hash])
  {
    AgreesWithMockIff(suite, secret, ops, hash);
    EntryIsSave(ops, hash, LastSaved(ops, hash).value);
  }
}
