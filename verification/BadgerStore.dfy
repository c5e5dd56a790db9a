/** The encrypted store of key shares and signatures, and the conversion of its answers for the engine. */
module BadgerStore {
  import opened Basics
  import opened Numbers
  import opened Json
  import opened Curve
  import opened Records
  import opened Encrypto
  import Base64
  import opened Fsm

  /**
    The library functions the store calls: a block cipher, the address of a key and a 32-byte hash.  `strict` says
    whether compressing a point off the curve panics, as it does with the native curve library, or follows the formula.
   */
  datatype Suite = Suite(cipher: Cipher, address: Point -> Address, keccak: Text -> Digest, strict: bool)

  type Digest = d: seq<byte> | |d| == 32
    witness [0, 0, 0, 0, 0, 0, 0, 0, 0, 0, 0, 0, 0, 0, 0, 0, 0, 0, 0, 0, 0, 0, 0, 0, 0, 0, 0, 0, 0, 0, 0, 0]

  // ----- what the operations compute -----

  /** A share as it is stored: hexadecimal, encrypted under the host key with the public key as salt. */
  function Sealed(suite: Suite, secret: Secret, share: nat, salt: Text): Result<Text>
  {
    Encrypted(suite.cipher, HexEncode(ToBytes(share)), secret, salt)
  }

  function RecordOf(suite: Suite, secret: Secret, r: DkgResult): DkgRecord
  {
    DkgRecord(
      Sealed(suite, secret, r.share, CompressedHex(r.publicKey)).value,
      Pubkey(HexEncode(ToBytes(r.publicKey.x)), HexEncode(ToBytes(r.publicKey.y))),
      CompressedHex(r.publicKey),
      suite.address(r.publicKey),
      BkTexts(r.bks))
  }

  function DkgJson(suite: Suite, secret: Secret, r: DkgResult): Json
  {
    RecordJson(RecordOf(suite, secret, r))
  }

  /** GetDKGResultData. */
  function Record(db: Db, hash: Text): Result<DkgRecord>
  {
    match Read(db, hash)
    case Err(e) => Err(e)
    case Ok(j) => ReadRecord(j)
  }

  /** UpdateDKGResultData. */
  function Updated(suite: Suite, secret: Secret, db: Db, hash: Text, share: nat, commits: bool): (Db, Result<()>)
  {
    match Record(db, hash)
    case Err(e) => (db, Err(e))
    case Ok(oldDkg) =>
      match Sealed(suite, secret, share, oldDkg.publicKey)
      case Err(e) => (db, Err(e))
      case Ok(sealed) => Written(db, hash, RecordJson(oldDkg.(share := sealed)), commits)
  }

  /** GetSignerConfig. */
  function Config(suite: Suite, secret: Secret, db: Db, hash: Text, pubkey: Text): Result<SignerConfig>
  {
    match Record(db, hash)
    case Err(e) => Err(e)
    case Ok(rec) =>
      var p := Point(FromBytes(FromHex(rec.pubkey.x)), FromBytes(FromHex(rec.pubkey.y)));
      if suite.strict && !OnCurve(p) then Err(Panic)
      else if CompressedHex(p) != pubkey then Err(PubkeyMismatch)
      else
        match Decrypted(suite.cipher, rec.share, secret, pubkey)
        case Err(e) => Err(e)
        case Ok(share) =>
          Ok(SignerConfig(PrintInt(FromBytes(FromHex(share))), Pubkey(PrintInt(p.x), PrintInt(p.y)), rec.bks))
  }

  /** ConvertDKGResult. */
  function Converted(cfg: SignerConfig): Result<EngineKey>
  {
    var x, y := ParseInt(cfg.pubkey.x), ParseInt(cfg.pubkey.y);
    if x == None || y == None then Err(Conversion)
    else if x.value < 0 || y.value < 0 || !OnCurve(Point(x.value, y.value)) then Err(NotOnCurve)
    else if !Parses(cfg) then Err(Conversion)
    else
      Ok(EngineKey(Point(x.value, y.value), ParseInt(cfg.share).value,
                   ParsedBks(cfg.bks)))
  }

  function ParsedBks(bks: map<Text, BK>): map<Text, BkParameter>
    requires forall id :: id in bks ==> ParseInt(bks[id].x).Some?
  {
    map id | id in bks :: BkParameter(ParseInt(bks[id].x).value, bks[id].rank)
  }

  // ----- the operations -----

  /** The badger-backed store of one host. */
  class BadgerDB {
    const fsm: FSM
    const suite: Suite

    constructor (suite: Suite, secret: Secret)
      ensures fresh(fsm) && fsm.db == map[] && fsm.secret == secret && this.suite == suite
    {
      this.suite := suite;
      fsm := new FSM(secret);
    }

    method SaveDKGResultData(hash: Text, result: DkgResult, commits: bool) returns (r: Result<()>)
      modifies fsm
      ensures (fsm.db, r) == Written(old(fsm.db), hash, DkgJson(suite, fsm.secret, result), commits)
    {
      var pubkey := CompressedHex(result.publicKey);
      var encryptedShare := Encrypt(suite.cipher, HexEncode(ToBytes(result.share)), fsm.secret, pubkey);
      match encryptedShare
      case Err(e) =>
        return Err(e);
      case Ok(share) =>
        var data := DkgRecord(
          share,
          Pubkey(HexEncode(ToBytes(result.publicKey.x)), HexEncode(ToBytes(result.publicKey.y))),
          pubkey,
          suite.address(result.publicKey),
          map[]);
        var todo := result.bks.Keys;
        while todo != {}
          invariant todo <= result.bks.Keys
          invariant data == RecordOf(suite, fsm.secret, result).(bks := data.bks)
          invariant data.bks == BkTexts(result.bks) - todo
        {
          var id :| id in todo;
          data := data.(bks := data.bks[id := BkText(result.bks[id])]);
          todo := todo - {id};
        }
        assert data.bks == BkTexts(result.bks);
        r := fsm.Set(hash, RecordJson(data), commits);
    }

    method GetDKGResultData(hash: Text) returns (r: Result<DkgRecord>)
      ensures r == Record(fsm.db, hash)
    {
      var data := fsm.Get(hash);
      if data.Err? {
        return Err(data.error);
      }
      return ReadRecord(data.value);
    }

    method UpdateDKGResultData(hash: Text, share: nat, commits: bool) returns (r: Result<()>)
      modifies fsm
      ensures (fsm.db, r) == Updated(suite, fsm.secret, old(fsm.db), hash, share, commits)
    {
      var oldDkg := GetDKGResultData(hash);
      if oldDkg.Err? {
        return Err(oldDkg.error);
      }
      var encryptedShare := Encrypt(suite.cipher, HexEncode(ToBytes(share)), fsm.secret, oldDkg.value.publicKey);
      if encryptedShare.Err? {
        return Err(encryptedShare.error);
      }
      r := fsm.Set(hash, RecordJson(oldDkg.value.(share := encryptedShare.value)), commits);
    }

    method SaveSignerResultData(hash: Text, signature: RVSignature, commits: bool) returns (r: Result<()>)
      modifies fsm
      ensures (fsm.db, r) == Written(old(fsm.db), hash, SignatureJson(signature), commits)
    {
      r := fsm.Set(hash, SignatureJson(signature), commits);
    }

    method GetSignerConfig(hash: Text, pubkey: Text) returns (r: Result<SignerConfig>)
      ensures r == Config(suite, fsm.secret, fsm.db, hash, pubkey)
    {
      var resultDKG := GetDKGResultData(hash);
      if resultDKG.Err? {
        return Err(resultDKG.error);
      }
      var rec := resultDKG.value;
      var p := Point(FromBytes(FromHex(rec.pubkey.x)), FromBytes(FromHex(rec.pubkey.y)));
      if suite.strict && !OnCurve(p) {
        return Err(Panic);
      }
      if CompressedHex(p) != pubkey {
        return Err(PubkeyMismatch);
      }
      var share := Decrypt(suite.cipher, rec.share, fsm.secret, pubkey);
      match share
      case Err(e) =>
        return Err(e);
      case Ok(text) =>
        return Ok(SignerConfig(
          PrintInt(FromBytes(FromHex(text))),
          Pubkey(PrintInt(FromBytes(FromHex(rec.pubkey.x))), PrintInt(FromBytes(FromHex(rec.pubkey.y)))),
          rec.bks));
    }
  }

  /** ConvertDKGResult; the loop meets the Birkhoff parameters in any order and stops at the first bad one. */
  method ConvertDKGResult(cfg: SignerConfig) returns (r: Result<EngineKey>)
    ensures r == Converted(cfg)
  {
    var x := ParseInt(cfg.pubkey.x);
    if x == None {
      return Err(Conversion);
    }
    var y := ParseInt(cfg.pubkey.y);
    if y == None {
      return Err(Conversion);
    }
    if x.value < 0 || y.value < 0 || !OnCurve(Point(x.value, y.value)) {
      return Err(NotOnCurve);
    }
    var share := ParseInt(cfg.share);
    if share == None {
      return Err(Conversion);
    }
    var bks: map<Text, BkParameter> := map[];
    var todo := cfg.bks.Keys;
    while todo != {}
      invariant todo <= cfg.bks.Keys
      invariant bks.Keys == cfg.bks.Keys - todo
      invariant forall id :: id in bks ==>
                  ParseInt(cfg.bks[id].x) == Some(bks[id].x) && bks[id].rank == cfg.bks[id].rank
    {
      var id :| id in todo;
      var bx := ParseInt(cfg.bks[id].x);
      if bx == None {
        return Err(Conversion);
      }
      bks := bks[id := BkParameter(bx.value, cfg.bks[id].rank)];
      todo := todo - {id};
    }
    assert bks == ParsedBks(cfg.bks);
    return Ok(EngineKey(Point(x.value, y.value), share.value, bks));
  }

  // ----- reading back what was written -----

  lemma SealedOpens(suite: Suite, secret: Secret, share: nat, salt: Text)
    requires |salt| >= BLOCK
    ensures var e := Sealed(suite, secret, share, salt);
            && e.Ok?
            && Decrypted(suite.cipher, e.value, secret, salt) == Ok(HexEncode(ToBytes(share)))
  {
    EncryptedRoundTrip(suite.cipher, HexEncode(ToBytes(share)), secret, salt);
  }

  /** The record kept for a result is read back member by member. */
  lemma RecordReadBack(suite: Suite, secret: Secret, db: Db, hash: Text, r: DkgResult)
    requires hash in db && db[hash] == DkgJson(suite, secret, r)
    ensures Record(db, hash) == Ok(RecordOf(suite, secret, r))
  {
    RecordRoundTrip(RecordOf(suite, secret, r));
  }

  /** A stored result is served under the compressed form of its own key and under no other text. */
  lemma ConfigOfStored(suite: Suite, secret: Secret, db: Db, hash: Text, r: DkgResult, pubkey: Text)
    requires hash in db && db[hash] == DkgJson(suite, secret, r)
    ensures Config(suite, secret, db, hash, pubkey) ==
            if pubkey == CompressedHex(r.publicKey) then Ok(ConfigOf(r)) else Err(PubkeyMismatch)
  {
    RecordReadBack(suite, secret, db, hash, r);
    HexNumberRoundTrip(r.publicKey.x);
    HexNumberRoundTrip(r.publicKey.y);
    HexNumberRoundTrip(r.share);
    SealedOpens(suite, secret, r.share, CompressedHex(r.publicKey));
  }

  lemma BksConvert(bks: map<Text, BkParameter>)
    ensures forall id :: id in bks ==> ParseInt(BkTexts(bks)[id].x).Some?
    ensures ParsedBks(BkTexts(bks)) == bks
  {
    forall id | id in bks
      ensures ParseInt(BkTexts(bks)[id].x) == Some(bks[id].x)
    {
      IntRoundTrip(bks[id].x);
    }
    assert ParsedBks(BkTexts(bks)).Keys == bks.Keys;
  }

  /** Converting the configuration of a result restores it. */
  lemma ConfigConverts(r: DkgResult)
    ensures Converted(ConfigOf(r)) == Ok(KeyOf(r))
  {
    IntRoundTrip(r.publicKey.x);
    IntRoundTrip(r.publicKey.y);
    IntRoundTrip(r.share);
    BksConvert(r.bks);
  }

  /** A configuration converts exactly when its texts are numbers that name a point; the error says which is amiss. */
  lemma ConvertsIff(cfg: SignerConfig)
    ensures var x, y := ParseInt(cfg.pubkey.x), ParseInt(cfg.pubkey.y);
            var named := x.Some? && y.Some?;
            var point := named && x.value >= 0 && y.value >= 0 && OnCurve(Point(x.value, y.value));
            var numbers := IsIntText(cfg.share) && forall id :: id in cfg.bks ==> IsIntText(cfg.bks[id].x);
            && (Converted(cfg).Ok? <==> point && numbers)
            && (Converted(cfg) == Err(NotOnCurve) <==> named && !point)
            && (Converted(cfg) == Err(Conversion) <==> !named || (point && !numbers))
  {
    ParseIntIff(cfg.share);
    forall id | id in cfg.bks
      ensures ParseInt(cfg.bks[id].x).Some? <==> IsIntText(cfg.bks[id].x)
    {
      ParseIntIff(cfg.bks[id].x);
    }
  }

  /**
    The whole chain: a result that was saved is fetched with its own compressed key and converted
    into exactly the key, share and Birkhoff parameters that were saved.
   */
  lemma SaveThenLoad(suite: Suite, secret: Secret, db: Db, hash: Text, r: DkgResult)
    ensures var (after, saved) := Written(db, hash, DkgJson(suite, secret, r), true);
            var cfg := Config(suite, secret, after, hash, CompressedHex(r.publicKey));
            && saved.Ok?
            && cfg == Ok(ConfigOf(r))
            && Converted(cfg.value) == Ok(KeyOf(r))
  {
    ConfigOfStored(suite, secret, db[hash := DkgJson(suite, secret, r)], hash, r, CompressedHex(r.publicKey));
    ConfigConverts(r);
  }

  /** A caller's compressed key opens a record exactly when it names the stored point's x and the parity of its y. */
  lemma OnlyOwnKeyOpens(suite: Suite, secret: Secret, db: Db, hash: Text, r: DkgResult, q: CurvePoint)
    requires hash in db && db[hash] == DkgJson(suite, secret, r)
    ensures Config(suite, secret, db, hash, CompressedHex(q)).Ok? <==>
            q.x == r.publicKey.x && q.y % 2 == r.publicKey.y % 2
  {
    ConfigOfStored(suite, secret, db, hash, r, CompressedHex(q));
    CompressedHexIdentifies(q, r.publicKey);
  }

  /** Resharing a stored result leaves the record of the same result with the new share, and only that record. */
  lemma UpdateOfStored(suite: Suite, secret: Secret, db: Db, hash: Text, r: DkgResult, share: nat, commits: bool)
    requires hash in db && db[hash] == DkgJson(suite, secret, r)
    ensures Updated(suite, secret, db, hash, share, commits) ==
            Written(db, hash, DkgJson(suite, secret, r.(share := share)), commits)
  {
    RecordReadBack(suite, secret, db, hash, r);
    SealedOpens(suite, secret, share, CompressedHex(r.publicKey));
  }

  /** Only texts of 66 bytes are ever served, so a request without a key goes no further. */
  lemma ServedKeyLength(suite: Suite, secret: Secret, db: Db, hash: Text, pubkey: Text)
    requires Config(suite, secret, db, hash, pubkey).Ok?
    ensures |pubkey| == 66
  {
  }

  /**
    Whoever is served has asked with the SEC 1 text of the very key that is served in decimal: the first byte says
    the parity of its y, the rest is its x.
   */
  lemma ServedKeyNames(suite: Suite, secret: Secret, db: Db, hash: Text, pubkey: Text)
    ensures var cfg := Config(suite, secret, db, hash, pubkey);
            cfg.Ok? ==>
              var x, y := ParseInt(cfg.value.pubkey.x), ParseInt(cfg.value.pubkey.y);
              && x.Some? && x.value >= 0 && y.Some? && y.value >= 0
              && IsCompressed(pubkey, x.value, y.value)
              && (suite.strict ==> OnCurve(Point(x.value, y.value)))
  {
    if Config(suite, secret, db, hash, pubkey).Ok? {
      var rec := Record(db, hash).value;
      var p := Point(FromBytes(FromHex(rec.pubkey.x)), FromBytes(FromHex(rec.pubkey.y)));
      CompressedMeans(p);
      IntRoundTrip(p.x);
      IntRoundTrip(p.y);
    }
  }

  /** What is in the store after a save, member by member and in terms of the result alone. */
  ghost predicate Describes(suite: Suite, secret: Secret, rec: DkgRecord, r: DkgResult)
  {
    && FromBytes(FromHex(rec.pubkey.x)) == r.publicKey.x
    && FromBytes(FromHex(rec.pubkey.y)) == r.publicKey.y
    && IsCompressed(rec.publicKey, r.publicKey.x, r.publicKey.y)
    && rec.address == suite.address(r.publicKey)
    && rec.bks.Keys == r.bks.Keys
    && (forall id :: id in r.bks ==> ParseInt(rec.bks[id].x) == Some(r.bks[id].x) && rec.bks[id].rank == r.bks[id].rank)
    && SealsShare(suite, secret, rec.share, rec.publicKey, r.share)
  }

  /** The sealed share is base64 of the CFB ciphertext of its hexadecimal digits, under the host key and the salt. */
  ghost predicate SealsShare(suite: Suite, secret: Secret, sealed: Text, salt: Text, share: nat)
  {
    && |salt| >= BLOCK && Base64.Decode(sealed).Some?
    && exists digits: Text ::
         && FromBytes(HexDecode(digits)) == share
         && IsCfb(b => suite.cipher(secret, b), salt[..BLOCK], digits, Base64.Decode(sealed).value)
  }

  lemma SealedShare(suite: Suite, secret: Secret, share: nat, salt: Text)
    requires |salt| >= BLOCK
    ensures Sealed(suite, secret, share, salt).Ok?
    ensures SealsShare(suite, secret, Sealed(suite, secret, share, salt).value, salt, share)
  {
    var digits := HexEncode(ToBytes(share));
    EncryptedIsCfb(suite.cipher, digits, secret, salt);
    HexDecodeEncode(ToBytes(share));
    FromToBytes(share);
  }

  lemma BksRead(bks: map<Text, BkParameter>)
    ensures BkTexts(bks).Keys == bks.Keys
    ensures forall id :: id in bks ==>
              ParseInt(BkTexts(bks)[id].x) == Some(bks[id].x) && BkTexts(bks)[id].rank == bks[id].rank
  {
    BksConvert(bks);
  }

  lemma RecordDescribes(suite: Suite, secret: Secret, r: DkgResult)
    ensures Describes(suite, secret, RecordOf(suite, secret, r), r)
  {
    HexNumberRoundTrip(r.publicKey.x);
    HexNumberRoundTrip(r.publicKey.y);
    CompressedMeans(r.publicKey);
    BksRead(r.bks);
    SealedShare(suite, secret, r.share, CompressedHex(r.publicKey));
  }

  /** A record read after a save describes what was saved. */
  lemma SavedRecord(suite: Suite, secret: Secret, db: Db, hash: Text, r: DkgResult)
    ensures var (after, saved) := Written(db, hash, DkgJson(suite, secret, r), true);
            var rec := Record(after, hash);
            saved.Ok? && rec.Ok? && Describes(suite, secret, rec.value, r)
  {
    RecordReadBack(suite, secret, db[hash := DkgJson(suite, secret, r)], hash, r);
    RecordDescribes(suite, secret, r);
  }

  /** What a signature's record is served as: nothing where compression refuses it, else a key of zeros. */
  function SignatureConfig(strict: bool, pubkey: Text): Result<SignerConfig>
  {
    if strict then Err(Panic)
    else if pubkey != CompressedHex(Point(0, 0)) then Err(PubkeyMismatch)
    else Ok(SignerConfig(PrintInt(0), Pubkey(PrintInt(0), PrintInt(0)), map[]))
  }

  lemma ConfigOfSignature(suite: Suite, secret: Secret, db: Db, hash: Text, s: RVSignature, pubkey: Text)
    requires hash in db && db[hash] == SignatureJson(s)
    ensures Config(suite, secret, db, hash, pubkey) == SignatureConfig(suite.strict, pubkey)
  {
    SignatureReadAsRecord(s);
    OriginOffCurve();
    assert FromHex([]) == [] && FromBytes([]) == 0;
  }

  /** Resharing under a signature's key panics on the missing salt; under an absent key it reports the miss. */
  lemma UpdateOfOthers(suite: Suite, secret: Secret, db: Db, hash: Text, s: RVSignature, share: nat, commits: bool)
    ensures hash !in db ==> Updated(suite, secret, db, hash, share, commits) == (db, Err(KeyNotFound))
    ensures hash in db && db[hash] == SignatureJson(s) ==>
              Updated(suite, secret, db, hash, share, commits) == (db, Err(Panic))
  {
    SignatureReadAsRecord(s);
  }
}
