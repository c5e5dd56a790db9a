/** The values the store exchanges with its callers, and the JSON records it keeps for them. */
module Records {
  import opened Basics
  import opened Numbers
  import opened Json
  import opened Curve
  import Float64

  /** A Birkhoff parameter: x coordinate and rank. */
  datatype BkParameter = BkParameter(x: int, rank: uint32)

  /** What key generation and, with a new share, resharing produce; the engine's keys are points of the curve. */
  datatype DkgResult = DkgResult(publicKey: CurvePoint, share: nat, bks: map<Text, BkParameter>)

  datatype Pubkey = Pubkey(x: Text, y: Text)

  datatype BK = BK(x: Text, rank: uint32)

  datatype SignerConfig = SignerConfig(share: Text, pubkey: Pubkey, bks: map<Text, BK>)

  type Address = a: seq<byte> | |a| == 20 witness [0, 0, 0, 0, 0, 0, 0, 0, 0, 0, 0, 0, 0, 0, 0, 0, 0, 0, 0, 0]

  const ZERO_ADDRESS: Address := [0, 0, 0, 0, 0, 0, 0, 0, 0, 0, 0, 0, 0, 0, 0, 0, 0, 0, 0, 0]

  /** The stored key record; `share` holds the ciphertext. */
  datatype DkgRecord = DkgRecord(share: Text, pubkey: Pubkey, publicKey: Text, address: Address, bks: map<Text, BK>)

  datatype RVSignature = RVSignature(r: Text, s: Text, hash: Text)

  // ----- marshalling -----

  function BkJson(bk: BK): Json
  {
    JObj(map[Ascii("X") := JStr(bk.x), Ascii("Rank") := JNum(bk.rank)])
  }

  function BksJson(bks: map<Text, BK>): Json
  {
    JObj(map k | k in bks :: BkJson(bks[k]))
  }

  function PubkeyJson(p: Pubkey): Json
  {
    JObj(map[Ascii("X") := JStr(p.x), Ascii("Y") := JStr(p.y)])
  }

  function RecordJson(r: DkgRecord): Json
  {
    JObj(map[
      Ascii("share") := JStr(r.share),
      Ascii("pubkey") := PubkeyJson(r.pubkey),
      Ascii("publicKey") := JStr(r.publicKey),
      Ascii("address") := JStr(ToHexText(r.address)),
      Ascii("bks") := BksJson(r.bks)])
  }

  function SignatureJson(s: RVSignature): Json
  {
    JObj(map[Ascii("r") := JStr(s.r), Ascii("s") := JStr(s.s), Ascii("hash") := JStr(s.hash)])
  }

  // ----- unmarshalling: an absent or null member keeps the zero value, a wrong kind is an error -----

  function Member(fields: map<Text, Json>, key: Text): Json
  {
    if key in fields then fields[key] else JNull
  }

  function ReadText(j: Json): Result<Text>
  {
    match j
    case JNull => Ok([])
    case JStr(s) => Ok(s)
    case _ => Err(BadRecord)
  }

  function ReadRank(j: Json): Result<uint32>
  {
    match j
    case JNull => Ok(0)
    case JNum(n) => if 0 <= n < 0x1_0000_0000 then Ok(n) else Err(BadRecord)
    case _ => Err(BadRecord)
  }

  function ReadBk(j: Json): Result<BK>
  {
    if j.JNull? then Ok(BK([], 0))
    else if !j.JObj? then Err(BadRecord)
    else
      var x, rank := ReadText(Member(j.fields, Ascii("X"))), ReadRank(Member(j.fields, Ascii("Rank")));
      if x.Ok? && rank.Ok? then Ok(BK(x.value, rank.value)) else Err(BadRecord)
  }

  function ReadBks(j: Json): Result<map<Text, BK>>
  {
    if j.JNull? then Ok(map[])
    else if !j.JObj? then Err(BadRecord)
    else if forall k :: k in j.fields ==> ReadBk(j.fields[k]).Ok? then
      Ok(map k | k in j.fields :: ReadBk(j.fields[k]).value)
    else Err(BadRecord)
  }

  function ReadPubkey(j: Json): Result<Pubkey>
  {
    if j.JNull? then Ok(Pubkey([], []))
    else if !j.JObj? then Err(BadRecord)
    else
      var x, y := ReadText(Member(j.fields, Ascii("X"))), ReadText(Member(j.fields, Ascii("Y")));
      if x.Ok? && y.Ok? then Ok(Pubkey(x.value, y.value)) else Err(BadRecord)
  }

  /** An address is 0x and exactly forty hexadecimal digits; unlike the other members it refuses null. */
  function ReadAddress(j: Json): Result<Address>
  {
    match j
    case JStr(s) =>
      if |s| == 42 && Has0xPrefix(s) && |HexDecode(s[2..])| == 20 then Ok(HexDecode(s[2..])) else Err(BadRecord)
    case _ => Err(BadRecord)
  }

  function ReadAddressMember(fields: map<Text, Json>): Result<Address>
  {
    if Ascii("address") in fields then ReadAddress(fields[Ascii("address")]) else Ok(ZERO_ADDRESS)
  }

  function ReadRecord(j: Json): Result<DkgRecord>
  {
    if j.JNull? then Ok(DkgRecord([], Pubkey([], []), [], ZERO_ADDRESS, map[]))
    else if !j.JObj? then Err(BadRecord)
    else
      var share := ReadText(Member(j.fields, Ascii("share")));
      var publicKey := ReadText(Member(j.fields, Ascii("publicKey")));
      var pubkey := ReadPubkey(Member(j.fields, Ascii("pubkey")));
      var address := ReadAddressMember(j.fields);
      var bks := ReadBks(Member(j.fields, Ascii("bks")));
      if share.Ok? && pubkey.Ok? && publicKey.Ok? && address.Ok? && bks.Ok? then
        Ok(DkgRecord(share.value, pubkey.value, publicKey.value, address.value, bks.value))
      else Err(BadRecord)
  }

  // ----- a record read back through interface{} is the record written -----

  /** Looking a member up commutes with reading the object back. */
  lemma GenericMember(fields: map<Text, Json>, key: Text)
    ensures Generic(JObj(fields)).JObj?
    ensures Member(Generic(JObj(fields)).fields, key) == Generic(Member(fields, key))
  {
  }

  lemma BkRoundTrip(bk: BK)
    ensures ReadBk(Generic(BkJson(bk))) == Ok(bk)
  {
    Float64.Exact(bk.rank);
  }

  lemma ReadBksMemberwise(f: map<Text, Json>, bks: map<Text, BK>)
    requires f.Keys == bks.Keys
    requires forall k :: k in f ==> ReadBk(f[k]) == Ok(bks[k])
    ensures ReadBks(JObj(f)) == Ok(bks)
  {
    var m := map k | k in f :: ReadBk(f[k]).value;
    assert m.Keys == bks.Keys;
    assert m == bks;
  }

  lemma BksRoundTrip(bks: map<Text, BK>)
    ensures ReadBks(Generic(BksJson(bks))) == Ok(bks)
  {
    var b := BksJson(bks).fields;
    var f := Generic(JObj(b)).fields;
    forall k | k in f
      ensures ReadBk(f[k]) == Ok(bks[k])
    {
      BkRoundTrip(bks[k]);
      GenericMember(b, k);
    }
    assert f.Keys == bks.Keys;
    ReadBksMemberwise(f, bks);
  }

  lemma AddressRoundTrip(a: Address)
    ensures ReadAddress(Generic(JStr(ToHexText(a)))) == Ok(a)
  {
    HexEncodeShape(a);
    HexDecodeEncode(a);
    assert ToHexText(a)[2..] == HexEncode(a);
  }

  lemma PubkeyRoundTrip(p: Pubkey)
    ensures ReadPubkey(Generic(PubkeyJson(p))) == Ok(p)
  {
    assert Ascii("X")[0] != Ascii("Y")[0];
  }

  lemma RecordMembers(r: DkgRecord)
    ensures var f := RecordJson(r).fields;
            && Member(f, Ascii("share")) == JStr(r.share)
            && Member(f, Ascii("pubkey")) == PubkeyJson(r.pubkey)
            && Member(f, Ascii("publicKey")) == JStr(r.publicKey)
            && Member(f, Ascii("address")) == JStr(ToHexText(r.address))
            && Member(f, Ascii("bks")) == BksJson(r.bks)
  {
  }

  /** Every member reads as that of the record. */
  predicate MembersRead(j: Json, r: DkgRecord)
  {
    && j.JObj?
    && ReadText(Member(j.fields, Ascii("share"))) == Ok(r.share)
    && ReadPubkey(Member(j.fields, Ascii("pubkey"))) == Ok(r.pubkey)
    && ReadText(Member(j.fields, Ascii("publicKey"))) == Ok(r.publicKey)
    && ReadAddressMember(j.fields) == Ok(r.address)
    && ReadBks(Member(j.fields, Ascii("bks"))) == Ok(r.bks)
  }

  lemma ReadMemberwise(j: Json, r: DkgRecord)
    requires MembersRead(j, r)
    ensures ReadRecord(j) == Ok(r)
  {
  }

  /** The members of a record, read back through interface{}. */
  lemma TextMembers(r: DkgRecord, j: Json)
    requires j == Generic(RecordJson(r))
    ensures j.JObj?
    ensures ReadText(Member(j.fields, Ascii("share"))) == Ok(r.share)
    ensures ReadText(Member(j.fields, Ascii("publicKey"))) == Ok(r.publicKey)
  {
    RecordMembers(r);
    GenericMember(RecordJson(r).fields, Ascii("share"));
    GenericMember(RecordJson(r).fields, Ascii("publicKey"));
  }

  lemma ObjectMembers(r: DkgRecord, j: Json)
    requires j == Generic(RecordJson(r)) && j.JObj?
    ensures ReadPubkey(Member(j.fields, Ascii("pubkey"))) == Ok(r.pubkey)
    ensures ReadBks(Member(j.fields, Ascii("bks"))) == Ok(r.bks)
  {
    RecordMembers(r);
    GenericMember(RecordJson(r).fields, Ascii("pubkey"));
    GenericMember(RecordJson(r).fields, Ascii("bks"));
    PubkeyRoundTrip(r.pubkey);
    BksRoundTrip(r.bks);
  }

  lemma AddressMember(r: DkgRecord, j: Json)
    requires j == Generic(RecordJson(r)) && j.JObj?
    ensures ReadAddressMember(j.fields) == Ok(r.address)
  {
    var f := RecordJson(r).fields;
    AddressRoundTrip(r.address);
    assert Ascii("address") in f && f[Ascii("address")] == JStr(ToHexText(r.address));
  }

  lemma RecordMembersRead(r: DkgRecord, j: Json)
    requires j == Generic(RecordJson(r))
    ensures MembersRead(j, r)
  {
    TextMembers(r, j);
    ObjectMembers(r, j);
    AddressMember(r, j);
  }

  lemma RecordRoundTrip(r: DkgRecord)
    ensures ReadRecord(Generic(RecordJson(r))) == Ok(r)
  {
    RecordMembersRead(r, Generic(RecordJson(r)));
    ReadMemberwise(Generic(RecordJson(r)), r);
  }

  /** A signature record read as a key record has no share, no key and no address: r and s are lost. */
  lemma SignatureReadAsRecord(s: RVSignature)
    ensures ReadRecord(Generic(SignatureJson(s))) == ReadRecord(JNull)
  {
  }

  /** A signature record has these members. */
  lemma SignatureMembers(s: RVSignature)
    ensures var f := SignatureJson(s).fields;
            && f.Keys == {Ascii("r"), Ascii("s"), Ascii("hash")}
            && Member(f, Ascii("r")) == JStr(s.r)
            && Member(f, Ascii("s")) == JStr(s.s)
            && Member(f, Ascii("hash")) == JStr(s.hash)
  {
    assert Ascii("r")[0] != Ascii("s")[0];
  }

  // ----- which values read as a record -----

  predicate IsTextOrNull(j: Json)
  {
    j.JNull? || j.JStr?
  }

  predicate IsBkShape(j: Json)
  {
    || j.JNull?
    || (j.JObj?
        && IsTextOrNull(Member(j.fields, Ascii("X")))
        && var rank := Member(j.fields, Ascii("Rank"));
        rank.JNull? || (rank.JNum? && 0 <= rank.num < 0x1_0000_0000))
  }

  predicate IsPubkeyShape(j: Json)
  {
    || j.JNull?
    || (j.JObj? && IsTextOrNull(Member(j.fields, Ascii("X"))) && IsTextOrNull(Member(j.fields, Ascii("Y"))))
  }

  /** 0x or 0X and forty hexadecimal digits of either case. */
  predicate IsAddressText(s: Text)
  {
    && |s| == 42 && s[0] == '0' as int && (s[1] == 'x' as int || s[1] == 'X' as int)
    && forall c :: c in s[2..] ==> IsHexDigit(c)
  }

  predicate IsRecordShape(j: Json)
  {
    || j.JNull?
    || (j.JObj?
        && IsTextOrNull(Member(j.fields, Ascii("share")))
        && IsTextOrNull(Member(j.fields, Ascii("publicKey")))
        && IsPubkeyShape(Member(j.fields, Ascii("pubkey")))
        && (Ascii("address") in j.fields ==>
              j.fields[Ascii("address")].JStr? && IsAddressText(j.fields[Ascii("address")].str))
        && var bks := Member(j.fields, Ascii("bks"));
        bks.JNull? || (bks.JObj? && forall k :: k in bks.fields ==> IsBkShape(bks.fields[k])))
  }

  lemma AddressReads(j: Json)
    ensures ReadAddress(j).Ok? <==> j.JStr? && IsAddressText(j.str)
  {
    if j.JStr? && |j.str| == 42 {
      HexDecodeAll(j.str[2..]);
    }
  }

  lemma PartsRead(j: Json)
    ensures ReadText(j).Ok? <==> IsTextOrNull(j)
    ensures ReadBk(j).Ok? <==> IsBkShape(j)
    ensures ReadPubkey(j).Ok? <==> IsPubkeyShape(j)
  {
  }

  lemma BksReads(j: Json)
    ensures ReadBks(j).Ok? <==>
            j.JNull? || (j.JObj? && forall k :: k in j.fields ==> IsBkShape(j.fields[k]))
  {
    if j.JObj? {
      forall k | k in j.fields
        ensures ReadBk(j.fields[k]).Ok? <==> IsBkShape(j.fields[k])
      {
        PartsRead(j.fields[k]);
      }
    }
  }

  /** Exactly the values of this shape read as a key record; whatever else is stored is a bad record. */
  lemma ReadsIff(j: Json)
    ensures ReadRecord(j).Ok? <==> IsRecordShape(j)
    ensures ReadRecord(j).Err? ==> ReadRecord(j) == Err(BadRecord)
  {
    if j.JObj? {
      PartsRead(Member(j.fields, Ascii("share")));
      PartsRead(Member(j.fields, Ascii("publicKey")));
      PartsRead(Member(j.fields, Ascii("pubkey")));
      BksReads(Member(j.fields, Ascii("bks")));
      if Ascii("address") in j.fields {
        AddressReads(j.fields[Ascii("address")]);
      }
    }
  }

  function ReadSignature(j: Json): Result<RVSignature>
  {
    if j.JNull? then Ok(RVSignature([], [], []))
    else if !j.JObj? then Err(BadRecord)
    else
      var r, s := ReadText(Member(j.fields, Ascii("r"))), ReadText(Member(j.fields, Ascii("s")));
      var hash := ReadText(Member(j.fields, Ascii("hash")));
      if r.Ok? && s.Ok? && hash.Ok? then Ok(RVSignature(r.value, s.value, hash.value)) else Err(BadRecord)
  }

  /** A stored signature is intact when it is read as one. */
  lemma SignatureRoundTrip(s: RVSignature)
    ensures ReadSignature(Generic(SignatureJson(s))) == Ok(s)
  {
    var f := SignatureJson(s).fields;
    assert Ascii("r")[0] != Ascii("s")[0];
    GenericMember(f, Ascii("r"));
    GenericMember(f, Ascii("s"));
    GenericMember(f, Ascii("hash"));
  }

  lemma RecordHasNoSignature(r: DkgRecord, key: Text)
    requires |key| == 1 || |key| == 4
    ensures Member(RecordJson(r).fields, key) == JNull
  {
  }

  /** A key record read as a signature is the empty one. */
  lemma RecordAsSignature(r: DkgRecord)
    ensures ReadSignature(RecordJson(r)) == Ok(RVSignature([], [], []))
  {
    RecordHasNoSignature(r, Ascii("r"));
    RecordHasNoSignature(r, Ascii("s"));
    RecordHasNoSignature(r, Ascii("hash"));
    var f := RecordJson(r).fields;
    assert Member(f, Ascii("r")) == Member(f, Ascii("s")) == Member(f, Ascii("hash")) == JNull;
  }

  /** CheckSignature reads it as a key record first: whatever was stored, an empty signature reaches the check. */
  lemma SignatureLost(s: RVSignature)
    ensures ReadRecord(Generic(SignatureJson(s))).Ok?
    ensures ReadSignature(RecordJson(ReadRecord(Generic(SignatureJson(s))).value)) == Ok(RVSignature([], [], []))
  {
    SignatureReadAsRecord(s);
    RecordAsSignature(ReadRecord(Generic(SignatureJson(s))).value);
  }

  // ----- the two conversions between results and configurations -----

  function BkText(p: BkParameter): BK
  {
    BK(PrintInt(p.x), p.rank)
  }

  function BkTexts(bks: map<Text, BkParameter>): map<Text, BK>
  {
    map k | k in bks :: BkText(bks[k])
  }

  /** The configuration a signer needs for a result: every number in decimal. */
  function ConfigOf(r: DkgResult): SignerConfig
  {
    SignerConfig(PrintInt(r.share), Pubkey(PrintInt(r.publicKey.x), PrintInt(r.publicKey.y)), BkTexts(r.bks))
  }

  /** A configuration text is accepted when it is a decimal number. */
  predicate Parses(cfg: SignerConfig)
  {
    && ParseInt(cfg.pubkey.x).Some?
    && ParseInt(cfg.pubkey.y).Some?
    && ParseInt(cfg.share).Some?
    && forall k :: k in cfg.bks ==> ParseInt(cfg.bks[k].x).Some?
  }

  /** What ConvertDKGResult hands to the engine; the share may be negative when the text says so. */
  datatype EngineKey = EngineKey(publicKey: CurvePoint, share: int, bks: map<Text, BkParameter>)

  function KeyOf(r: DkgResult): EngineKey
  {
    EngineKey(r.publicKey, r.share, r.bks)
  }
}
