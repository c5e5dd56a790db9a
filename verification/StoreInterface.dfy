/** The store behind its interface: the operations its callers use, and what a session needs beside them. */
module StoreInterface {
  import opened Basics
  import opened Numbers
  import opened Curve
  import opened Records
  import opened Fsm
  import opened BadgerStore

  /** One store operation; `commits` says whether the database accepts its transaction. */
  datatype StoreOp =
    | SaveOp(hash: Text, result: DkgResult, commits: bool)
    | UpdateOp(hash: Text, share: nat, commits: bool)
    | SignatureOp(hash: Text, signature: RVSignature, commits: bool)

  /** The operation on the encrypted store: the new database, and success or the error. */
  function Applied(suite: Suite, secret: Secret, db: Db, op: StoreOp): (Db, Result<()>)
  {
    match op
    case SaveOp(hash, result, commits) => Written(db, hash, DkgJson(suite, secret, result), commits)
    case UpdateOp(hash, share, commits) => Updated(suite, secret, db, hash, share, commits)
    case SignatureOp(hash, signature, commits) => Written(db, hash, SignatureJson(signature), commits)
  }

  function Apply(suite: Suite, secret: Secret, db: Db, op: StoreOp): Db
  {
    Applied(suite, secret, db, op).0
  }

  /**
    What a session reaches outside itself: the store and the conversion of a configuration.  Sessions know the store
    through this interface only.
   */
  datatype Calls = Calls(
    config: (Db, Text, Text) -> Result<SignerConfig>,
    apply: (Db, StoreOp) -> (Db, Result<()>),
    convert: SignerConfig -> Result<EngineKey>)

  /** The calls of a host whose store is the encrypted one. */
  function Badger(suite: Suite, secret: Secret): Calls
  {
    Calls((db, hash, pubkey) => Config(suite, secret, db, hash, pubkey),
          (db, op) => Applied(suite, secret, db, op),
          cfg => Converted(cfg))
  }

  /**
    An operation that fails changes nothing, and one whose transaction is refused fails; a save or a signature fails in
    no other case.
   */
  ghost predicate Atomic(calls: Calls)
  {
    forall db: Db, op: StoreOp ::
      && (calls.apply(db, op).1.Err? ==> calls.apply(db, op).0 == db)
      && (!op.commits ==> calls.apply(db, op).1.Err?)
      && (!op.UpdateOp? && op.commits ==> calls.apply(db, op).1.Ok?)
  }

  lemma BadgerIsAtomic(suite: Suite, secret: Secret)
    ensures Atomic(Badger(suite, secret))
  {
    forall db: Db, op: StoreOp
      ensures Applied(suite, secret, db, op).1.Err? ==> Applied(suite, secret, db, op).0 == db
      ensures !op.commits ==> Applied(suite, secret, db, op).1.Err?
      ensures !op.UpdateOp? && op.commits ==> Applied(suite, secret, db, op).1.Ok?
    {
      AppliedIsAtomic(suite, secret, db, op);
    }
  }

  lemma UpdatedIsAtomic(suite: Suite, secret: Secret, db: Db, hash: Text, share: nat, commits: bool)
    ensures Updated(suite, secret, db, hash, share, commits).1.Err? ==>
              Updated(suite, secret, db, hash, share, commits).0 == db
    ensures !commits ==> Updated(suite, secret, db, hash, share, commits).1.Err?
  {
  }

  lemma AppliedIsAtomic(suite: Suite, secret: Secret, db: Db, op: StoreOp)
    ensures Applied(suite, secret, db, op).1.Err? ==> Applied(suite, secret, db, op).0 == db
    ensures !op.commits ==> Applied(suite, secret, db, op).1.Err?
    ensures !op.UpdateOp? && op.commits ==> Applied(suite, secret, db, op).1.Ok?
  {
    match op
    case SaveOp(_, _, _) =>
    case UpdateOp(hash, share, commits) => UpdatedIsAtomic(suite, secret, db, hash, share, commits);
    case SignatureOp(_, _, _) =>
  }

  /** What a signing or resharing session is built with: the configuration served and converted. */
  function Load(calls: Calls, db: Db, hash: Text, pubkey: Text): Result<EngineKey>
  {
    match calls.config(db, hash, pubkey)
    case Err(e) => Err(e)
    case Ok(cfg) => calls.convert(cfg)
  }

  /** A run of operations. */
  function Replay(calls: Calls, db: Db, ops: seq<StoreOp>): Db
  {
    if ops == [] then db else calls.apply(Replay(calls, db, ops[..|ops| - 1]), ops[|ops| - 1]).0
  }

  /** A session built on a stored result works with exactly that result, and only under its own compressed key. */
  lemma LoadOfStored(suite: Suite, secret: Secret, db: Db, hash: Text, r: DkgResult, pubkey: Text)
    requires hash in db && db[hash] == DkgJson(suite, secret, r)
    ensures Load(Badger(suite, secret), db, hash, pubkey) ==
            if pubkey == CompressedHex(r.publicKey) then Ok(KeyOf(r)) else Err(PubkeyMismatch)
  {
    ConfigOfStored(suite, secret, db, hash, r, pubkey);
    ConfigConverts(r);
  }

  /** No session can be built on a signature's record: whatever it is served as does not convert. */
  lemma SignatureBuildsNothing(suite: Suite, secret: Secret, db: Db, hash: Text, s: RVSignature, pubkey: Text)
    requires hash in db && db[hash] == SignatureJson(s)
    ensures Load(Badger(suite, secret), db, hash, pubkey) ==
            Err(if suite.strict then Panic
                else if pubkey == CompressedHex(Point(0, 0)) then NotOnCurve
                else PubkeyMismatch)
  {
    ConfigOfSignature(suite, secret, db, hash, s, pubkey);
    ZeroKeyRefused();
  }

  /** The key of zeros that a signature's record may be served as is not a key. */
  lemma ZeroKeyRefused()
    ensures Converted(SignerConfig(PrintInt(0), Pubkey(PrintInt(0), PrintInt(0)), map[])) == Err(NotOnCurve)
  {
    IntRoundTrip(0);
    OriginOffCurve();
  }
}
