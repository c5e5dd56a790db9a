/** The key-value layer: JSON values in a transactional database. */
module Fsm {
  import opened Basics
  import opened Json

  type Db = map<Text, Json>

  /** crypto.FromECDSA gives 32 bytes. */
  type Secret = s: seq<byte> | |s| == 32
    witness [0, 0, 0, 0, 0, 0, 0, 0, 0, 0, 0, 0, 0, 0, 0, 0, 0, 0, 0, 0, 0, 0, 0, 0, 0, 0, 0, 0, 0, 0, 0, 0]

  /** Reading goes through interface{}. */
  function Read(db: Db, key: Text): Result<Json>
  {
    if key in db then Ok(Generic(db[key])) else Err(KeyNotFound)
  }

  /** `commits` says whether the database accepts the transaction. */
  function Written(db: Db, key: Text, value: Json, commits: bool): (Db, Result<()>)
  {
    if commits then (db[key := value], Ok(())) else (db, Err(CommitFailed))
  }

  /** Appending to what a key holds: an absent key or null starts a list, anything but a list panics. */
  function Appended(db: Db, key: Text, value: Json, commits: bool): (Db, Result<()>)
  {
    match Read(db, key)
    case Ok(JArr(items)) => Written(db, key, JArr(items + [value]), commits)
    case Ok(JNull) => Written(db, key, JArr([value]), commits)
    case Err(_) => Written(db, key, JArr([value]), commits)
    case _ => (db, Err(Panic))
  }

  /** An append reports success exactly when it is made; a value that is no list panics whatever the database says. */
  lemma AppendedReports(db: Db, key: Text, value: Json, commits: bool)
    ensures var r := Appended(db, key, value, commits).1;
            var fits := key !in db || db[key].JNull? || db[key].JArr?;
            && (r == Ok(()) <==> fits && commits)
            && (r == Err(CommitFailed) <==> fits && !commits)
            && (r == Err(Panic) <==> !fits)
            && (r.Err? ==> Appended(db, key, value, commits).0 == db)
  {
  }

  class FSM {
    var db: Db
    const secret: Secret

    constructor (secret: Secret)
      ensures db == map[] && this.secret == secret
    {
      db := map[];
      this.secret := secret;
    }

    method Get(key: Text) returns (r: Result<Json>)
      ensures r == Read(db, key)
      ensures r.Ok? <==> key in db
    {
      if key !in db {
        return Err(KeyNotFound);
      }
      return Ok(Generic(db[key]));
    }

    method Set(key: Text, value: Json, commits: bool) returns (r: Result<()>)
      modifies this
      ensures (db, r) == Written(old(db), key, value, commits)
    {
      if !commits {
        return Err(CommitFailed);
      }
      db := db[key := value];
      return Ok(());
    }

    method SetArr(key: Text, value: Json, commits: bool) returns (r: Result<()>)
      modifies this
      ensures (db, r) == Appended(old(db), key, value, commits)
    {
      var data := [value];
      var exist := Get(key);
      if exist.Ok? && exist.value != JNull {
        if !exist.value.JArr? {
          return Err(Panic);
        }
        data := exist.value.items + data;
      }
      r := Set(key, JArr(data), commits);
    }

    method Delete(key: Text, commits: bool) returns (r: Result<()>)
      modifies this
      ensures db == if commits then old(db) - {key} else old(db)
      ensures r == if commits then Ok(()) else Err(CommitFailed)
    {
      if !commits {
        return Err(CommitFailed);
      }
      db := db - {key};
      return Ok(());
    }
  }

  // ----- histories -----

  datatype Op =
    | SetOp(key: Text, value: Json, commits: bool)
    | AppendOp(key: Text, value: Json, commits: bool)
    | DeleteOp(key: Text, commits: bool)

  function Step(db: Db, op: Op): Db
  {
    match op
    case SetOp(key, value, commits) => Written(db, key, value, commits).0
    case AppendOp(key, value, commits) => Appended(db, key, value, commits).0
    case DeleteOp(key, commits) => if commits then db - {key} else db
  }

  function Run(db: Db, ops: seq<Op>): Db
  {
    if ops == [] then db else Step(Run(db, ops[..|ops| - 1]), ops[|ops| - 1])
  }

  /** What a reader of one key should see, told by the operations on that key alone. */
  function Visible(ops: seq<Op>, key: Text): Option<Json>
  {
    if ops == [] then None
    else
      var before, op := Visible(ops[..|ops| - 1], key), ops[|ops| - 1];
      if op.key != key || !op.commits then before
      else
        match op
        case SetOp(_, value, _) => Some(Generic(value))
        case DeleteOp(_, _) => None
        case AppendOp(_, value, _) =>
          if before == None || before == Some(JNull) then Some(JArr([Generic(value)]))
          else if before.value.JArr? then Some(JArr(before.value.items + [Generic(value)]))
          else before
  }

  lemma GenericItems(items: seq<Json>, value: Json)
    ensures Generic(JArr(items + [value])) == JArr(Generic(JArr(items)).items + [Generic(value)])
  {
    assert Generic(JArr(items + [value])).items == Generic(JArr(items)).items + [Generic(value)];
  }

  lemma AppendVisible(db: Db, key: Text, value: Json)
    ensures var after := Appended(db, key, value, true).0;
            key in after
            && Generic(after[key]) ==
               if key !in db || Generic(db[key]) == JNull then JArr([Generic(value)])
               else if Generic(db[key]).JArr? then JArr(Generic(db[key]).items + [Generic(value)])
               else Generic(db[key])
  {
    GenericItems([], value);
    assert [] + [value] == [value] && Generic(JArr([])).items + [Generic(value)] == [Generic(value)];
    if key in db && Generic(db[key]).JArr? {
      GenericItems(Generic(db[key]).items, value);
      GenericIdempotent(db[key]);
    }
  }

  /** Over every history of set, append and delete, with any commits failing, Get shows exactly `Visible`. */
  lemma {:induction false} GetIsVisible(ops: seq<Op>, key: Text)
    ensures Read(Run(map[], ops), key) ==
            match Visible(ops, key) case None => Err(KeyNotFound) case Some(j) => Ok(j)
  {
    if ops != [] {
      var before := Run(map[], ops[..|ops| - 1]);
      GetIsVisible(ops[..|ops| - 1], key);
      var op := ops[|ops| - 1];
      if op.AppendOp? && op.key == key && op.commits {
        AppendVisible(before, key, op.value);
      }
    }
  }

  function Appends(key: Text, values: seq<Json>): (ops: seq<Op>)
    ensures |ops| == |values|
  {
    seq(|values|, i requires 0 <= i < |values| => AppendOp(key, values[i], true))
  }

  /** What one more append shows after a key is absent or holds the list `items`. */
  lemma VisibleAppend(ops: seq<Op>, key: Text, items: seq<Json>, value: Json)
    requires Visible(ops, key) == if items == [] then None else Some(Generic(JArr(items)))
    ensures Visible(ops + [AppendOp(key, value, true)], key) == Some(Generic(JArr(items + [value])))
  {
    var all := ops + [AppendOp(key, value, true)];
    assert all[..|all| - 1] == ops;
    GenericItems(items, value);
    assert items == [] ==> Generic(JArr(items)).items + [Generic(value)] == [Generic(value)];
  }

  lemma {:induction false} AppendsVisible(before: seq<Op>, key: Text, values: seq<Json>)
    requires Visible(before, key) == None
    ensures Visible(before + Appends(key, values), key) == if values == [] then None else Some(Generic(JArr(values)))
  {
    if values == [] {
      assert before + Appends(key, values) == before;
    } else {
      var n := |values| - 1;
      AppendsVisible(before, key, values[..n]);
      VisibleAppend(before + Appends(key, values[..n]), key, values[..n], values[n]);
      assert before + Appends(key, values) == before + Appends(key, values[..n]) + [AppendOp(key, values[n], true)];
      assert values == values[..n] + [values[n]];
    }
  }

  /** After any history that leaves a key absent, appending k values leaves exactly those k values, in order. */
  lemma AppendsInOrder(before: seq<Op>, key: Text, values: seq<Json>)
    requires Visible(before, key) == None && values != []
    ensures Read(Run(map[], before + Appends(key, values)), key) == Ok(Generic(JArr(values)))
  {
    AppendsVisible(before, key, values);
    GetIsVisible(before + Appends(key, values), key);
  }
}
