/** RpcToPeer: calling every peer of the manager until each has answered. */
module FanOut {
  import opened Basics
  import opened Effects

  class WaitGroup {
    var counter: int

    constructor ()
      ensures counter == 0
    {
      counter := 0;
    }

    method Add(delta: int)
      modifies this
      ensures counter == old(counter) + delta
    {
      counter := counter + delta;
    }

    /** A negative counter is a panic. */
    method Done()
      requires counter > 0
      modifies this
      ensures counter == old(counter) - 1
    {
      counter := counter - 1;
    }
  }

  /** How often each peer still fails before it answers; finite, or the loop does not end. */
  type Failures = map<Text, nat>

  function FailuresOf(failures: Failures, id: Text): nat
  {
    if id in failures then failures[id] else 0
  }

  function Target(peers: map<Text, Text>, id: Text): Text
  {
    if id in peers then peers[id] else []
  }

  /** The attempts for one peer: its failures, then one success. */
  function Attempts(id: Text, target: Text, failures: nat): seq<Effect>
  {
    if failures == 0 then [Called(id, target, true)]
    else [Called(id, target, false)] + Attempts(id, target, failures - 1)
  }

  function FanOutLog(ids: seq<Text>, peers: map<Text, Text>, failures: Failures): seq<Effect>
  {
    if ids == [] then []
    else FanOutLog(ids[..|ids| - 1], peers, failures)
         + var id := ids[|ids| - 1]; Attempts(id, Target(peers, id), FailuresOf(failures, id))
  }

  // ----- who is dialled, where and in which order -----

  /** Peer `id` of the map is called at the address the map gives it. */
  predicate Dials(peers: map<Text, Text>, e: Effect)
  {
    e.Called? && e.id in peers && e.target == peers[e.id]
  }

  predicate AllListed(ids: seq<Text>, peers: map<Text, Text>)
  {
    forall id :: id in ids ==> id in peers
  }

  lemma {:induction false} AttemptsShape(id: Text, target: Text, failures: nat)
    ensures |Attempts(id, target, failures)| == failures + 1
    ensures forall k :: 0 <= k <= failures ==> Attempts(id, target, failures)[k] == Called(id, target, k == failures)
  {
    if failures > 0 {
      AttemptsShape(id, target, failures - 1);
      var rest := Attempts(id, target, failures - 1);
      assert Attempts(id, target, failures) == [Called(id, target, false)] + rest;
    }
  }

  /** After a failed call the same peer is called again. */
  predicate Retried(log: seq<Effect>, k: nat)
    requires k < |log|
  {
    log[k].Called? && (log[k].answered || (k + 1 < |log| && log[k + 1].Called? && log[k + 1].id == log[k].id))
  }

  /** Every call goes to a peer of the snapshot at its own address, and a failed one is tried again. */
  predicate WellDialled(ids: seq<Text>, peers: map<Text, Text>, log: seq<Effect>)
  {
    forall k :: 0 <= k < |log| ==> Dials(peers, log[k]) && log[k].id in ids && Retried(log, k)
  }

  lemma AttemptsDial(ids: seq<Text>, peers: map<Text, Text>, id: Text, failures: nat)
    requires id in ids && id in peers
    ensures WellDialled(ids, peers, Attempts(id, Target(peers, id), failures))
  {
    AttemptsShape(id, Target(peers, id), failures);
  }

  lemma DialledConcat(fewer: seq<Text>, ids: seq<Text>, peers: map<Text, Text>, a: seq<Effect>, b: seq<Effect>)
    requires WellDialled(fewer, peers, a) && WellDialled(ids, peers, b)
    requires forall id :: id in fewer ==> id in ids
    ensures WellDialled(ids, peers, a + b)
  {
    forall k | 0 <= k < |a + b|
      ensures Dials(peers, (a + b)[k]) && (a + b)[k].id in ids && Retried(a + b, k)
    {
      if k < |a| {
        assert Dials(peers, a[k]) && Retried(a, k);
      } else {
        assert Dials(peers, b[k - |a|]) && Retried(b, k - |a|);
      }
    }
  }

  lemma {:induction false} FanOutDials(ids: seq<Text>, peers: map<Text, Text>, failures: Failures)
    requires AllListed(ids, peers)
    ensures WellDialled(ids, peers, FanOutLog(ids, peers, failures))
  {
    if ids != [] {
      var n := |ids| - 1;
      assert ids == ids[..n] + [ids[n]];
      FanOutDials(ids[..n], peers, failures);
      AttemptsDial(ids, peers, ids[n], FailuresOf(failures, ids[n]));
      DialledConcat(ids[..n], ids, peers, FanOutLog(ids[..n], peers, failures),
                    Attempts(ids[n], Target(peers, ids[n]), FailuresOf(failures, ids[n])));
    }
  }

  function Answers(log: seq<Effect>): seq<Effect>
  {
    if log == [] then [] else Answers(log[..|log| - 1]) + var e := log[|log| - 1];
      if e.Called? && e.answered then [e] else []
  }

  lemma {:induction false} AnswersConcat(a: seq<Effect>, b: seq<Effect>)
    ensures Answers(a + b) == Answers(a) + Answers(b)
  {
    if b == [] {
      assert a + b == a;
    } else {
      assert (a + b)[..|a + b| - 1] == a + b[..|b| - 1];
      AnswersConcat(a, b[..|b| - 1]);
    }
  }

  lemma {:induction false} AttemptsAnswers(id: Text, target: Text, failures: nat)
    ensures Answers(Attempts(id, target, failures)) == [Called(id, target, true)]
  {
    if failures > 0 {
      AttemptsAnswers(id, target, failures - 1);
      AnswersConcat([Called(id, target, false)], Attempts(id, target, failures - 1));
      assert [Called(id, target, false)][..0] == [];
    }
  }

  /** One answer of each peer, from its address in the map. */
  function AnswersOf(ids: seq<Text>, peers: map<Text, Text>): seq<Effect>
    requires AllListed(ids, peers)
  {
    seq(|ids|, i requires 0 <= i < |ids| => assert ids[i] in peers; Called(ids[i], peers[ids[i]], true))
  }

  lemma OneMoreAnswer(ids: seq<Text>, id: Text, peers: map<Text, Text>)
    requires AllListed(ids + [id], peers)
    ensures AllListed(ids, peers) && id in peers
    ensures AnswersOf(ids + [id], peers) == AnswersOf(ids, peers) + [Called(id, peers[id], true)]
  {
    assert forall x :: x in ids ==> x in ids + [id];
    assert (ids + [id])[|ids|] == id;
  }

  /** The peers answer one after the other, in the order of the snapshot. */
  lemma {:induction false} AnswersInOrder(ids: seq<Text>, peers: map<Text, Text>, failures: Failures)
    requires AllListed(ids, peers)
    ensures Answers(FanOutLog(ids, peers, failures)) == AnswersOf(ids, peers)
  {
    if ids != [] {
      var n := |ids| - 1;
      assert ids == ids[..n] + [ids[n]];
      OneMoreAnswer(ids[..n], ids[n], peers);
      AnswersInOrder(ids[..n], peers, failures);
      AttemptsAnswers(ids[n], Target(peers, ids[n]), FailuresOf(failures, ids[n]));
      AnswersConcat(FanOutLog(ids[..n], peers, failures),
                    Attempts(ids[n], Target(peers, ids[n]), FailuresOf(failures, ids[n])));
    }
  }

  /** SendToPeer: retries until the call succeeds, and reports to the wait group when it returns. */
  method SendToPeer(id: Text, target: Text, failures: nat, wg: WaitGroup, log: Log)
    requires wg.counter > 0
    modifies wg, log
    ensures wg.counter == old(wg.counter) - 1
    ensures log.effects == old(log.effects) + Attempts(id, target, failures)
  {
    var left: nat := failures;
    while true
      invariant left <= failures
      invariant log.effects + Attempts(id, target, left) == old(log.effects) + Attempts(id, target, failures)
      invariant wg.counter == old(wg.counter)
      decreases left
    {
      if left == 0 {
        log.Add(Called(id, target, true));
        wg.Done();
        return;
      }
      log.Add(Called(id, target, false));
      left := left - 1;
    }
  }

  /** RpcToPeer: the counter is zero when Wait is reached, so it does not block. */
  method RpcToPeer(ids: seq<Text>, peers: map<Text, Text>, failures: Failures, log: Log) returns (waitsFor: int)
    modifies log
    ensures log.effects == old(log.effects) + FanOutLog(ids, peers, failures)
    ensures AllListed(ids, peers) ==>
              forall k :: |old(log.effects)| <= k < |log.effects| ==> Dials(peers, log.effects[k])
    ensures waitsFor == 0
  {
    var wg := new WaitGroup();
    for i := 0 to |ids|
      invariant log.effects == old(log.effects) + FanOutLog(ids[..i], peers, failures)
      invariant wg.counter == 0
      invariant fresh(wg)
    {
      wg.Add(1);
      SendToPeer(ids[i], Target(peers, ids[i]), FailuresOf(failures, ids[i]), wg, log);
      assert ids[..i + 1][..i] == ids[..i];
    }
    assert ids[..|ids|] == ids;
    if AllListed(ids, peers) {
      FanOutDials(ids, peers, failures);
    }
    waitsFor := wg.counter;
  }

  function Successes(log: seq<Effect>, id: Text): nat
  {
    Count((a: Effect) => a.Called? && a.answered && a.id == id, log)
  }

  function Calls(log: seq<Effect>, id: Text): nat
  {
    Count((a: Effect) => a.Called? && a.id == id, log)
  }

  lemma {:induction false} CountConcat<T>(p: T -> bool, a: seq<T>, b: seq<T>)
    ensures Count(p, a + b) == Count(p, a) + Count(p, b)
  {
    if a == [] {
      assert a + b == b;
    } else {
      assert (a + b)[1..] == a[1..] + b;
      CountConcat(p, a[1..], b);
    }
  }

  lemma {:induction false} AttemptsCount(id: Text, target: Text, failures: nat, p: Effect -> bool)
    ensures Count(p, Attempts(id, target, failures)) ==
            (if p(Called(id, target, false)) then failures else 0) + (if p(Called(id, target, true)) then 1 else 0)
  {
    if failures > 0 {
      AttemptsCount(id, target, failures - 1, p);
      assert Attempts(id, target, failures)[1..] == Attempts(id, target, failures - 1);
    } else {
      assert Attempts(id, target, 0)[1..] == [];
    }
  }

  /** The last peer adds its failures and its one success to what is counted. */
  lemma LogCount(ids: seq<Text>, peers: map<Text, Text>, failures: Failures, p: Effect -> bool)
    requires ids != []
    ensures var n := |ids| - 1;
            var target := Target(peers, ids[n]);
            Count(p, FanOutLog(ids, peers, failures)) ==
            Count(p, FanOutLog(ids[..n], peers, failures))
            + (if p(Called(ids[n], target, false)) then FailuresOf(failures, ids[n]) else 0)
            + (if p(Called(ids[n], target, true)) then 1 else 0)
  {
    var n := |ids| - 1;
    var last := Attempts(ids[n], Target(peers, ids[n]), FailuresOf(failures, ids[n]));
    CountConcat(p, FanOutLog(ids[..n], peers, failures), last);
    AttemptsCount(ids[n], Target(peers, ids[n]), FailuresOf(failures, ids[n]), p);
  }

  /**
    Every peer of the snapshot answers exactly once, after exactly its failures, and nobody else is called.
    The snapshot lists a peer once because it comes from the keys of a map.
   */
  lemma {:induction false} EachPeerAnswersOnce(ids: seq<Text>, peers: map<Text, Text>, failures: Failures, id: Text)
    requires forall i, j :: 0 <= i < j < |ids| ==> ids[i] != ids[j]
    ensures Successes(FanOutLog(ids, peers, failures), id) == if id in ids then 1 else 0
    ensures Calls(FanOutLog(ids, peers, failures), id) == if id in ids then FailuresOf(failures, id) + 1 else 0
  {
    if ids != [] {
      var n := |ids| - 1;
      EachPeerAnswersOnce(ids[..n], peers, failures, id);
      LogCount(ids, peers, failures, (a: Effect) => a.Called? && a.answered && a.id == id);
      LogCount(ids, peers, failures, (a: Effect) => a.Called? && a.id == id);
      assert ids == ids[..n] + [ids[n]];
    }
  }
}
