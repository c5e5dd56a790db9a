/** Opening and closing the hosts of the self-host cluster. */
module SelfService {
  import opened Basics

  /** A libp2p host; `closable` says whether Close reports success. */
  class NetHost {
    const port: nat
    const closable: bool
    var closeAttempts: nat

    constructor (port: nat, closable: bool)
      ensures this.port == port && this.closable == closable && closeAttempts == 0
    {
      this.port, this.closable, this.closeAttempts := port, closable, 0;
    }

    method Close() returns (ok: bool)
      modifies this
      ensures closeAttempts == old(closeAttempts) + 1 && ok == closable
    {
      closeAttempts := closeAttempts + 1;
      ok := closable;
    }
  }

  /** What the network answers to MakeBasicHostByID: an error, or a host that will or will not close cleanly. */
  type Answers = seq<Option<bool>>

  /** The hosts that are opened before the first refusal. */
  function OpenedBefore(answers: Answers): nat
    ensures OpenedBefore(answers) <= |answers|
    ensures forall i :: 0 <= i < OpenedBefore(answers) ==> answers[i].Some?
    ensures OpenedBefore(answers) < |answers| ==> answers[OpenedBefore(answers)] == None
  {
    if answers == [] || answers[0] == None then 0 else 1 + OpenedBefore(answers[1..])
  }

  /** The index of the first refusal is the only one before which everything was opened. */
  lemma {:induction false} FirstRefusal(answers: Answers, k: nat)
    requires k <= |answers|
    requires forall i :: 0 <= i < k ==> answers[i].Some?
    requires k < |answers| ==> answers[k] == None
    ensures OpenedBefore(answers) == k
  {
    if k > 0 {
      assert forall i :: 0 <= i < k - 1 ==> answers[1..][i] == answers[i + 1];
      FirstRefusal(answers[1..], k - 1);
    }
  }

  ghost predicate DistinctHosts(hosts: seq<NetHost>)
  {
    forall i, j :: 0 <= i < j < |hosts| ==> hosts[i] != hosts[j]
  }

  /** The running cluster. */
  class Cluster {
    const hosts: seq<NetHost>

    constructor (hosts: seq<NetHost>)
      ensures this.hosts == hosts
    {
      this.hosts := hosts;
    }

    /** Close asks every host to close, however many refuse, and succeeds only if all did. */
    method Close() returns (ok: bool)
      requires DistinctHosts(hosts)
      modifies hosts
      ensures forall h :: h in hosts ==> h.closeAttempts == old(h.closeAttempts) + 1
      ensures ok <==> forall h :: h in hosts ==> h.closable
    {
      var errors := 0;
      for i := 0 to |hosts|
        invariant forall j :: 0 <= j < i ==> hosts[j].closeAttempts == old(hosts[j].closeAttempts) + 1
        invariant forall j :: i <= j < |hosts| ==> hosts[j].closeAttempts == old(hosts[j].closeAttempts)
        invariant errors == 0 <==> forall j :: 0 <= j < i ==> hosts[j].closable
      {
        var closed := hosts[i].Close();
        if !closed {
          errors := errors + 1;
        }
      }
      ok := errors == 0;
    }
  }

  /**
    NewSelfService: all hosts are opened and left alone, or the first refusal ends it and every host opened so far has
    been asked to close exactly once, whether or not earlier closes failed.  `hosts` are the hosts it opened.
   */
  method NewSelfService(ports: seq<nat>, answers: Answers) returns (r: Option<Cluster>, hosts: seq<NetHost>)
    requires |answers| == |ports|
    ensures DistinctHosts(hosts) && forall h :: h in hosts ==> fresh(h)
    ensures |hosts| == OpenedBefore(answers)
    ensures forall i :: 0 <= i < |hosts| ==> hosts[i].port == ports[i] && answers[i] == Some(hosts[i].closable)
    ensures r.Some? <==> OpenedBefore(answers) == |ports|
    ensures r.Some? ==> r.value.hosts == hosts && forall h :: h in hosts ==> h.closeAttempts == 0
    ensures r.None? ==> forall h :: h in hosts ==> h.closeAttempts == 1
  {
    hosts := [];
    for i := 0 to |ports|
      invariant |hosts| == i
      invariant DistinctHosts(hosts)
      invariant forall j :: 0 <= j < i ==> fresh(hosts[j]) && hosts[j].closeAttempts == 0
      invariant forall j :: 0 <= j < i ==> hosts[j].port == ports[j] && answers[j] == Some(hosts[j].closable)
    {
      if answers[i] == None {
        FirstRefusal(answers, i);
        CloseAll(hosts);
        return None, hosts;
      }
      var h := new NetHost(ports[i], answers[i].value);
      hosts := hosts + [h];
    }
    FirstRefusal(answers, |ports|);
    var cluster := new Cluster(hosts);
    r := Some(cluster);
  }

  /** The clean-up of a failed start: close errors are logged and passed over. */
  method CloseAll(hosts: seq<NetHost>)
    requires DistinctHosts(hosts)
    modifies hosts
    ensures forall j :: 0 <= j < |hosts| ==> hosts[j].closeAttempts == old(hosts[j].closeAttempts) + 1
  {
    for k := 0 to |hosts|
      invariant forall j :: 0 <= j < k ==> hosts[j].closeAttempts == old(hosts[j].closeAttempts) + 1
      invariant forall j :: k <= j < |hosts| ==> hosts[j].closeAttempts == old(hosts[j].closeAttempts)
    {
      var _ := hosts[k].Close();
    }
  }
}
