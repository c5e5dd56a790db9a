/** Peer managers, discovery and the wait for a full mesh. */
module Peers {
  import opened Basics

  /** The peer map of a host; clones of a manager share it. */
  class PeerTable {
    var peers: map<Text, Text>

    constructor ()
      ensures peers == map[]
    {
      peers := map[];
    }
  }

  class P2PManager {
    const id: Text
    const hostId: Text
    const table: PeerTable
    var protocol: Text

    /** NewPeerManager. */
    constructor (id: Text, hostId: Text, protocol: Text)
      ensures this.id == id && this.hostId == hostId && this.protocol == protocol
      ensures fresh(table) && table.peers == map[]
    {
      this.id, this.hostId, this.protocol := id, hostId, protocol;
      table := new PeerTable();
    }

    constructor Over(id: Text, hostId: Text, table: PeerTable, protocol: Text)
      ensures this.id == id && this.hostId == hostId && this.protocol == protocol && this.table == table
    {
      this.id, this.hostId, this.table, this.protocol := id, hostId, table, protocol;
    }

    /** The clone has its own protocol and the same peers, now and after every later discovery. */
    method ClonePeerManager(protocol: Text) returns (pm: P2PManager)
      ensures fresh(pm) && pm.id == id && pm.hostId == hostId && pm.protocol == protocol
      ensures pm.table == table
    {
      pm := new P2PManager.Over(id, hostId, table, protocol);
    }

    function NumPeers(): uint32
      reads table
    {
      Size(table.peers)
    }

    /** PeerIDs: every key of the map once, in some order. */
    method PeerIDs() returns (ids: seq<Text>)
      ensures |ids| == |table.peers|
      ensures forall id :: id in ids <==> id in table.peers
      ensures forall i, j :: 0 <= i < j < |ids| ==> ids[i] != ids[j]
    {
      var a := new Text[|table.peers|](_ => []);
      var todo := table.peers.Keys;
      var i := 0;
      assert |todo| == |table.peers|;
      while todo != {}
        invariant todo <= table.peers.Keys
        invariant i + |todo| == |table.peers| == a.Length
        invariant forall id :: id in a[..i] <==> id in table.peers.Keys - todo
        invariant forall j, k :: 0 <= j < k < i ==> a[j] != a[k]
      {
        var id :| id in todo;
        ghost var before := a[..i];
        assert id !in before;
        a[i] := id;
        assert a[..i + 1] == before + [id];
        assert |todo - {id}| == |todo| - 1;
        todo := todo - {id};
        i := i + 1;
      }
      assert a[..i] == a[..];
      ids := a[..];
    }

    method AddPeerID(peerId: Text, addr: Text)
      modifies table
      ensures table.peers == old(table.peers)[peerId := PeerAddr(addr, peerId)]
    {
      table.peers := table.peers[peerId := PeerAddr(addr, peerId)];
    }

    /** HandlePeerFound: the host itself is skipped, and so is a peer that cannot be dialled. */
    method HandlePeerFound(found: Found)
      modifies table
      ensures table.peers == Noted(old(table.peers), hostId, found)
    {
      if found.id != hostId {
        if found.connects {
          AddPeerID(found.id, found.addr);
        }
      }
    }
  }

  /** One discovery notification. */
  datatype Found = Found(id: Text, addr: Text, connects: bool)

  /** A length as a uint32. */
  function Wrapped(n: nat): (w: uint32)
  {
    n % 0x1_0000_0000
  }

  lemma WrappedBelow(n: nat)
    ensures Wrapped(n) <= n
    ensures n < 0x1_0000_0000 ==> Wrapped(n) == n
    ensures Wrapped(n + 0x1_0000_0000) == Wrapped(n)
  {
  }

  /** The length of a peer map as a uint32. */
  function Size(peers: map<Text, Text>): (n: uint32)
    ensures n <= |peers|
  {
    WrappedBelow(|peers|);
    Wrapped(|peers|)
  }

  /** No more than a uint32 counts, so a count that reached `n` is exact for maps of size `n`. */
  lemma SizeExact(seen: map<Text, Text>, peers: map<Text, Text>, n: nat)
    requires Size(seen) >= n && |peers| == n
    ensures Size(peers) == n
  {
    WrappedBelow(n);
  }

  function PeerAddr(addr: Text, id: Text): Text
  {
    addr + Ascii("/p2p/") + id
  }

  function Noted(peers: map<Text, Text>, self: Text, found: Found): map<Text, Text>
  {
    if found.id != self && found.connects then peers[found.id := PeerAddr(found.addr, found.id)] else peers
  }

  // ----- the mesh of a cluster: one peer map per node -----

  type Mesh = seq<map<Text, Text>>

  /** Node `node` is notified of `found`. */
  datatype Sighting = Sighting(node: nat, found: Found)

  function Seen(mesh: Mesh, ids: seq<Text>, s: Sighting): (mesh': Mesh)
    requires |mesh| == |ids|
    ensures |mesh'| == |mesh|
  {
    if s.node < |mesh| then mesh[s.node := Noted(mesh[s.node], ids[s.node], s.found)] else mesh
  }

  function SeenAll(mesh: Mesh, ids: seq<Text>, ss: seq<Sighting>): (mesh': Mesh)
    requires |mesh| == |ids|
    ensures |mesh'| == |mesh|
  {
    if ss == [] then mesh else Seen(SeenAll(mesh, ids, ss[..|ss| - 1]), ids, ss[|ss| - 1])
  }

  /** What the ticker finds: some discoveries have happened, and the deadline may have passed. */
  datatype Round = Round(seen: seq<Sighting>, expired: bool)

  datatype Waited = Connected | TimedOut | StillWaiting

  predicate AllConnected(mesh: Mesh)
  {
    forall m :: m in mesh ==> Size(m) >= |mesh| - 1
  }

  function WaitOutcome(mesh: Mesh, ids: seq<Text>, rounds: seq<Round>): (Waited, Mesh)
    requires |mesh| == |ids|
    decreases |rounds|
  {
    if rounds == [] then (StillWaiting, mesh)
    else
      var mesh' := SeenAll(mesh, ids, rounds[0].seen);
      if rounds[0].expired then (TimedOut, mesh')
      else if AllConnected(mesh') then (Connected, mesh')
      else WaitOutcome(mesh', ids, rounds[1..])
  }

  function MeshOf(pms: seq<P2PManager>): (mesh: Mesh)
    reads set pm | pm in pms :: pm.table
    ensures |mesh| == |pms|
  {
    seq(|pms|, i requires 0 <= i < |pms| reads set pm | pm in pms :: pm.table => pms[i].table.peers)
  }

  function IdsOf(pms: seq<P2PManager>): (ids: seq<Text>)
    ensures |ids| == |pms|
  {
    seq(|pms|, i requires 0 <= i < |pms| => pms[i].hostId)
  }

  ghost predicate Separate(pms: seq<P2PManager>)
  {
    forall i, j :: 0 <= i < j < |pms| ==> pms[i].table != pms[j].table
  }

  /** The discoveries of one round reach the managers they are meant for. */
  method Deliver(pms: seq<P2PManager>, seen: seq<Sighting>)
    requires Separate(pms)
    modifies set pm | pm in pms :: pm.table
    ensures MeshOf(pms) == SeenAll(old(MeshOf(pms)), IdsOf(pms), seen)
  {
    for k := 0 to |seen|
      invariant MeshOf(pms) == SeenAll(old(MeshOf(pms)), IdsOf(pms), seen[..k])
    {
      ghost var before := MeshOf(pms);
      var s := seen[k];
      if s.node < |pms| {
        pms[s.node].HandlePeerFound(s.found);
      }
      assert MeshOf(pms) == Seen(before, IdsOf(pms), s);
      assert seen[..k + 1][..k] == seen[..k];
    }
    assert seen[..|seen|] == seen;
  }

  /** waitForPeers: every tick looks at all managers; the deadline ends the wait. */
  method WaitForPeers(pms: seq<P2PManager>, rounds: seq<Round>) returns (w: Waited)
    requires Separate(pms)
    modifies set pm | pm in pms :: pm.table
    ensures (w, MeshOf(pms)) == WaitOutcome(old(MeshOf(pms)), IdsOf(pms), rounds)
  {
    for k := 0 to |rounds|
      invariant WaitOutcome(MeshOf(pms), IdsOf(pms), rounds[k..]) == WaitOutcome(old(MeshOf(pms)), IdsOf(pms), rounds)
    {
      Deliver(pms, rounds[k].seen);
      assert rounds[k..][1..] == rounds[k + 1..];
      if rounds[k].expired {
        return TimedOut;
      }
      var allConnected := LooksConnected(pms);
      if allConnected {
        return Connected;
      }
    }
    return StillWaiting;
  }

  /** The check of one tick stops at the first manager with too few peers. */
  method LooksConnected(pms: seq<P2PManager>) returns (allConnected: bool)
    ensures allConnected <==> AllConnected(MeshOf(pms))
  {
    for i := 0 to |pms|
      invariant forall j :: 0 <= j < i ==> Size(MeshOf(pms)[j]) >= |pms| - 1
    {
      if pms[i].NumPeers() < |pms| - 1 {
        assert MeshOf(pms)[i] in MeshOf(pms);
        return false;
      }
    }
    return true;
  }

  // ----- when the wait ends, and how -----

  lemma {:induction false} SeenConcat(mesh: Mesh, ids: seq<Text>, a: seq<Sighting>, b: seq<Sighting>)
    requires |mesh| == |ids|
    ensures SeenAll(mesh, ids, a + b) == SeenAll(SeenAll(mesh, ids, a), ids, b)
  {
    if b == [] {
      assert a + b == a;
    } else {
      var n := |b| - 1;
      SeenConcat(mesh, ids, a, b[..n]);
      assert a + b == a + b[..n] + [b[n]];
      SeenOneMore(mesh, ids, a + b[..n], b[n]);
      assert b == b[..n] + [b[n]];
      SeenOneMore(SeenAll(mesh, ids, a), ids, b[..n], b[n]);
    }
  }

  /** This sighting makes a host list the peer. */
  predicate Meets(ids: seq<Text>, s: Sighting, i: nat, id: Text)
    requires i < |ids|
  {
    s.node == i && s.found.id == id && s.found.connects && id != ids[i]
  }

  ghost predicate Met(ids: seq<Text>, ss: seq<Sighting>, i: nat, id: Text)
    requires i < |ids|
  {
    exists s :: s in ss && Meets(ids, s, i, id)
  }

  lemma MetOneMore(ids: seq<Text>, ss: seq<Sighting>, s: Sighting, i: nat, id: Text)
    requires i < |ids|
    ensures Met(ids, ss + [s], i, id) <==> Met(ids, ss, i, id) || Meets(ids, s, i, id)
  {
    assert s in ss + [s];
    assert forall t :: t in ss ==> t in ss + [s];
  }

  /** A host lists exactly the peers it listed before and those it has been notified of and could dial, never itself. */
  lemma {:induction false} SeenAllIff(mesh: Mesh, ids: seq<Text>, ss: seq<Sighting>, i: nat, id: Text)
    requires |mesh| == |ids| && i < |ids|
    ensures id in SeenAll(mesh, ids, ss)[i] <==> id in mesh[i] || Met(ids, ss, i, id)
  {
    if ss != [] {
      var n := |ss| - 1;
      SeenAllIff(mesh, ids, ss[..n], i, id);
      assert ss == ss[..n] + [ss[n]];
      MetOneMore(ids, ss[..n], ss[n], i, id);
    }
  }

  /** The address that a listed peer is dialled at is the last one it was seen with, and it ends in the peer's id. */
  lemma {:induction false} AddressOfLast(
      mesh: Mesh, ids: seq<Text>, ss: seq<Sighting>, s: Sighting, rest: seq<Sighting>, i: nat, id: Text)
    requires |mesh| == |ids| && i < |ids| && Meets(ids, s, i, id)
    requires forall t :: t in rest ==> !Meets(ids, t, i, id)
    ensures var m := SeenAll(mesh, ids, ss + [s] + rest)[i];
            id in m && m[id] == s.found.addr + Ascii("/p2p/") + id
  {
    if rest == [] {
      assert ss + [s] + rest == ss + [s];
      SeenOneMore(mesh, ids, ss, s);
    } else {
      var n := |rest| - 1;
      AddressOfLast(mesh, ids, ss, s, rest[..n], i, id);
      assert ss + [s] + rest == ss + [s] + rest[..n] + [rest[n]];
      assert rest[n] in rest;
      SeenOneMore(mesh, ids, ss + [s] + rest[..n], rest[n]);
    }
  }

  /** All sightings of the first `k` rounds. */
  function Sightings(rounds: seq<Round>, k: nat): seq<Sighting>
    requires k <= |rounds|
  {
    if k == 0 then [] else Sightings(rounds, k - 1) + rounds[k - 1].seen
  }

  /** The mesh that the tick of round `k` looks at. */
  function MeshAt(mesh: Mesh, ids: seq<Text>, rounds: seq<Round>, k: nat): (m: Mesh)
    requires |mesh| == |ids| && k < |rounds|
    ensures |m| == |mesh|
  {
    SeenAll(mesh, ids, Sightings(rounds, k + 1))
  }

  lemma {:induction false} SightingsShift(rounds: seq<Round>, k: nat)
    requires 1 <= k <= |rounds|
    ensures Sightings(rounds, k) == rounds[0].seen + Sightings(rounds[1..], k - 1)
  {
    if k > 1 {
      SightingsShift(rounds, k - 1);
    }
  }

  lemma SeenAfter(mesh: Mesh, ids: seq<Text>, first: seq<Sighting>, more: seq<Sighting>, all: seq<Sighting>)
    requires |mesh| == |ids| && all == first + more
    ensures SeenAll(mesh, ids, all) == SeenAll(SeenAll(mesh, ids, first), ids, more)
  {
    SeenConcat(mesh, ids, first, more);
  }

  lemma MeshShift(mesh: Mesh, ids: seq<Text>, rounds: seq<Round>, k: nat)
    requires |mesh| == |ids| && 1 <= k < |rounds|
    ensures MeshAt(mesh, ids, rounds, k) == MeshAt(SeenAll(mesh, ids, rounds[0].seen), ids, rounds[1..], k - 1)
  {
    SightingsShift(rounds, k + 1);
    SeenAfter(mesh, ids, rounds[0].seen, Sightings(rounds[1..], k), Sightings(rounds, k + 1));
  }

  /** The tick of round `k` finds enough peers everywhere. */
  predicate ConnectedAt(mesh: Mesh, ids: seq<Text>, rounds: seq<Round>, k: nat)
    requires |mesh| == |ids|
  {
    k < |rounds| && AllConnected(MeshAt(mesh, ids, rounds, k))
  }

  predicate ExpiredAt(rounds: seq<Round>, k: nat)
  {
    k < |rounds| && rounds[k].expired
  }

  /** In round `k` the wait ends with success, or with the deadline. */
  predicate EndsConnected(mesh: Mesh, ids: seq<Text>, rounds: seq<Round>, k: nat)
    requires |mesh| == |ids|
  {
    ConnectedAt(mesh, ids, rounds, k) && forall j :: 0 <= j <= k ==> !ExpiredAt(rounds, j)
  }

  predicate EndsExpired(mesh: Mesh, ids: seq<Text>, rounds: seq<Round>, k: nat)
    requires |mesh| == |ids|
  {
    ExpiredAt(rounds, k) && forall j :: 0 <= j < k ==> !ConnectedAt(mesh, ids, rounds, j)
  }

  ghost predicate Connects(mesh: Mesh, ids: seq<Text>, rounds: seq<Round>)
    requires |mesh| == |ids|
  {
    exists k: nat :: EndsConnected(mesh, ids, rounds, k)
  }

  ghost predicate Expires(mesh: Mesh, ids: seq<Text>, rounds: seq<Round>)
    requires |mesh| == |ids|
  {
    exists k: nat :: EndsExpired(mesh, ids, rounds, k)
  }

  lemma FirstMesh(mesh: Mesh, ids: seq<Text>, rounds: seq<Round>)
    requires |mesh| == |ids| && rounds != []
    ensures MeshAt(mesh, ids, rounds, 0) == SeenAll(mesh, ids, rounds[0].seen)
  {
    assert Sightings(rounds, 1) == [] + rounds[0].seen == rounds[0].seen;
  }

  lemma ConnectedShift(mesh: Mesh, ids: seq<Text>, rounds: seq<Round>, k: nat)
    requires |mesh| == |ids| && rounds != []
    ensures ConnectedAt(mesh, ids, rounds, k + 1)
        <==> ConnectedAt(SeenAll(mesh, ids, rounds[0].seen), ids, rounds[1..], k)
    ensures ExpiredAt(rounds, k + 1) <==> ExpiredAt(rounds[1..], k)
  {
    if k + 1 < |rounds| {
      MeshShift(mesh, ids, rounds, k + 1);
    }
  }

  lemma EndsShift(mesh: Mesh, ids: seq<Text>, rounds: seq<Round>, k: nat)
    requires |mesh| == |ids| && rounds != []
    requires !ExpiredAt(rounds, 0) && !ConnectedAt(mesh, ids, rounds, 0)
    ensures EndsConnected(mesh, ids, rounds, k + 1)
        <==> EndsConnected(SeenAll(mesh, ids, rounds[0].seen), ids, rounds[1..], k)
    ensures EndsExpired(mesh, ids, rounds, k + 1)
        <==> EndsExpired(SeenAll(mesh, ids, rounds[0].seen), ids, rounds[1..], k)
  {
    forall j: nat
      ensures ConnectedAt(mesh, ids, rounds, j + 1)
          <==> ConnectedAt(SeenAll(mesh, ids, rounds[0].seen), ids, rounds[1..], j)
      ensures ExpiredAt(rounds, j + 1) <==> ExpiredAt(rounds[1..], j)
    {
      ConnectedShift(mesh, ids, rounds, j);
    }
    var later := SeenAll(mesh, ids, rounds[0].seen);
    forall j: nat | 0 < j
      ensures ConnectedAt(mesh, ids, rounds, j) <==> ConnectedAt(later, ids, rounds[1..], j - 1)
      ensures ExpiredAt(rounds, j) <==> ExpiredAt(rounds[1..], j - 1)
    {
      ConnectedShift(mesh, ids, rounds, j - 1);
    }
    ConnectedShifted(mesh, ids, rounds, later, k);
    ExpiredShifted(mesh, ids, rounds, later, k);
  }

  lemma ConnectedShifted(mesh: Mesh, ids: seq<Text>, rounds: seq<Round>, later: Mesh, k: nat)
    requires |mesh| == |ids| == |later| && rounds != [] && !ExpiredAt(rounds, 0)
    requires ConnectedAt(mesh, ids, rounds, k + 1) <==> ConnectedAt(later, ids, rounds[1..], k)
    requires forall j: nat :: 0 < j ==> (ExpiredAt(rounds, j) <==> ExpiredAt(rounds[1..], j - 1))
    ensures EndsConnected(mesh, ids, rounds, k + 1) <==> EndsConnected(later, ids, rounds[1..], k)
  {
    if EndsConnected(mesh, ids, rounds, k + 1) {
      forall j | 0 <= j <= k
        ensures !ExpiredAt(rounds[1..], j)
      {
        assert !ExpiredAt(rounds, j + 1);
      }
    }
  }

  lemma ExpiredShifted(mesh: Mesh, ids: seq<Text>, rounds: seq<Round>, later: Mesh, k: nat)
    requires |mesh| == |ids| == |later| && rounds != [] && !ConnectedAt(mesh, ids, rounds, 0)
    requires ExpiredAt(rounds, k + 1) <==> ExpiredAt(rounds[1..], k)
    requires forall j: nat :: 0 < j ==>
               (ConnectedAt(mesh, ids, rounds, j) <==> ConnectedAt(later, ids, rounds[1..], j - 1))
    ensures EndsExpired(mesh, ids, rounds, k + 1) <==> EndsExpired(later, ids, rounds[1..], k)
  {
    if EndsExpired(mesh, ids, rounds, k + 1) {
      forall j | 0 <= j < k
        ensures !ConnectedAt(later, ids, rounds[1..], j)
      {
        assert !ConnectedAt(mesh, ids, rounds, j + 1);
      }
    }
  }

  /** The wait ends in one way only. */
  lemma OneEnd(mesh: Mesh, ids: seq<Text>, rounds: seq<Round>)
    requires |mesh| == |ids|
    ensures !(Connects(mesh, ids, rounds) && Expires(mesh, ids, rounds))
  {
  }

  /**
    The wait succeeds exactly when some tick finds enough peers everywhere before the deadline has passed, however many
    ticks did not; it times out exactly when the deadline passes before such a tick; and otherwise it goes on.
   */
  lemma {:induction false} WaitIff(mesh: Mesh, ids: seq<Text>, rounds: seq<Round>)
    requires |mesh| == |ids|
    ensures var w := WaitOutcome(mesh, ids, rounds).0;
            && (w == Connected <==> Connects(mesh, ids, rounds))
            && (w == TimedOut <==> Expires(mesh, ids, rounds))
    decreases |rounds|
  {
    OneEnd(mesh, ids, rounds);
    if rounds != [] {
      FirstMesh(mesh, ids, rounds);
      if rounds[0].expired {
        assert EndsExpired(mesh, ids, rounds, 0);
      } else if ConnectedAt(mesh, ids, rounds, 0) {
        assert EndsConnected(mesh, ids, rounds, 0);
      } else {
        var later := SeenAll(mesh, ids, rounds[0].seen);
        WaitIff(later, ids, rounds[1..]);
        forall k: nat
          ensures EndsConnected(mesh, ids, rounds, k + 1) <==> EndsConnected(later, ids, rounds[1..], k)
          ensures EndsExpired(mesh, ids, rounds, k + 1) <==> EndsExpired(later, ids, rounds[1..], k)
        {
          EndsShift(mesh, ids, rounds, k);
        }
        EndsLater(mesh, ids, rounds, later);
      }
    }
  }

  lemma EndsLater(mesh: Mesh, ids: seq<Text>, rounds: seq<Round>, later: Mesh)
    requires |mesh| == |ids| == |later| && rounds != []
    requires !ExpiredAt(rounds, 0) && !ConnectedAt(mesh, ids, rounds, 0)
    requires forall k: nat :: EndsConnected(mesh, ids, rounds, k + 1) <==> EndsConnected(later, ids, rounds[1..], k)
    requires forall k: nat :: EndsExpired(mesh, ids, rounds, k + 1) <==> EndsExpired(later, ids, rounds[1..], k)
    ensures Connects(mesh, ids, rounds) <==> Connects(later, ids, rounds[1..])
    ensures Expires(mesh, ids, rounds) <==> Expires(later, ids, rounds[1..])
  {
    if Connects(mesh, ids, rounds) {
      var k: nat :| EndsConnected(mesh, ids, rounds, k);
      assert k != 0;
      assert EndsConnected(later, ids, rounds[1..], k - 1);
    }
    if Expires(mesh, ids, rounds) {
      var k: nat :| EndsExpired(mesh, ids, rounds, k);
      assert k != 0;
      assert EndsExpired(later, ids, rounds[1..], k - 1);
    }
    if Connects(later, ids, rounds[1..]) {
      var k: nat :| EndsConnected(later, ids, rounds[1..], k);
      assert EndsConnected(mesh, ids, rounds, k + 1);
    }
    if Expires(later, ids, rounds[1..]) {
      var k: nat :| EndsExpired(later, ids, rounds[1..], k);
      assert EndsExpired(mesh, ids, rounds, k + 1);
    }
  }

  // ----- counting makes the mesh full -----

  predicate DistinctIds(ids: seq<Text>)
  {
    forall i, j :: 0 <= i < j < |ids| ==> ids[i] != ids[j]
  }

  function Cluster(ids: seq<Text>): set<Text>
  {
    set id | id in ids
  }

  lemma {:induction false} ClusterSize(ids: seq<Text>)
    requires DistinctIds(ids)
    ensures |Cluster(ids)| == |ids|
  {
    if ids != [] {
      var n := |ids| - 1;
      ClusterSize(ids[..n]);
      assert Cluster(ids) == Cluster(ids[..n]) + {ids[n]};
      assert ids[n] !in ids[..n];
    }
  }

  /** No manager lists its own host, and every listed peer was announced. */
  ghost predicate MeshInv(mesh: Mesh, ids: seq<Text>, announced: set<Text>)
  {
    |mesh| == |ids| && forall i :: 0 <= i < |ids| ==> mesh[i].Keys <= announced - {ids[i]}
  }

  lemma {:induction false} SeenAllInv(mesh: Mesh, ids: seq<Text>, announced: set<Text>, ss: seq<Sighting>)
    requires MeshInv(mesh, ids, announced)
    requires forall s :: s in ss ==> s.found.id in announced
    ensures MeshInv(SeenAll(mesh, ids, ss), ids, announced)
    ensures forall i :: 0 <= i < |ids| ==> mesh[i].Keys <= SeenAll(mesh, ids, ss)[i].Keys
  {
    if ss != [] {
      assert forall s :: s in ss[..|ss| - 1] ==> s in ss;
      assert ss[|ss| - 1] in ss;
      SeenAllInv(mesh, ids, announced, ss[..|ss| - 1]);
    }
  }

  lemma {:induction false} WaitInv(mesh: Mesh, ids: seq<Text>, announced: set<Text>, rounds: seq<Round>)
    requires MeshInv(mesh, ids, announced)
    requires forall r :: r in rounds ==> forall s :: s in r.seen ==> s.found.id in announced
    ensures var (w, mesh') := WaitOutcome(mesh, ids, rounds);
            MeshInv(mesh', ids, announced) && (w == Connected ==> AllConnected(mesh'))
    decreases |rounds|
  {
    if rounds != [] {
      assert rounds[0] in rounds;
      SeenAllInv(mesh, ids, announced, rounds[0].seen);
      assert forall r :: r in rounds[1..] ==> r in rounds;
      WaitInv(SeenAll(mesh, ids, rounds[0].seen), ids, announced, rounds[1..]);
    }
  }

  lemma SubsetOfSize(a: set<Text>, b: set<Text>)
    requires a <= b && |a| >= |b|
    ensures a == b
  {
    assert |b| == |a| + |b - a|;
  }

  /** The mesh is full: every node lists exactly the other nodes. */
  ghost predicate FullMesh(mesh: Mesh, ids: seq<Text>)
  {
    |mesh| == |ids| && forall i :: 0 <= i < |ids| ==> mesh[i].Keys == Cluster(ids) - {ids[i]}
  }

  /**
    With n-1 peers at every node, the mesh is full exactly when every listed peer is a node of the cluster.
    A stranger on the local network can therefore make the wait succeed on an incomplete mesh.
   */
  lemma FullMeshIff(mesh: Mesh, ids: seq<Text>, announced: set<Text>)
    requires DistinctIds(ids) && MeshInv(mesh, ids, announced) && AllConnected(mesh)
    ensures FullMesh(mesh, ids) <==> forall i :: 0 <= i < |ids| ==> mesh[i].Keys <= Cluster(ids)
  {
    ClusterSize(ids);
    if forall i :: 0 <= i < |ids| ==> mesh[i].Keys <= Cluster(ids) {
      forall i | 0 <= i < |ids|
        ensures mesh[i].Keys == Cluster(ids) - {ids[i]}
      {
        assert mesh[i] in mesh && |mesh[i]| == |mesh[i].Keys|;
        assert |Cluster(ids) - {ids[i]}| == |ids| - 1;
        SubsetOfSize(mesh[i].Keys, Cluster(ids) - {ids[i]});
      }
    }
  }

  lemma SeenOneMore(mesh: Mesh, ids: seq<Text>, ss: seq<Sighting>, s: Sighting)
    requires |mesh| == |ids|
    ensures SeenAll(mesh, ids, ss + [s]) == Seen(SeenAll(mesh, ids, ss), ids, s)
  {
    assert (ss + [s])[..|ss|] == ss;
  }

  function Sees(node: nat, id: Text): Sighting
  {
    Sighting(node, Found(id, [], true))
  }

  /** In three nodes, the first has met the second and a stranger, the others each other and the first. */
  function StrangeRound(ids: seq<Text>, stranger: Text): Round
    requires |ids| == 3
  {
    Round([Sees(0, ids[1])] + [Sees(0, stranger)] + [Sees(1, ids[0])] + [Sees(1, ids[2])] + [Sees(2, ids[0])]
          + [Sees(2, ids[1])],
          false)
  }

  lemma StrangeMesh(ids: seq<Text>, stranger: Text)
    requires |ids| == 3 && DistinctIds(ids) && stranger !in ids
    ensures var mesh := SeenAll(seq(3, _ => map[]), ids, StrangeRound(ids, stranger).seen);
            && mesh[0].Keys == {ids[1], stranger}
            && mesh[1].Keys == {ids[0], ids[2]}
            && mesh[2].Keys == {ids[0], ids[1]}
  {
    var start: Mesh := seq(3, _ => map[]);
    var s1 := [] + [Sees(0, ids[1])];
    var s2 := s1 + [Sees(0, stranger)];
    var s3 := s2 + [Sees(1, ids[0])];
    var s4 := s3 + [Sees(1, ids[2])];
    var s5 := s4 + [Sees(2, ids[0])];
    SeenOneMore(start, ids, [], Sees(0, ids[1]));
    SeenOneMore(start, ids, s1, Sees(0, stranger));
    SeenOneMore(start, ids, s2, Sees(1, ids[0]));
    SeenOneMore(start, ids, s3, Sees(1, ids[2]));
    SeenOneMore(start, ids, s4, Sees(2, ids[0]));
    SeenOneMore(start, ids, s5, Sees(2, ids[1]));
    assert StrangeRound(ids, stranger).seen == s5 + [Sees(2, ids[1])];
  }

  /** A run in which the wait succeeds and the mesh is not full: the first node has never met the third. */
  lemma StrangerFoolsWait(ids: seq<Text>, stranger: Text)
    requires |ids| == 3 && DistinctIds(ids) && stranger !in ids
    ensures var (w, mesh) := WaitOutcome(seq(3, _ => map[]), ids, [StrangeRound(ids, stranger)]);
            && w == Connected
            && !FullMesh(mesh, ids)
            && |mesh| == 3 && ids[2] !in mesh[0]
  {
    StrangeMesh(ids, stranger);
    var mesh := SeenAll(seq(3, _ => map[]), ids, StrangeRound(ids, stranger).seen);
    forall i | 0 <= i < 3
      ensures Size(mesh[i]) == 2
    {
      assert |mesh[i]| == |mesh[i].Keys| == 2;
      WrappedBelow(2);
    }
    assert AllConnected(mesh);
    assert ids[2] in Cluster(ids) - {ids[0]};
  }

  lemma FullMeshCounts(mesh: Mesh, ids: seq<Text>)
    requires DistinctIds(ids) && FullMesh(mesh, ids)
    ensures forall i :: 0 <= i < |ids| ==> |mesh[i]| == |ids| - 1
  {
    ClusterSize(ids);
    forall i | 0 <= i < |ids|
      ensures |mesh[i]| == |ids| - 1
    {
      assert |mesh[i]| == |mesh[i].Keys| == |Cluster(ids) - {ids[i]}|;
    }
  }

  /** Once full, the mesh stays full whatever cluster nodes are announced again. */
  lemma {:induction false} FullMeshStays(mesh: Mesh, ids: seq<Text>, later: seq<Sighting>)
    requires FullMesh(mesh, ids)
    requires forall s :: s in later ==> s.found.id in ids
    ensures FullMesh(SeenAll(mesh, ids, later), ids)
  {
    SeenAllInv(mesh, ids, Cluster(ids), later);
  }

  /** The key-generation threshold of every node, once the wait has seen `n-1` peers fit in a uint32. */
  lemma Thresholds(connected: Mesh, mesh: Mesh, ids: seq<Text>)
    requires DistinctIds(ids) && FullMesh(mesh, ids)
    requires |connected| == |ids| && AllConnected(connected)
    ensures forall i :: 0 <= i < |ids| ==> Size(mesh[i]) == |ids| - 1
  {
    FullMeshCounts(mesh, ids);
    forall i | 0 <= i < |ids|
      ensures Size(mesh[i]) == |ids| - 1
    {
      assert connected[i] in connected;
      SizeExact(connected[i], mesh[i], |ids| - 1);
    }
  }

  /** The threshold of every reshare. */
  const RESHARE_THRESHOLD := 2

  /**
    If only cluster nodes are announced, a wait that succeeds has found the full mesh and later discoveries keep it
    full.  So every node generates keys with the same threshold, the number of its peers n-1, and that is the threshold
    a later reshare works with exactly in a cluster of three.
   */
  lemma ConnectedIsFullMesh(ids: seq<Text>, rounds: seq<Round>, later: seq<Sighting>)
    requires DistinctIds(ids)
    requires forall r :: r in rounds ==> forall s :: s in r.seen ==> s.found.id in ids
    requires forall s :: s in later ==> s.found.id in ids
    ensures var (w, mesh) := WaitOutcome(seq(|ids|, _ => map[]), ids, rounds);
            w == Connected ==>
              && FullMesh(mesh, ids)
              && FullMesh(SeenAll(mesh, ids, later), ids)
              && forall i :: 0 <= i < |ids| ==>
                   && Size(SeenAll(mesh, ids, later)[i]) == |ids| - 1
                   && (|ids| == 3 <==> Size(SeenAll(mesh, ids, later)[i]) == RESHARE_THRESHOLD)
  {
    var start: Mesh := seq(|ids|, _ => map[]);
    WaitInv(start, ids, Cluster(ids), rounds);
    var (w, mesh) := WaitOutcome(start, ids, rounds);
    if w == Connected {
      FullMeshIff(mesh, ids, Cluster(ids));
      FullMeshStays(mesh, ids, later);
      Thresholds(mesh, SeenAll(mesh, ids, later), ids);
    }
  }
}
