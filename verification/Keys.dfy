/** Store keys and protocol ids: hashes, per-node keys and the rendezvous of senders and handlers. */
module Keys {
  import opened Basics
  import opened Numbers
  import opened BadgerStore
  import opened Fsm

  const DASH: byte := '-' as int

  /** utils.ToHexHash. */
  function ToHexHash(suite: Suite, text: Text): Text
  {
    ToHexText(suite.keccak(text))
  }

  /** The key of node `i` in self-host mode: the ceremony's hash, a dash and the node index. */
  function NodeKey(hash: Text, i: nat): Text
  {
    hash + [DASH] + Decimal(i)
  }

  /** strings.Split(hash, "-")[0]: everything before the first dash. */
  function BeforeDash(s: Text): (p: Text)
    ensures p <= s && DASH !in p
    ensures DASH in s <==> p != s
    ensures p != s ==> s[|p|] == DASH
  {
    if s == [] || s[0] == DASH then [] else [s[0]] + BeforeDash(s[1..])
  }

  /** peer.GetProtocol. */
  function Protocol(id: Text): Text
  {
    Ascii("/") + id + Ascii("/1.0.0")
  }

  /** The protocol a DKG session of `hash` listens on. */
  function DkgHandlerProtocol(hash: Text): Text
  {
    if DASH in hash then Protocol(BeforeDash(hash)) else Protocol(hash)
  }

  lemma ProtocolInjective(a: Text, b: Text)
    requires Protocol(a) == Protocol(b)
    ensures a == b
  {
    assert |a| == |b|;
    assert a == Protocol(a)[1..1 + |a|];
    assert b == Protocol(b)[1..1 + |b|];
  }

  lemma NoDashInHex(b: seq<byte>)
    ensures DASH !in ToHexText(b)
  {
    HexEncodeShape(b);
  }

  lemma NoDashInDecimal(n: nat)
    ensures DASH !in Decimal(n)
  {
    ParseDecimal(n);
  }

  /** The text of a hash is 0x and the 32 bytes of the hash of the whole message in lower-case digits. */
  lemma HexHashOfMessage(suite: Suite, message: Text)
    ensures var h := ToHexHash(suite, message);
            && |h| == 66 && h[..2] == Ascii("0x")
            && HexDecode(h[2..]) == FromHex(h) == suite.keccak(message)
  {
    HexEncodeShape(suite.keccak(message));
    FromHexInverse(suite.keccak(message));
    HexDecodeEncode(suite.keccak(message));
    assert ToHexHash(suite, message)[2..] == HexEncode(suite.keccak(message));
  }

  /** A node key is the hash, a dash and the index in decimal. */
  lemma NodeKeyParts(hash: Text, i: nat)
    ensures var key := NodeKey(hash, i);
            && |key| > |hash| + 1 && key[..|hash|] == hash && key[|hash|] == '-' as int
            && ParseInt(key[|hash| + 1..]) == Some(i) && PrintInt(i) == key[|hash| + 1..]
  {
    IntRoundTrip(i);
    assert NodeKey(hash, i)[|hash| + 1..] == Decimal(i);
  }

  lemma ProtocolText()
    ensures Protocol(Ascii("ab")) == Ascii("/ab/1.0.0")
  {
  }

  /** No hash of a message is ever the key of a node, whatever the hash function returns. */
  lemma HashIsNotNodeKey(suite: Suite, message: Text, hash: Text, i: nat)
    ensures ToHexHash(suite, message) != NodeKey(hash, i)
  {
    NoDashInHex(suite.keccak(message));
    assert NodeKey(hash, i)[|hash|] == DASH;
  }

  /** A text has one splitting at a dash with no dash after it. */
  lemma LastDash(a: Text, b: Text, x: Text, y: Text)
    requires a + [DASH] + x == b + [DASH] + y
    requires DASH !in x && DASH !in y
    ensures a == b && x == y
  {
    var s := a + [DASH] + x;
    assert s[|a|] == DASH && s[|b|] == DASH;
    assert forall k :: |a| < k < |s| ==> s[k] == x[k - |a| - 1];
    assert forall k :: |b| < k < |s| ==> s[k] == y[k - |b| - 1];
    assert |a| == |b|;
    assert a == s[..|a|] && b == s[..|b|];
    assert x == s[|a| + 1..] && y == s[|b| + 1..];
  }

  /** Node keys are injective in hash and index together, even for hashes that contain dashes. */
  lemma NodeKeyInjective(h: Text, i: nat, g: Text, j: nat)
    ensures NodeKey(h, i) == NodeKey(g, j) <==> h == g && i == j
  {
    if NodeKey(h, i) == NodeKey(g, j) {
      NoDashInDecimal(i);
      NoDashInDecimal(j);
      LastDash(h, g, Decimal(i), Decimal(j));
      ParseDecimal(i);
      ParseDecimal(j);
    }
  }

  lemma {:induction false} BeforeFirstDash(h: Text, rest: Text)
    requires DASH !in h
    ensures BeforeDash(h + [DASH] + rest) == h
  {
    var s := h + [DASH] + rest;
    if h != [] {
      assert s[1..] == h[1..] + [DASH] + rest;
      BeforeFirstDash(h[1..], rest);
    }
  }

  /**
    Self-host rendezvous: every node sends on Protocol(hash); the handler of node i listens where the split of its key
    says.  They meet exactly when the hash has no dash, as every hash made by ToHexHash is.
   */
  lemma SelfHostRendezvous(hash: Text, i: nat)
    ensures DkgHandlerProtocol(NodeKey(hash, i)) == Protocol(hash) <==> DASH !in hash
  {
    var key := NodeKey(hash, i);
    assert key[|hash|] == DASH;
    if DASH !in hash {
      BeforeFirstDash(hash, Decimal(i));
    } else if DkgHandlerProtocol(key) == Protocol(hash) {
      ProtocolInjective(BeforeDash(key), hash);
    }
  }

  /** With a plain hash, as on the RPC path, the same split is harmless. */
  lemma RpcRendezvous(hash: Text)
    ensures DkgHandlerProtocol(hash) == Protocol(hash) <==> DASH !in hash
  {
    if DASH in hash && DkgHandlerProtocol(hash) == Protocol(hash) {
      ProtocolInjective(BeforeDash(hash), hash);
    }
  }

  /** Hashes produced by this program always meet, and different hashes never share a protocol. */
  lemma HashRendezvous(suite: Suite, text: Text, i: nat, other: Text)
    ensures DkgHandlerProtocol(ToHexHash(suite, text)) == Protocol(ToHexHash(suite, text))
    ensures DkgHandlerProtocol(NodeKey(ToHexHash(suite, text), i)) == Protocol(ToHexHash(suite, text))
    ensures Protocol(other) == Protocol(ToHexHash(suite, text)) <==> other == ToHexHash(suite, text)
  {
    NoDashInHex(suite.keccak(text));
    RpcRendezvous(ToHexHash(suite, text));
    SelfHostRendezvous(ToHexHash(suite, text), i);
    if Protocol(other) == Protocol(ToHexHash(suite, text)) {
      ProtocolInjective(other, ToHexHash(suite, text));
    }
  }
}
