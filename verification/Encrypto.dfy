/**
  Text encryption: a block cipher in CFB mode with full-block feedback
  (section 6.3 of NIST SP 800-38A) followed by base64.
  The block function is arbitrary: nothing here needs it to be invertible or secret.
 */
module Encrypto {
  import opened Basics
  import Base64

  const BLOCK := 16  // written as a number where block positions are computed

  type Block = b: seq<byte> | |b| == BLOCK witness seq(BLOCK, _ => 0)

  /** The forward block function for every key. */
  type Cipher = (seq<byte>, Block) -> Block

  /** Exclusive or of two numbers, bit by bit. */
  function XorNat(a: nat, b: nat): nat
  {
    if a == 0 && b == 0 then 0 else (a + b) % 2 + 2 * XorNat(a / 2, b / 2)
  }

  lemma {:induction false} XorBound(a: nat, b: nat, k: nat)
    requires a < Pow2(k) && b < Pow2(k)
    ensures XorNat(a, b) < Pow2(k)
  {
    if k != 0 {
      XorBound(a / 2, b / 2, k - 1);
    }
  }

  /** Bit `k` of a number. */
  function Bit(a: nat, k: nat): nat
  {
    if k == 0 then a % 2 else Bit(a / 2, k - 1)
  }

  /** Each bit of the result is set exactly when one of the two bits is. */
  lemma {:induction false} XorBits(a: nat, b: nat, k: nat)
    ensures Bit(XorNat(a, b), k) == if Bit(a, k) == Bit(b, k) then 0 else 1
    decreases k
  {
    LowBit(a, b, XorNat(a / 2, b / 2));
    if k > 0 {
      XorBits(a / 2, b / 2, k - 1);
    }
  }

  lemma LowBit(a: nat, b: nat, y: nat)
    ensures ((a + b) % 2 + 2 * y) / 2 == y
    ensures ((a + b) % 2 + 2 * y + b) % 2 == a % 2
  {
  }

  lemma {:induction false} XorNatTwice(a: nat, b: nat)
    ensures XorNat(XorNat(a, b), b) == a
  {
    if a != 0 || b != 0 {
      XorNatTwice(a / 2, b / 2);
      LowBit(a, b, XorNat(a / 2, b / 2));
    }
  }

  function Xor(a: byte, b: byte): byte
  {
    assert XorNat(a, b) < 256 by {
      assert Pow2(8) == 256;
      XorBound(a, b, 8);
    }
    XorNat(a, b)
  }

  lemma XorTwice(a: byte, b: byte)
    ensures Xor(Xor(a, b), b) == a
  {
    XorNatTwice(a, b);
  }

  /** The feedback register for block `k`: the initial vector, then the preceding ciphertext block. */
  function Register(iv: Block, c: seq<byte>, k: nat): Block
    requires 16 * k <= |c|
  {
    if k == 0 then iv else c[16 * (k - 1)..16 * k]
  }

  /**
    The key-stream byte at position `j`: the block function of the register, then the same with the first
    ciphertext block as register.  It depends on earlier ciphertext only.
   */
  function KeyStream(f: Block -> Block, iv: Block, c: seq<byte>, j: nat): byte
    requires j <= |c|
    decreases j
  {
    if j < BLOCK then f(iv)[j] else KeyStream(f, c[..BLOCK], c[BLOCK..], j - BLOCK)
  }

  lemma RegisterShift(iv: Block, c: seq<byte>, k: nat)
    requires k > 0 && 16 * k <= |c|
    ensures Register(c[..BLOCK], c[BLOCK..], k - 1) == Register(iv, c, k)
  {
    var rest := c[BLOCK..];
    if k > 1 {
      assert rest[16 * (k - 2)..16 * (k - 1)] == c[16 * (k - 1)..16 * k];
    }
  }

  /** The key stream by block and offset. */
  lemma {:induction false} KeyStreamAt(f: Block -> Block, iv: Block, c: seq<byte>, k: nat, used: nat)
    requires used < BLOCK && 16 * k + used <= |c|
    ensures KeyStream(f, iv, c, 16 * k + used) == f(Register(iv, c, k))[used]
    decreases k
  {
    if k > 0 {
      KeyStreamAt(f, c[..BLOCK], c[BLOCK..], k - 1, used);
      RegisterShift(iv, c, k);
    }
  }

  /** The CFB equations: every ciphertext byte is the plaintext byte xor the key stream. */
  ghost predicate IsCfb(f: Block -> Block, iv: Block, p: seq<byte>, c: seq<byte>)
  {
    && |c| == |p|
    && forall j :: 0 <= j < |p| ==> c[j] == Xor(p[j], KeyStream(f, iv, c, j))
  }

  /** One more byte extends a solution of the equations. */
  lemma CfbExtend(f: Block -> Block, iv: Block, p: seq<byte>, d: seq<byte>, x: byte)
    requires IsCfb(f, iv, p, d)
    ensures IsCfb(f, iv, p + [x], d + [Xor(x, KeyStream(f, iv, d, |d|))])
  {
    var c := d + [Xor(x, KeyStream(f, iv, d, |d|))];
    assert c[..|d|] == d;
    forall j | 0 <= j < |p| + 1
      ensures c[j] == Xor((p + [x])[j], KeyStream(f, iv, c, j))
    {
      KeyStreamCut(f, iv, c, j, |d|);
    }
  }

  /** Encryption, byte after byte. */
  function CfbEncrypt(f: Block -> Block, iv: Block, p: seq<byte>): (c: seq<byte>)
    ensures |c| == |p|
  {
    if p == [] then []
    else
      var n := |p| - 1;
      var d := CfbEncrypt(f, iv, p[..n]);
      d + [Xor(p[n], KeyStream(f, iv, d, n))]
  }

  lemma {:induction false} CfbEncryptSolves(f: Block -> Block, iv: Block, p: seq<byte>)
    ensures IsCfb(f, iv, p, CfbEncrypt(f, iv, p))
  {
    if p != [] {
      var n := |p| - 1;
      CfbEncryptSolves(f, iv, p[..n]);
      CfbExtend(f, iv, p[..n], CfbEncrypt(f, iv, p[..n]), p[n]);
      assert p == p[..n] + [p[n]];
    }
  }

  /** Decryption reads the whole key stream off the ciphertext. */
  function CfbDecrypt(f: Block -> Block, iv: Block, c: seq<byte>): (p: seq<byte>)
  {
    seq(|c|, j requires 0 <= j < |c| => Xor(c[j], KeyStream(f, iv, c, j)))
  }

  /** The key stream at `j` is determined by the ciphertext before `j`. */
  lemma {:induction false} KeyStreamCut(f: Block -> Block, iv: Block, c: seq<byte>, j: nat, n: nat)
    requires j <= n <= |c|
    ensures KeyStream(f, iv, c[..n], j) == KeyStream(f, iv, c, j)
    decreases j
  {
    if j >= BLOCK {
      KeyStreamCut(f, c[..BLOCK], c[BLOCK..], j - BLOCK, n - BLOCK);
      assert c[..n][..BLOCK] == c[..BLOCK] && c[..n][BLOCK..] == c[BLOCK..][..n - BLOCK];
    }
  }

  lemma {:induction false} SolutionsAgree(
      f: Block -> Block, iv: Block, p: seq<byte>, c: seq<byte>, d: seq<byte>, n: nat)
    requires IsCfb(f, iv, p, c) && IsCfb(f, iv, p, d) && n <= |p|
    ensures c[..n] == d[..n]
    decreases n
  {
    if n > 0 {
      SolutionsAgree(f, iv, p, c, d, n - 1);
      KeyStreamCut(f, iv, c, n - 1, n - 1);
      KeyStreamCut(f, iv, d, n - 1, n - 1);
      assert c[n - 1] == d[n - 1];
      assert c[..n] == c[..n - 1] + [c[n - 1]] && d[..n] == d[..n - 1] + [d[n - 1]];
    }
  }

  /** The equations have one solution: CFB is a function of the plaintext. */
  lemma CfbUnique(f: Block -> Block, iv: Block, p: seq<byte>, c: seq<byte>)
    requires IsCfb(f, iv, p, c)
    ensures c == CfbEncrypt(f, iv, p)
  {
    var d := CfbEncrypt(f, iv, p);
    CfbEncryptSolves(f, iv, p);
    SolutionsAgree(f, iv, p, c, d, |p|);
    assert c == c[..|p|] && d == d[..|p|];
  }

  /** CFB decryption inverts CFB encryption for every block function, vector and length. */
  lemma CfbRoundTrip(f: Block -> Block, iv: Block, p: seq<byte>)
    ensures CfbDecrypt(f, iv, CfbEncrypt(f, iv, p)) == p
  {
    var c := CfbEncrypt(f, iv, p);
    CfbEncryptSolves(f, iv, p);
    forall j | 0 <= j < |p|
      ensures CfbDecrypt(f, iv, c)[j] == p[j]
    {
      XorTwice(p[j], KeyStream(f, iv, c, j));
    }
  }

  lemma RegisterNext(iv: Block, d: seq<byte>, k: nat)
    requires |d| == 16 * k + BLOCK
    ensures Register(iv, d, k + 1) == d[|d| - BLOCK..]
  {
  }

  lemma RegisterStays(iv: Block, d: seq<byte>, x: byte, k: nat)
    requires 16 * k <= |d|
    ensures Register(iv, d + [x], k) == Register(iv, d, k)
  {
  }

  /** The next byte of the stream extends the ciphertext and leaves the register alone. */
  lemma NextByte(f: Block -> Block, iv: Block, src: seq<byte>, j: nat, d: seq<byte>, k: nat, used: nat)
    requires j < |src| && j == 16 * k + used && used < BLOCK && IsCfb(f, iv, src[..j], d)
    ensures var x := Xor(src[j], f(Register(iv, d, k))[used]);
            && IsCfb(f, iv, src[..j + 1], d + [x])
            && Register(iv, d + [x], k) == Register(iv, d, k)
  {
    var x := Xor(src[j], f(Register(iv, d, k))[used]);
    KeyStreamAt(f, iv, d, k, used);
    CfbExtend(f, iv, src[..j], d, src[j]);
    assert src[..j + 1] == src[..j] + [src[j]];
    RegisterStays(iv, d, x, k);
  }

  /** XORKeyStream of the encrypting stream: fills `dst` in place, feeding its own output back. */
  method XorKeyStreamEncrypt(f: Block -> Block, iv: Block, dst: array<byte>, src: seq<byte>)
    requires dst.Length == |src|
    modifies dst
    ensures dst[..] == CfbEncrypt(f, iv, src)
  {
    var out: Block := f(iv);
    var k, used, j := 0, 0, 0;
    while j < |src|
      invariant 0 <= j <= |src| && j == 16 * k + used && used <= BLOCK
      invariant out == f(Register(iv, dst[..j], k))
      invariant IsCfb(f, iv, src[..j], dst[..j])
    {
      ghost var d := dst[..j];
      if used == BLOCK {
        out := f(dst[..j][j - BLOCK..]);
        RegisterNext(iv, d, k);
        k, used := k + 1, 0;
      }
      NextByte(f, iv, src, j, d, k, used);
      dst[j] := Xor(src[j], out[used]);
      assert dst[..j + 1] == d + [dst[j]];
      used, j := used + 1, j + 1;
    }
    assert src[..j] == src && dst[..j] == dst[..];
    CfbUnique(f, iv, src, dst[..]);
  }

  /** XORKeyStream of the decrypting stream: the feedback is the incoming ciphertext. */
  method XorKeyStreamDecrypt(f: Block -> Block, iv: Block, dst: array<byte>, src: seq<byte>)
    requires dst.Length == |src|
    modifies dst
    ensures dst[..] == CfbDecrypt(f, iv, src)
  {
    var out: Block := f(iv);
    var k, used, j := 0, 0, 0;
    while j < |src|
      invariant 0 <= j <= |src| && j == 16 * k + used && used <= BLOCK
      invariant out == f(Register(iv, src, k))
      invariant forall i :: 0 <= i < j ==> dst[i] == Xor(src[i], KeyStream(f, iv, src, i))
    {
      if used == BLOCK {
        out := f(src[16 * k..j]);
        k, used := k + 1, 0;
      }
      KeyStreamAt(f, iv, src, k, used);
      dst[j] := Xor(src[j], out[used]);
      used, j := used + 1, j + 1;
    }
  }

  // ----- the two operations on text -----

  /** aes.NewCipher accepts keys of 16, 24 and 32 bytes. */
  predicate IsKeySize(n: nat)
  {
    n == 16 || n == 24 || n == 32
  }

  function Encrypted(cipher: Cipher, text: Text, secret: seq<byte>, salt: Text): Result<Text>
  {
    if !IsKeySize(|secret|) then Err(KeySize)
    else if |salt| < BLOCK then Err(Panic)
    else Ok(Base64.Encode(CfbEncrypt(b => cipher(secret, b), salt[..BLOCK], text)))
  }

  /** B64Decode logs a corrupt input and returns no bytes. */
  function B64Decode(s: Text): seq<byte>
  {
    match Base64.Decode(s)
    case None => []
    case Some(b) => b
  }

  function Decrypted(cipher: Cipher, text: Text, secret: seq<byte>, salt: Text): Result<Text>
  {
    if !IsKeySize(|secret|) then Err(KeySize)
    else if |salt| < BLOCK then Err(Panic)
    else Ok(CfbDecrypt(b => cipher(secret, b), salt[..BLOCK], B64Decode(text)))
  }

  /** Encrypt: slicing a salt shorter than a block is a run-time panic. */
  method Encrypt(cipher: Cipher, text: Text, secret: seq<byte>, salt: Text) returns (r: Result<Text>)
    ensures r == Encrypted(cipher, text, secret, salt)
    ensures r.Ok? <==> |secret| in {16, 24, 32} && |salt| >= 16
    ensures r == Err(KeySize) <==> |secret| !in {16, 24, 32}
    ensures r.Err? && r != Err(KeySize) ==> r == Err(Panic)
    ensures r.Ok? ==> Decrypted(cipher, r.value, secret, salt) == Ok(text)
  {
    EncryptedRoundTrip(cipher, text, secret, salt);
    if !IsKeySize(|secret|) {
      return Err(KeySize);
    }
    if |salt| < BLOCK {
      return Err(Panic);
    }
    var cipherText := new byte[|text|];
    XorKeyStreamEncrypt(b => cipher(secret, b), salt[..BLOCK], cipherText, text);
    return Ok(Base64.Encode(cipherText[..]));
  }

  /** Decrypt. */
  method Decrypt(cipher: Cipher, text: Text, secret: seq<byte>, salt: Text) returns (r: Result<Text>)
    ensures r == Decrypted(cipher, text, secret, salt)
    ensures r.Ok? <==> |secret| in {16, 24, 32} && |salt| >= 16
    ensures r == Err(KeySize) <==> |secret| !in {16, 24, 32}
    ensures r.Err? && r != Err(KeySize) ==> r == Err(Panic)
  {
    if !IsKeySize(|secret|) {
      return Err(KeySize);
    }
    var cipherText := B64Decode(text);
    if |salt| < BLOCK {
      return Err(Panic);
    }
    var plainText := new byte[|cipherText|];
    XorKeyStreamDecrypt(b => cipher(secret, b), salt[..BLOCK], plainText, cipherText);
    return Ok(plainText[..]);
  }

  lemma CfbDecryptSolves(f: Block -> Block, iv: Block, c: seq<byte>)
    ensures IsCfb(f, iv, CfbDecrypt(f, iv, c), c)
  {
    var p := CfbDecrypt(f, iv, c);
    forall j | 0 <= j < |p|
      ensures c[j] == Xor(p[j], KeyStream(f, iv, c, j))
    {
      XorTwice(c[j], KeyStream(f, iv, c, j));
    }
  }

  /** The cipher runs under the host key, from the first block of the salt, over exactly the text. */
  lemma EncryptedIsCfb(cipher: Cipher, text: Text, secret: seq<byte>, salt: Text)
    ensures var e := Encrypted(cipher, text, secret, salt);
            e.Ok? ==>
              && |salt| >= BLOCK && Base64.Decode(e.value).Some?
              && IsCfb(b => cipher(secret, b), salt[..BLOCK], text, Base64.Decode(e.value).value)
  {
    if |salt| >= BLOCK {
      var f: Block -> Block := b => cipher(secret, b);
      Base64.RoundTrip(CfbEncrypt(f, salt[..BLOCK], text));
      CfbEncryptSolves(f, salt[..BLOCK], text);
    }
  }

  /** What any base64 text decrypts to is the one plaintext of its bytes, and corrupt base64 decrypts to nothing. */
  lemma DecryptedIsCfb(cipher: Cipher, text: Text, secret: seq<byte>, salt: Text)
    ensures var p, c := Decrypted(cipher, text, secret, salt), Base64.Decode(text);
            p.Ok? ==>
              && |salt| >= BLOCK
              && (c.Some? ==> IsCfb(b => cipher(secret, b), salt[..BLOCK], p.value, c.value))
              && (c.None? ==> p.value == [])
  {
    if |salt| >= BLOCK {
      CfbDecryptSolves(b => cipher(secret, b), salt[..BLOCK], B64Decode(text));
    }
  }

  /** Decrypting what was encrypted restores the text, and the base64 error branch is not taken on the way. */
  lemma EncryptedRoundTrip(cipher: Cipher, text: Text, secret: seq<byte>, salt: Text)
    ensures Encrypted(cipher, text, secret, salt).Ok? <==> IsKeySize(|secret|) && |salt| >= BLOCK
    ensures Encrypted(cipher, text, secret, salt).Ok? ==>
              var e := Encrypted(cipher, text, secret, salt).value;
              Base64.Decode(e).Some? && Decrypted(cipher, e, secret, salt) == Ok(text)
  {
    if IsKeySize(|secret|) && |salt| >= BLOCK {
      var f: Block -> Block := b => cipher(secret, b);
      var c := CfbEncrypt(f, salt[..BLOCK], text);
      Base64.RoundTrip(c);
      CfbRoundTrip(f, salt[..BLOCK], text);
    }
  }
}
