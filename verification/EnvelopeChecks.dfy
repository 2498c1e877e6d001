/** What the envelopes of `src/client/encryption.ts` accept: the frames byte by byte, and for
    every check the exact condition under which a message passes it. */
module EnvelopeChecks {
  import opened Common
  import opened Merkle
  import opened FileStorage
  import opened Envelope

  /** The prologues in full, in UTF-8: PN^ENC, the common tail, and PLAIN, ASYMM, CONT or
      RAWASYMM. */
  lemma PrologueBytes()
    ensures Plain() ==
      [0x50, 0x4E, 0x5E, 0x45, 0x4E, 0x43, 0x05, 0x24, 0x06, 0x7A, 0xC3, 0xB5, 0x2A, 0x50, 0x4C, 0x41, 0x49, 0x4E]
    ensures Asymm() ==
      [0x50, 0x4E, 0x5E, 0x45, 0x4E, 0x43, 0x05, 0x24, 0x06, 0x7A, 0xC3, 0xB5, 0x2A, 0x41, 0x53, 0x59, 0x4D, 0x4D]
    ensures Cont() ==
      [0x50, 0x4E, 0x5E, 0x45, 0x4E, 0x43, 0x05, 0x24, 0x06, 0x7A, 0xC3, 0xB5, 0x2A, 0x43, 0x4F, 0x4E, 0x54]
    ensures RawAsymm() ==
      [0x50, 0x4E, 0x5E, 0x45, 0x4E, 0x43, 0x05, 0x24, 0x06, 0x7A, 0xC3, 0xB5, 0x2A]
      + [0x52, 0x41, 0x57, 0x41, 0x53, 0x59, 0x4D, 0x4D]
  {
  }

  /** PN^SIGN ... INNER and OUTER, and that of info chunks, PN^CHUNK ... INFO. */
  lemma SignedPrologueBytes()
    ensures Inner() ==
      [0x50, 0x4E, 0x5E, 0x53, 0x49, 0x47, 0x4E, 0x05, 0x24, 0x06, 0x7A, 0xC3, 0xB5, 0x2A]
      + [0x49, 0x4E, 0x4E, 0x45, 0x52]
    ensures Outer() ==
      [0x50, 0x4E, 0x5E, 0x53, 0x49, 0x47, 0x4E, 0x05, 0x24, 0x06, 0x7A, 0xC3, 0xB5, 0x2A]
      + [0x4F, 0x55, 0x54, 0x45, 0x52]
    ensures InfoPrologue() ==
      [0x50, 0x4E, 0x5E, 0x43, 0x48, 0x55, 0x4E, 0x4B, 0x05, 0x24, 0x06, 0x7A, 0xC3, 0xB5, 0x2A]
      + [0x49, 0x4E, 0x46, 0x4F]
  {
  }

  // ------------------------------------------------------------------------ signatures

  /** Where the padding of a signature ends. */
  lemma {:induction false} PaddingEnds(signature: Bytes) returns (n: nat)
    ensures n <= |signature| && Unpad(signature) == signature[n..]
    ensures forall i :: 0 <= i < n ==> signature[i] == 0xFF
    ensures n < |signature| ==> signature[n] != 0xFF
  {
    if signature != [] && signature[0] == 0xFF {
      var m := PaddingEnds(signature[1..]);
      n := m + 1;
      assert signature[1..][m..] == signature[n..];
    } else {
      n := 0;
    }
  }

  /** A signature of `n` bytes of padding and then a DER signature that verifies. */
  ghost predicate VerifiesBehind(c: Crypto, data: Bytes, signature: Bytes, pub: Bytes, n: nat) {
    && n < |signature| && (forall i :: 0 <= i < n ==> signature[i] == 0xFF)
    && signature[n] == 0x30 && c.verify([4] + pub, c.env.hash(data), signature[n..])
  }

  /** A signature is accepted exactly if, behind its padding, it starts as DER does and the
      signature scheme accepts it for the hash of the data and the key with its leading 4. */
  lemma SignatureAcceptedIff(c: Crypto, data: Bytes, signature: Bytes, pub: Bytes)
    ensures VerifyData(c, data, signature, pub).Good?
      <==> exists n :: VerifiesBehind(c, data, signature, pub, n)
    ensures VerifyData(c, data, signature, pub).Bad? ==> VerifyData(c, data, signature, pub).why == BadSignature
  {
    var n := PaddingEnds(signature);
    if VerifyData(c, data, signature, pub).Good? {
      assert VerifiesBehind(c, data, signature, pub, n);
    }
    forall m | VerifiesBehind(c, data, signature, pub, m) ensures m == n {
    }
  }

  /** The bytes of a signed message. */
  ghost predicate IsSignedFrame(b: Bytes, identity: Bytes, hostHash: Bytes, data: Bytes, signature: Bytes) {
    && |signature| == 75 && 0 !in identity
    && b == Outer() + signature + (Inner() + identity + [0] + hostHash + data)
  }

  /** A message whose identity ends is accepted exactly if it is a signed frame for this host
      with a signature of its signed part by the key that the name service has for the
      identity, and that key has 64 bytes which are not all zero. */
  lemma MessageAcceptedIff(c: Crypto, host: Bytes, b: Bytes, v: Verified)
    requires FixedLength(c.env.hash)
    requires NulFrom(Slice(b, 94, |b|), 19) != -1
    ensures Verify(c, host, b) == Good(v) <==>
      var signature, pub := Slice(b, 19, 94), c.keyOf(v.identity);
      && v.host == host && IsSignedFrame(b, v.identity, c.env.hash(host), v.data, signature)
      && |pub| == 64 && (exists i :: 0 <= i < 64 && pub[i] != 0)
      && exists n :: VerifiesBehind(c, Slice(b, 94, |b|), signature, pub, n)
  {
    hide Inner, Outer, VerifyData, Unpad, NulFrom;
    var signature, combined, pub := Slice(b, 19, 94), Slice(b, 94, |b|), c.keyOf(v.identity);
    SignatureAcceptedIff(c, combined, signature, pub);
    NonZero(pub, 64);
    if Verify(c, host, b) == Good(v) {
      AcceptedParts(c, host, b, v);
    }
    if v.host == host && IsSignedFrame(b, v.identity, c.env.hash(host), v.data, signature) {
      FramedParts(c, host, b, v);
    }
  }

  lemma NonZero(key: Bytes, n: nat)
    ensures |key| == n ==> (key != Zeros(n) <==> exists i :: 0 <= i < n && key[i] != 0)
  {
    if |key| == n && forall i :: 0 <= i < n ==> key[i] == 0 {
      assert key == Zeros(n);
    }
  }

  lemma AcceptedParts(c: Crypto, host: Bytes, b: Bytes, v: Verified)
    requires Verify(c, host, b) == Good(v) && FixedLength(c.env.hash)
    requires NulFrom(Slice(b, 94, |b|), 19) != -1
    ensures var pub := c.keyOf(v.identity);
      && v.host == host && IsSignedFrame(b, v.identity, c.env.hash(host), v.data, Slice(b, 19, 94))
      && |pub| == 64 && pub != Zeros(64) && VerifyData(c, Slice(b, 94, |b|), Slice(b, 19, 94), pub).Good?
  {
    hide Inner, Outer, VerifyData, NulFrom, Zeros, VerifyCombined;
    PlainLength();
    var signature, combined := Slice(b, 19, 94), Slice(b, 94, |b|);
    CombinedAccepted(c, host, signature, combined, v);
    assert b == b[0..19] + b[19..94] + b[94..];
    assert Slice(b, 0, 19) == b[0..19] == Outer();
  }

  lemma CombinedAccepted(c: Crypto, host: Bytes, signature: Bytes, combined: Bytes, v: Verified)
    requires VerifyCombined(c, host, signature, combined) == Good(v) && FixedLength(c.env.hash)
    requires NulFrom(combined, 19) != -1
    ensures var pub := c.keyOf(v.identity);
      && v.host == host && 0 !in v.identity
      && combined == Inner() + v.identity + [0] + c.env.hash(host) + v.data && |combined| > 19
      && |pub| == 64 && pub != Zeros(64) && VerifyData(c, combined, signature, pub).Good?
  {
    hide VerifyCombined, Inner, VerifyData, NulFrom, Zeros, Slice;
    CombinedChecks(c, host, signature, combined, v);
    var end := NulFrom(combined, 19);
    CutParts(combined, end, c.env.hash(host));
    assert 0 !in combined[19..end];
  }

  lemma CombinedChecks(c: Crypto, host: Bytes, signature: Bytes, combined: Bytes, v: Verified)
    requires VerifyCombined(c, host, signature, combined) == Good(v)
    ensures var pub, end := c.keyOf(v.identity), NulFrom(combined, 19);
      && Slice(combined, 0, 19) == Inner() && Slice(combined, end + 1, end + 33) == c.env.hash(host)
      && v == Verified(Slice(combined, 19, end), host, Slice(combined, end + 33, |combined|))
      && |pub| == 64 && pub != Zeros(64) && VerifyData(c, combined, signature, pub).Good?
  {
    hide Inner, VerifyData, NulFrom, Zeros, Slice;
  }

  lemma CutParts(b: Bytes, end: nat, hostHash: Bytes)
    requires 19 <= end < |b| && b[end] == 0 && |hostHash| == 32 && Slice(b, end + 1, end + 33) == hostHash
    ensures b == Slice(b, 0, 19) + Slice(b, 19, end) + [0] + hostHash + Slice(b, end + 33, |b|)
    ensures Slice(b, 19, end) == b[19..end]
  {
    assert |b| >= end + 33;
    InFiveParts(b, end);
  }

  lemma InFiveParts(b: Bytes, end: nat)
    requires 19 <= end && end + 33 <= |b| && b[end] == 0
    ensures b == b[0..19] + b[19..end] + [0] + b[end + 1..end + 33] + b[end + 33..]
  {
  }

  lemma FramedParts(c: Crypto, host: Bytes, b: Bytes, v: Verified)
    requires FixedLength(c.env.hash) && v.host == host
    requires IsSignedFrame(b, v.identity, c.env.hash(host), v.data, Slice(b, 19, 94))
    ensures var pub := c.keyOf(v.identity);
      |pub| == 64 && pub != Zeros(64) && VerifyData(c, Slice(b, 94, |b|), Slice(b, 19, 94), pub).Good? ==>
        Verify(c, host, b) == Good(v)
  {
    hide Inner, Outer, VerifyData, NulFrom, Zeros, Verify;
    PlainLength();
    var combined := Combined(v.identity, c.env.hash(host), v.data);
    FrameVerifies(c, host, Slice(b, 19, 94), combined);
    CombinedParts(v.identity, c.env.hash(host), v.data);
    assert |Outer() + Slice(b, 19, 94)| == 94;
    assert b == (Outer() + Slice(b, 19, 94)) + combined;
    assert Slice(b, 94, |b|) == combined;
  }

  /** Whatever its form, also with an identity that does not end: a message that is accepted
      carries a signature of its signed part by the key of the identity it is said to be from. */
  lemma AcceptedIsSigned(c: Crypto, host: Bytes, b: Bytes)
    requires Verify(c, host, b).Good?
    ensures var v := Verify(c, host, b).value;
      && v.host == host && |c.keyOf(v.identity)| == 64
      && exists n :: VerifiesBehind(c, Slice(b, 94, |b|), Slice(b, 19, 94), c.keyOf(v.identity), n)
  {
    hide Inner, Outer, NulFrom, Zeros, VerifyData;
    var v := Verify(c, host, b).value;
    SignatureAcceptedIff(c, Slice(b, 94, |b|), Slice(b, 19, 94), c.keyOf(v.identity));
  }

  // ------------------------------------------------------------------------ the ciphers

  /** An encrypted frame is 12 bytes of iv, 16 of tag, and the ciphertext, and what opens is
      what the cipher opens of these. */
  lemma SealFrameParts(c: Crypto, key: Bytes, iv: Bytes, tag: Bytes, text: Bytes, plain: Bytes)
    requires |iv| == 12 && |tag| == 16
    ensures c.seal(key, iv, plain) == (tag, text) ==> SealFrame(c, key, iv, plain) == iv + tag + text
    ensures OpenFrame(c, key, iv + tag + text) == c.open(key, iv, tag, text)
  {
    var frame := iv + tag + text;
    assert frame[0..12] == iv && frame[12..28] == tag && frame[28..|frame|] == text;
  }

  /** Asymmetric decryption gives a plaintext exactly for the frame of some sealed parts that
      the private key opens to that plaintext behind its prologue. */
  lemma DecryptRawIff(c: Crypto, b: Bytes, priv: Bytes, p: Bytes)
    ensures DecryptRaw(c, b, priv) == Good(p)
      <==> exists x :: HasShape(x) && b == RawFrame(x) && c.decrypt(priv, x) == Some(Plain() + p)
  {
    hide Plain, RawFrame, HasShape, ParseRaw;
    PlainLength();
    forall x ensures ParseRaw(b) == Good(x) <==> HasShape(x) && b == RawFrame(x) {
      RawFrameIff(b, x);
    }
    if DecryptRaw(c, b, priv) == Good(p) {
      var x := ParseRaw(b).value;
      var q := c.decrypt(priv, x).value;
      assert Slice(q, 0, 18) == q[0..18] == Plain() && q == q[0..18] + q[18..] && p == q[18..];
      assert HasShape(x) && b == RawFrame(x) && c.decrypt(priv, x) == Some(Plain() + p);
    }
    forall x | HasShape(x) && b == RawFrame(x) && c.decrypt(priv, x) == Some(Plain() + p)
      ensures DecryptRaw(c, b, priv) == Good(p)
    {
      assert ParseRaw(b) == Good(x);
      assert (Plain() + p)[0..18] == Plain() && (Plain() + p)[18..|Plain() + p|] == p;
    }
  }

  /** The container that can be opened: its key is the recipient's, the key info says where
      the data is and how it was encrypted, and that is for this host. */
  ghost predicate Opens(c: Crypto, s: Store, host: Bytes, id: Bytes, priv: Bytes, data: Bytes,
                        sealed: Bytes, key: Bytes, fileId: Bytes, frame: Bytes) {
    && GetFile(c.env, s, id) == Ok(Cont() + c.env.hash(PublicKey(c, priv)) + sealed)
    && |key| == 32 && |fileId| == 32
    && DecryptRaw(c, sealed, priv) == Good(Asymm() + key + fileId + c.env.hash(host))
    && GetFile(c.env, s, fileId) == Ok(frame) && OpenFrame(c, key, frame) == Some(data)
  }

  /** Data is downloaded and decrypted exactly from such a container. */
  lemma DownloadDecryptIff(c: Crypto, s: Store, host: Bytes, id: Bytes, priv: Bytes, data: Bytes)
    requires FixedLength(c.env.hash) && KeyLaw(c)
    ensures DownloadDecrypt(c, s, host, id, priv) == Good(data)
      <==> exists sealed, key, fileId, frame :: Opens(c, s, host, id, priv, data, sealed, key, fileId, frame)
  {
    hide GetFile, Cont, Asymm, DecryptRaw, OpenFrame, PublicKey, KeyLaw;
    if DownloadDecrypt(c, s, host, id, priv) == Good(data) {
      var b := GetFile(c.env, s, id).value;
      PlainLength();
      assert Slice(b, 0, 17) == b[0..17] == Cont() && Slice(b, 17, 49) == b[17..49];
      assert b == b[0..17] + b[17..49] + b[49..];
      assert Slice(b, 49, |b|) == b[49..];
      var info := DecryptRaw(c, b[49..], priv).value;
      assert |info| == 114 && info == info[0..18] + info[18..50] + info[50..82] + info[82..];
      assert Slice(info, 0, 18) == info[0..18] == Asymm() && Slice(info, 82, |info|) == info[82..];
      assert Slice(info, 18, 50) == info[18..50] && Slice(info, 50, 82) == info[50..82];
      assert info == Asymm() + info[18..50] + info[50..82] + c.env.hash(host);
      assert b == Cont() + c.env.hash(PublicKey(c, priv)) + b[49..];
      assert Opens(c, s, host, id, priv, data, b[49..], info[18..50], info[50..82],
                   GetFile(c.env, s, info[50..82]).value);
    }
    forall sealed, key, fileId, frame | Opens(c, s, host, id, priv, data, sealed, key, fileId, frame)
      ensures DownloadDecrypt(c, s, host, id, priv) == Good(data)
    {
      OpensDecrypts(c, s, host, id, priv, data, sealed, key, fileId, frame);
    }
  }

  lemma OpensDecrypts(c: Crypto, s: Store, host: Bytes, id: Bytes, priv: Bytes, data: Bytes,
                      sealed: Bytes, key: Bytes, fileId: Bytes, frame: Bytes)
    requires FixedLength(c.env.hash) && KeyLaw(c)
    requires Opens(c, s, host, id, priv, data, sealed, key, fileId, frame)
    ensures DownloadDecrypt(c, s, host, id, priv) == Good(data)
  {
    hide GetFile, Cont, Asymm, DecryptRaw, OpenFrame, PublicKey, KeyLaw;
    PlainLength();
    PublicKeyLeads(c, priv);
    var b := Cont() + c.env.hash(PublicKey(c, priv)) + sealed;
    assert b[0..17] == Cont() && b[17..49] == c.env.hash(PublicKey(c, priv)) && b[49..|b|] == sealed;
    var info := Asymm() + key + fileId + c.env.hash(host);
    assert info[0..18] == Asymm() && info[18..50] == key && info[50..82] == fileId;
    assert info[82..|info|] == c.env.hash(host);
  }

  // ------------------------------------------------------------------------ sending

  /** A random key that is all zero or has not 32 bytes encrypts nothing, and a message is
      sent only by someone with an identity to someone with a key of 64 bytes that are not
      all zero. */
  lemma SendingNeedsKeys(c: Crypto, s: Store, host: Bytes, data: Bytes, pub: Bytes, recipient: Bytes,
                         sender: Bytes, priv: Bytes, r: Random)
    requires c.env.chunkSize > 0 && LawfulCrypto(c)
    ensures EncryptUpload(c, s, host, data, pub, r).Good? <==>
      |r.key| == 32 && exists i :: 0 <= i < 32 && r.key[i] != 0
    ensures SignEncryptUpload(c, s, host, data, recipient, sender, priv, r).Good? <==>
      && sender != []
      && |c.keyOf(recipient)| == 64 && (exists i :: 0 <= i < 64 && c.keyOf(recipient)[i] != 0)
      && |r.key| == 32 && (exists i :: 0 <= i < 32 && r.key[i] != 0)
  {
    hide SealFrame, Upload, FileId, SealLaw, EncryptLaw, Container, Combined, SignData, Zeros, KeyInfo, Asymm;
    NonZero(r.key, 32);
    NonZero(c.keyOf(recipient), 64);
    EncryptsWithKey(c, s, host, data, pub, r);
    if sender != [] {
      var combined := Combined(sender, c.env.hash(host), data);
      SignedVerifies(c, combined, priv);
      EncryptsWithKey(c, s, host, Wrap(c, host, data, sender, priv).value, c.keyOf(recipient), r);
    }
  }

  lemma EncryptsWithKey(c: Crypto, s: Store, host: Bytes, data: Bytes, pub: Bytes, r: Random)
    requires c.env.chunkSize > 0 && LawfulCrypto(c)
    ensures EncryptUpload(c, s, host, data, pub, r).Good? <==> |r.key| == 32 && r.key != Zeros(32)
  {
    hide SealFrame, Upload, FileId, SealLaw, EncryptLaw, Container, Asymm, Zeros, KeyInfo;
    var frame := SealFrame(c, r.key, r.iv, data);
    FileIdLength(c.env, frame);
    if |r.key| == 32 {
      KeyInfoParts(r.key, FileId(c.env, frame), c.env.hash(host));
    }
  }
}
