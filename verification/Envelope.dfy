/** The nested envelopes of `src/client/encryption.ts`: what one identity signs, encrypts and
    uploads for another is opened and verified again. Frames are byte sequences as they are
    built; ciphers and signatures are any functions that satisfy their inverse laws. */
module Envelope {
  import opened Common
  import opened Merkle
  import opened FileStorage

  const KEY_LENGTH := 32
  const IV_LENGTH := 12
  const TAG_LENGTH := 16
  const PUBLIC_KEY_LENGTH := 64
  const SIGNATURE_LENGTH := 75

  function Magic(): Bytes { [0x50, 0x4E, 0x5E] }

  /** The common tail of all prologues, in UTF-8. */
  function MagicTail(): Bytes { [0x05, 0x24, 0x06, 0x7A, 0xC3, 0xB5, 0x2A] }

  function Plain(): Bytes { Magic() + [0x45, 0x4E, 0x43] + MagicTail() + [0x50, 0x4C, 0x41, 0x49, 0x4E] }

  function Asymm(): Bytes { Magic() + [0x45, 0x4E, 0x43] + MagicTail() + [0x41, 0x53, 0x59, 0x4D, 0x4D] }

  function Cont(): Bytes { Magic() + [0x45, 0x4E, 0x43] + MagicTail() + [0x43, 0x4F, 0x4E, 0x54] }

  function RawAsymm(): (r: Bytes)
    ensures |r| == 21
  {
    Magic() + [0x45, 0x4E, 0x43] + MagicTail() + [0x52, 0x41, 0x57, 0x41, 0x53, 0x59, 0x4D, 0x4D]
  }

  function Inner(): (r: Bytes)
    ensures |r| == 19
  {
    Magic() + [0x53, 0x49, 0x47, 0x4E] + MagicTail() + [0x49, 0x4E, 0x4E, 0x45, 0x52]
  }

  function Outer(): Bytes { Magic() + [0x53, 0x49, 0x47, 0x4E] + MagicTail() + [0x4F, 0x55, 0x54, 0x45, 0x52] }

  /** The prologue of info chunks. */
  function InfoPrologue(): Bytes {
    Magic() + [0x43, 0x48, 0x55, 0x4E, 0x4B] + MagicTail() + [0x49, 0x4E, 0x46, 0x4F]
  }

  function Boundary(): Bytes { [0xFF, 0xFF] }

  datatype Outcome<+T> = Good(value: T) | Bad(why: Why)

  datatype Why =
    | BadKey | BadPublicKey | BadLength | Missing | NoPrologue | NotAligned | WrongKey | CannotDecrypt
    | WrongHost | NoIdentity | SignatureTooLong | BadSignature

  /** What `eccrypto.encrypt` returns. */
  datatype Sealed = Sealed(iv: Bytes, ephem: Bytes, ciphertext: Bytes, mac: Bytes)

  /** Storage, the ciphers, the signatures, and the name service's key of an identity. The
      random choices are parameters. */
  datatype Crypto = Crypto(
    env: Env,
    seal: (Bytes, Bytes, Bytes) -> (Bytes, Bytes),
    open: (Bytes, Bytes, Bytes, Bytes) -> Option<Bytes>,
    publicOf: Bytes -> Bytes,
    encrypt: (Bytes, Bytes, nat) -> Sealed,
    decrypt: (Bytes, Sealed) -> Option<Bytes>,
    sign: (Bytes, Bytes) -> Bytes,
    verify: (Bytes, Bytes, Bytes) -> bool,
    keyOf: Bytes -> Bytes)

  datatype Random = Random(key: Bytes, iv: Bytes, seed: nat)

  ghost predicate SealLaw(c: Crypto) {
    forall k, iv, p ::
      var (tag, text) := c.seal(k, iv, p);
      |tag| == TAG_LENGTH && c.open(k, iv, tag, text) == Some(p)
  }

  /** Public keys carry a leading 4. */
  ghost predicate KeyLaw(c: Crypto) {
    forall priv :: |c.publicOf(priv)| == PUBLIC_KEY_LENGTH + 1 && c.publicOf(priv)[0] == 4
  }

  ghost predicate EncryptLaw(c: Crypto) {
    forall priv, p, seed ::
      var x := c.encrypt(c.publicOf(priv), p, seed);
      HasShape(x) && c.decrypt(priv, x) == Some(p)
  }

  /** Signatures are DER: at most 75 bytes, and the first is 0x30. */
  ghost predicate SignLaw(c: Crypto) {
    forall priv, h ::
      var sig := c.sign(priv, h);
      0 < |sig| <= SIGNATURE_LENGTH && sig[0] == 0x30 && c.verify(c.publicOf(priv), h, sig)
  }

  ghost predicate LawfulCrypto(c: Crypto) {
    && Lawful(c.env) && c.env.prologue == InfoPrologue() && FixedLength(c.env.hash)
    && SealLaw(c) && KeyLaw(c) && EncryptLaw(c) && SignLaw(c)
  }

  function Zeros(n: nat): Bytes {
    seq(n, i => 0)
  }

  // ------------------------------------------------------------------ the symmetric frame

  predicate UsableKey(key: Bytes) {
    |key| == KEY_LENGTH && key != Zeros(KEY_LENGTH)
  }

  /** `EncryptedData.createFromPlaintext`: iv, tag, ciphertext. */
  function SealFrame(c: Crypto, key: Bytes, iv: Bytes, plain: Bytes): Bytes {
    var (tag, text) := c.seal(key, iv, plain);
    iv + tag + text
  }

  /** `decrypt`. */
  function OpenFrame(c: Crypto, key: Bytes, frame: Bytes): Option<Bytes> {
    c.open(key, Slice(frame, 0, IV_LENGTH), Slice(frame, IV_LENGTH, IV_LENGTH + TAG_LENGTH),
           Slice(frame, IV_LENGTH + TAG_LENGTH, |frame|))
  }

  lemma OpenUndoesSeal(c: Crypto, key: Bytes, iv: Bytes, plain: Bytes)
    requires SealLaw(c) && |iv| == IV_LENGTH
    ensures OpenFrame(c, key, SealFrame(c, key, iv, plain)) == Some(plain)
  {
    var (tag, text) := c.seal(key, iv, plain);
    var frame := SealFrame(c, key, iv, plain);
    assert |tag| == TAG_LENGTH && frame == iv + tag + text;
    assert frame[0..12] == iv && frame[12..28] == tag && frame[28..|frame|] == text;
  }

  // ------------------------------------------------------------------ the asymmetric frame

  predicate HasShape(x: Sealed) {
    |x.iv| == 16 && |x.ephem| == 65 && |x.mac| == 32
  }

  /** The frame `encryptRawPlaintextAsymmetric` builds. */
  function RawFrame(x: Sealed): Bytes {
    RawAsymm() + Boundary() + x.iv + Boundary() + x.ephem + Boundary() + x.mac + Boundary() + x.ciphertext
  }

  /** The offsets of the fields that `decryptRawPlaintextAsymmetric` reads. */
  const IV_AT := 23
  const EPHEM_AT := 41
  const MAC_AT := 108
  const CIPHERTEXT_AT := 142

  function ParseRaw(b: Bytes): Outcome<Sealed> {
    if Slice(b, 0, 21) != RawAsymm() then Bad(NoPrologue)
    else if Slice(b, 21, IV_AT) != Boundary() then Bad(NotAligned)
    else if Slice(b, IV_AT + 16, EPHEM_AT) != Boundary() then Bad(NotAligned)
    else if Slice(b, EPHEM_AT + 65, MAC_AT) != Boundary() then Bad(NotAligned)
    else if Slice(b, MAC_AT + 32, CIPHERTEXT_AT) != Boundary() then Bad(NotAligned)
    else Good(Sealed(Slice(b, IV_AT, IV_AT + 16), Slice(b, EPHEM_AT, EPHEM_AT + 65),
                     Slice(b, CIPHERTEXT_AT, |b|), Slice(b, MAC_AT, MAC_AT + 32)))
  }

  /** The frame's parts in order, and where they end. */
  lemma RawFrameParts(x: Sealed)
    requires HasShape(x)
    ensures var b := RawFrame(x);
      && |b| == CIPHERTEXT_AT + |x.ciphertext|
      && b[0..21] == RawAsymm() && b[21..23] == Boundary() && b[23..39] == x.iv && b[39..41] == Boundary()
      && b[41..106] == x.ephem && b[106..108] == Boundary() && b[108..140] == x.mac && b[140..142] == Boundary()
      && b[142..|b|] == x.ciphertext
  {
  }

  /** Parser and printer of the asymmetric frame undo each other: a byte sequence parses
      exactly if it is the frame of what it parses to. */
  lemma RawFrameIff(b: Bytes, x: Sealed)
    ensures ParseRaw(b) == Good(x) <==> HasShape(x) && b == RawFrame(x)
  {
    hide RawAsymm;
    if HasShape(x) && b == RawFrame(x) {
      RawFrameParts(x);
    }
    if ParseRaw(b) == Good(x) {
      RawFrameOf(b, x);
    }
  }

  lemma RawFrameOf(b: Bytes, x: Sealed)
    requires ParseRaw(b) == Good(x)
    ensures HasShape(x) && b == RawFrame(x)
  {
    hide RawAsymm;
    assert |b| >= CIPHERTEXT_AT;
    assert b == b[..21] + b[21..23] + b[23..39] + b[39..41] + b[41..106] + b[106..108]
      + b[108..140] + b[140..142] + b[142..];
  }

  /** `encryptRawPlaintextAsymmetric`, for a public key without its leading 4. */
  function EncryptRaw(c: Crypto, plain: Bytes, pub: Bytes, seed: nat): Bytes {
    RawFrame(c.encrypt([4] + pub, Plain() + plain, seed))
  }

  /** `decryptRawPlaintextAsymmetric`. */
  function DecryptRaw(c: Crypto, b: Bytes, priv: Bytes): Outcome<Bytes> {
    match ParseRaw(b)
    case Bad(why) => Bad(why)
    case Good(x) =>
      match c.decrypt(priv, x)
      case None => Bad(CannotDecrypt)
      case Some(p) => if Slice(p, 0, 18) != Plain() then Bad(NoPrologue) else Good(Slice(p, 18, |p|))
  }

  function PublicKey(c: Crypto, priv: Bytes): Bytes {
    Slice(c.publicOf(priv), 1, |c.publicOf(priv)|)
  }

  lemma DecryptUndoesEncrypt(c: Crypto, plain: Bytes, priv: Bytes, seed: nat)
    requires KeyLaw(c) && EncryptLaw(c)
    ensures DecryptRaw(c, EncryptRaw(c, plain, PublicKey(c, priv), seed), priv) == Good(plain)
  {
    hide ParseRaw, RawFrame, Plain, HasShape;
    var pub := c.publicOf(priv);
    assert [4] + pub[1..|pub|] == pub;
    var p := Plain() + plain;
    var x := c.encrypt(pub, p, seed);
    RawFrameIff(RawFrame(x), x);
    PlainLength();
    assert p[0..18] == Plain() && p[18..|p|] == plain;
  }

  lemma PlainLength()
    ensures |Plain()| == 18 && |Asymm()| == 18 && |Cont()| == 17 && |Outer()| == 19
  {
  }

  // ------------------------------------------------------------------ the container

  /** What is encrypted for the recipient: where the data is, its key, and for which host. */
  function KeyInfo(key: Bytes, fileId: Bytes, hostHash: Bytes): Bytes {
    Asymm() + key + fileId + hostHash
  }

  /** The second file of `encryptAndUploadDataAsymmetric`. */
  function Container(c: Crypto, host: Bytes, frame: Bytes, pub: Bytes, r: Random): Bytes
    requires c.env.chunkSize > 0
  {
    var info := KeyInfo(r.key, FileId(c.env, frame), c.env.hash(host));
    Cont() + c.env.hash(pub) + EncryptRaw(c, info, pub, r.seed)
  }

  /** `encryptAndUploadDataAsymmetric`: the encrypted data and the container are uploaded. */
  function EncryptUpload(c: Crypto, s: Store, host: Bytes, data: Bytes, pub: Bytes, r: Random): Outcome<(Store, Bytes)>
    requires c.env.chunkSize > 0
  {
    if !UsableKey(r.key) then Bad(BadKey)
    else
      var frame := SealFrame(c, r.key, r.iv, data);
      var s1 := Upload(c.env, s, frame);
      if |KeyInfo(r.key, FileId(c.env, frame), c.env.hash(host))| != 18 + 32 + 32 + 32 then Bad(BadLength)
      else
        var container := Container(c, host, frame, pub, r);
        Good((Upload(c.env, s1, container), FileId(c.env, container)))
  }

  /** `downloadAndDecryptFile`. */
  function DecryptFile(c: Crypto, s: Store, key: Bytes, fileId: Bytes): Outcome<Bytes> {
    match GetFile(c.env, s, fileId)
    case Err(_) => Bad(Missing)
    case Ok(frame) => match OpenFrame(c, key, frame) { case None => Bad(CannotDecrypt) case Some(p) => Good(p) }
  }

  /** The checks on the decrypted key info, and the data it leads to. */
  function OpenKeyInfo(c: Crypto, s: Store, host: Bytes, info: Bytes): Outcome<Bytes> {
    if Slice(info, 0, 18) != Asymm() then Bad(NoPrologue)
    else if |info| != 18 + 32 + 32 + 32 then Bad(BadLength)
    else if c.env.hash(host) != Slice(info, 82, |info|) then Bad(WrongHost)
    else DecryptFile(c, s, Slice(info, 18, 50), Slice(info, 50, 82))
  }

  /** `downloadAndDecryptDataAsymmetric`. */
  function DownloadDecrypt(c: Crypto, s: Store, host: Bytes, id: Bytes, priv: Bytes): Outcome<Bytes> {
    match GetFile(c.env, s, id)
    case Err(_) => Bad(Missing)
    case Ok(b) =>
      if Slice(b, 0, 17) != Cont() then Bad(NoPrologue)
      else if c.publicOf(priv) == [] || c.publicOf(priv)[0] != 4 then Bad(BadPublicKey)
      else if c.env.hash(PublicKey(c, priv)) != Slice(b, 17, 49) then Bad(WrongKey)
      else
        match DecryptRaw(c, Slice(b, 49, |b|), priv)
        case Bad(why) => Bad(why)
        case Good(info) => OpenKeyInfo(c, s, host, info)
  }

  /** The container never starts like an info chunk. */
  lemma NotAnInfoChunk(b: Bytes)
    requires Cont() <= b
    ensures !(InfoPrologue() <= b)
  {
    assert Cont()[3] == 0x45 && InfoPrologue()[3] == 0x43;
  }

  lemma KeyInfoParts(key: Bytes, fileId: Bytes, hostHash: Bytes)
    requires |key| == 32 && |fileId| == 32 && |hostHash| == 32
    ensures var b := KeyInfo(key, fileId, hostHash);
      && |b| == 114 && b[0..18] == Asymm() && b[18..50] == key && b[50..82] == fileId && b[82..|b|] == hostHash
  {
  }

  lemma ContainerParts(c: Crypto, host: Bytes, frame: Bytes, pub: Bytes, r: Random)
    requires c.env.chunkSize > 0 && FixedLength(c.env.hash)
    ensures var b := Container(c, host, frame, pub, r);
      var info := KeyInfo(r.key, FileId(c.env, frame), c.env.hash(host));
      && Cont() <= b && |b| >= 49
      && b[0..17] == Cont() && b[17..49] == c.env.hash(pub) && b[49..|b|] == EncryptRaw(c, info, pub, r.seed)
  {
  }

  /** A stored container, opened by its recipient for any host. */
  lemma OpenStoredContainer(c: Crypto, s: Store, host: Bytes, host': Bytes, data: Bytes, priv: Bytes, r: Random)
    requires LawfulCrypto(c) && UsableKey(r.key) && |r.iv| == IV_LENGTH
    requires var frame := SealFrame(c, r.key, r.iv, data);
      && Stocked(c.env, s, Stored(c.env, frame))
      && Stocked(c.env, s, Stored(c.env, Container(c, host, frame, PublicKey(c, priv), r)))
      && (|frame| <= c.env.chunkSize ==> !(InfoPrologue() <= frame))
    ensures var id := FileId(c.env, Container(c, host, SealFrame(c, r.key, r.iv, data), PublicKey(c, priv), r));
      DownloadDecrypt(c, s, host', id, priv)
        == if c.env.hash(host') == c.env.hash(host) then Good(data) else Bad(WrongHost)
  {
    hide Stocked, Stored, GetFile, FileId, SealFrame, OpenFrame, Container, DecryptRaw, EncryptRaw, KeyInfo;
    hide Asymm, Cont, InfoPrologue, PublicKey, SealLaw, EncryptLaw, SignLaw, UsableKey;
    var frame := SealFrame(c, r.key, r.iv, data);
    var pub := PublicKey(c, priv);
    var b := Container(c, host, frame, pub, r);
    var info := KeyInfo(r.key, FileId(c.env, frame), c.env.hash(host));
    ContainerParts(c, host, frame, pub, r);
    NotAnInfoChunk(b);
    StoredReadsBack(c.env, s, b);
    StoredReadsBack(c.env, s, frame);
    DecryptUndoesEncrypt(c, info, priv, r.seed);
    FileIdLength(c.env, frame);
    KeyOk(r.key);
    KeyInfoParts(r.key, FileId(c.env, frame), c.env.hash(host));
    OpenUndoesSeal(c, r.key, r.iv, data);
    PublicKeyLeads(c, priv);
  }

  lemma FileIdLength(env: Env, buf: Bytes)
    requires FixedLength(env.hash) && env.chunkSize > 0
    ensures |FileId(env, buf)| == HASH_LENGTH
    ensures forall h :: |env.hash(h)| == HASH_LENGTH
  {
  }

  lemma KeyOk(key: Bytes)
    requires UsableKey(key)
    ensures |key| == 32
  {
  }

  lemma PublicKeyLeads(c: Crypto, priv: Bytes)
    requires KeyLaw(c)
    ensures c.publicOf(priv) != [] && c.publicOf(priv)[0] == 4 && |PublicKey(c, priv)| == PUBLIC_KEY_LENGTH
    ensures [4] + PublicKey(c, priv) == c.publicOf(priv)
  {
  }

  /** Another recipient cannot get past the key check without a collision. */
  lemma OtherRecipientIsRejected(c: Crypto, s: Store, host: Bytes, frame: Bytes, pub: Bytes, r: Random,
                                 host': Bytes, priv': Bytes)
    requires LawfulCrypto(c)
    requires Stocked(c.env, s, Stored(c.env, Container(c, host, frame, pub, r)))
    requires PublicKey(c, priv') != pub
    ensures var result := DownloadDecrypt(c, s, host', FileId(c.env, Container(c, host, frame, pub, r)), priv');
      result == Bad(WrongKey) || Collision(c.env.hash, PublicKey(c, priv'), pub)
  {
    hide Stocked, Stored, GetFile, FileId, Container, DecryptRaw, Cont, InfoPrologue, PublicKey;
    hide SealLaw, EncryptLaw, SignLaw, OpenKeyInfo;
    var b := Container(c, host, frame, pub, r);
    ContainerParts(c, host, frame, pub, r);
    NotAnInfoChunk(b);
    StoredReadsBack(c.env, s, b);
    PublicKeyLeads(c, priv');
  }

  // ------------------------------------------------------------------ signatures

  function Pads(n: nat): Bytes {
    seq(n, i => 0xFF)
  }

  /** `signRawData`: the DER signature, padded on the left to 75 bytes. */
  function SignData(c: Crypto, data: Bytes, priv: Bytes): Outcome<Bytes> {
    var sig := c.sign(priv, c.env.hash(data));
    if |sig| > SIGNATURE_LENGTH then Bad(SignatureTooLong) else Good(Pads(SIGNATURE_LENGTH - |sig|) + sig)
  }

  /** The signature behind its padding. */
  function Unpad(signature: Bytes): Bytes {
    if signature != [] && signature[0] == 0xFF then Unpad(signature[1..]) else signature
  }

  /** `verifyRawData`. */
  function VerifyData(c: Crypto, data: Bytes, signature: Bytes, pub: Bytes): Outcome<()> {
    var der := Unpad(signature);
    if der == [] || der[0] != 0x30 then Bad(BadSignature)
    else if c.verify([4] + pub, c.env.hash(data), der) then Good(())
    else Bad(BadSignature)
  }

  lemma {:induction false} UnpadUndoesPads(n: nat, sig: Bytes)
    requires sig != [] && sig[0] != 0xFF
    ensures Unpad(Pads(n) + sig) == sig
  {
    if n == 0 {
      assert Pads(0) + sig == sig;
    } else {
      assert (Pads(n) + sig)[1..] == Pads(n - 1) + sig;
      UnpadUndoesPads(n - 1, sig);
    }
  }

  /** What was signed verifies under the signer's key. */
  lemma SignedVerifies(c: Crypto, data: Bytes, priv: Bytes)
    requires KeyLaw(c) && SignLaw(c)
    ensures SignData(c, data, priv).Good? && |SignData(c, data, priv).value| == SIGNATURE_LENGTH
    ensures VerifyData(c, data, SignData(c, data, priv).value, PublicKey(c, priv)) == Good(())
  {
    hide Unpad, PublicKey;
    var h := c.env.hash(data);
    var sig := c.sign(priv, h);
    assert 0 < |sig| <= SIGNATURE_LENGTH && sig[0] == 0x30 && c.verify(c.publicOf(priv), h, sig);
    UnpadUndoesPads(SIGNATURE_LENGTH - |sig|, sig);
    PublicKeyLeads(c, priv);
  }

  /** The signed part of a frame. */
  function Combined(identity: Bytes, hostHash: Bytes, data: Bytes): Bytes {
    Inner() + identity + [0] + hostHash + data
  }

  /** `wrapWithSignature`. */
  function Wrap(c: Crypto, host: Bytes, data: Bytes, identity: Bytes, priv: Bytes): Outcome<Bytes> {
    if identity == [] then Bad(NoIdentity)
    else
      var combined := Combined(identity, c.env.hash(host), data);
      match SignData(c, combined, priv)
      case Bad(why) => Bad(why)
      case Good(signature) => Good(Outer() + signature + combined)
  }

  /** `indexOf(0x00, from)`. */
  function NulFrom(b: Bytes, from: nat): (r: int)
    ensures r == -1 || from <= r < |b|
    ensures r >= 0 ==> b[r] == 0 && forall i :: from <= i < r ==> b[i] != 0
    ensures r == -1 ==> forall i :: from <= i < |b| ==> b[i] != 0
    decreases |b| - from
  {
    if from >= |b| then -1
    else if b[from] == 0 then from
    else NulFrom(b, from + 1)
  }

  datatype Verified = Verified(identity: Bytes, host: Bytes, data: Bytes)

  /** The checks of `downloadAndVerifySignature` on the signed part. */
  function VerifyCombined(c: Crypto, host: Bytes, signature: Bytes, combined: Bytes): Outcome<Verified> {
    if Slice(combined, 0, 19) != Inner() then Bad(NoPrologue)
    else
      var end := NulFrom(combined, 19);
      var identity := Slice(combined, 19, end);
      var pub := c.keyOf(identity);
      if c.env.hash(host) != Slice(combined, end + 1, end + 1 + 32) then Bad(WrongHost)
      else if |pub| != PUBLIC_KEY_LENGTH || pub == Zeros(PUBLIC_KEY_LENGTH) then Bad(BadPublicKey)
      else
        match VerifyData(c, combined, signature, pub)
        case Bad(why) => Bad(why)
        case Good(_) => Good(Verified(identity, host, Slice(combined, end + 1 + 32, |combined|)))
  }

  /** `downloadAndVerifySignature`. */
  function Verify(c: Crypto, host: Bytes, b: Bytes): Outcome<Verified> {
    if Slice(b, 0, 19) != Outer() then Bad(NoPrologue)
    else VerifyCombined(c, host, Slice(b, 19, 19 + SIGNATURE_LENGTH), Slice(b, 19 + SIGNATURE_LENGTH, |b|))
  }

  lemma CombinedParts(identity: Bytes, hostHash: Bytes, data: Bytes)
    requires 0 !in identity && |hostHash| == 32
    ensures var b, end := Combined(identity, hostHash, data), 19 + |identity|;
      && |b| >= end + 33 && b[0..19] == Inner() && NulFrom(b, 19) == end && b[19..end] == identity
      && b[end + 1..end + 33] == hostHash && b[end + 33..|b|] == data
  {
    hide Inner;
    var b, end := Combined(identity, hostHash, data), 19 + |identity|;
    assert b[19..end] == identity;
    assert forall i :: 19 <= i < end ==> b[i] == identity[i - 19];
    assert b[end] == 0;
  }

  /** The name service knows this as the identity's key. */
  predicate KnownAs(c: Crypto, identity: Bytes, priv: Bytes) {
    c.keyOf(identity) == PublicKey(c, priv) != Zeros(PUBLIC_KEY_LENGTH)
  }

  lemma FrameVerifies(c: Crypto, host: Bytes, signature: Bytes, combined: Bytes)
    requires |signature| == SIGNATURE_LENGTH
    ensures Verify(c, host, Outer() + signature + combined) == VerifyCombined(c, host, signature, combined)
  {
    hide Outer, VerifyCombined;
    PlainLength();
    var b := Outer() + signature + combined;
    assert b[0..19] == Outer() && b[19..94] == signature && b[94..|b|] == combined;
  }

  /** A wrapped message, verified for any host. */
  lemma VerifyUndoesWrap(c: Crypto, host: Bytes, host': Bytes, data: Bytes, identity: Bytes, priv: Bytes)
    requires KeyLaw(c) && SignLaw(c) && FixedLength(c.env.hash)
    requires identity != [] && 0 !in identity && KnownAs(c, identity, priv)
    ensures Wrap(c, host, data, identity, priv).Good?
    ensures Verify(c, host', Wrap(c, host, data, identity, priv).value) ==
      if c.env.hash(host') == c.env.hash(host) then Good(Verified(identity, host', data)) else Bad(WrongHost)
  {
    hide Inner, Outer, SignData, VerifyData, Verify, Combined, PublicKey, SignLaw, KeyLaw, NulFrom;
    var combined := Combined(identity, c.env.hash(host), data);
    SignedVerifies(c, combined, priv);
    var signature := SignData(c, combined, priv).value;
    CombinedParts(identity, c.env.hash(host), data);
    FrameVerifies(c, host', signature, combined);
    PublicKeyLeads(c, priv);
  }

  /** A frame without the byte that ends the identity is accepted only for a host whose hash
      starts with the inner prologue. */
  lemma UnterminatedIdentity(c: Crypto, host: Bytes, b: Bytes)
    requires FixedLength(c.env.hash)
    requires Verify(c, host, b).Good? && NulFrom(Slice(b, 19 + SIGNATURE_LENGTH, |b|), 19) == -1
    ensures Inner() <= c.env.hash(host)
  {
  }

  // ------------------------------------------------------------------ the whole stack

  /** `signEncryptUploadForIdentity`, from `sender` for the holder of `recipient`'s key. */
  function SignEncryptUpload(c: Crypto, s: Store, host: Bytes, data: Bytes, recipient: Bytes,
                             sender: Bytes, priv: Bytes, r: Random): Outcome<(Store, Bytes)>
    requires c.env.chunkSize > 0
  {
    match Wrap(c, host, data, sender, priv)
    case Bad(why) => Bad(why)
    case Good(signed) =>
      var pub := c.keyOf(recipient);
      if |pub| != PUBLIC_KEY_LENGTH || pub == Zeros(PUBLIC_KEY_LENGTH) then Bad(BadPublicKey)
      else EncryptUpload(c, s, host, signed, pub, r)
  }

  /** `downloadVerifyDecryptFromIdentity`. */
  function DownloadVerify(c: Crypto, s: Store, host: Bytes, id: Bytes, priv: Bytes): Outcome<Verified> {
    match DownloadDecrypt(c, s, host, id, priv)
    case Bad(why) => Bad(why)
    case Good(signed) => Verify(c, host, signed)
  }

  /** What is sent, when everything goes well. */
  function Signed(c: Crypto, host: Bytes, data: Bytes, sender: Bytes, priv: Bytes): Bytes {
    var w := Wrap(c, host, data, sender, priv);
    if w.Good? then w.value else []
  }

  predicate StaysReadable(c: Crypto, frame: Bytes) {
    |frame| <= c.env.chunkSize ==> !(InfoPrologue() <= frame)
  }

  /** Through all nested frames, and however the store grows afterwards: the recipient gets
      the sender's identity, the host and the data back, and for any other host the message
      is rejected, or the two hosts are a collision. */
  lemma EnvelopeRoundTrip(c: Crypto, s: Store, s': Store, host: Bytes, host': Bytes, data: Bytes,
                          recipient: Bytes, privR: Bytes, sender: Bytes, privS: Bytes, r: Random)
    requires LawfulCrypto(c) && UsableKey(r.key) && |r.iv| == IV_LENGTH
    requires sender != [] && 0 !in sender && KnownAs(c, sender, privS) && KnownAs(c, recipient, privR)
    requires StaysReadable(c, SealFrame(c, r.key, r.iv, Signed(c, host, data, sender, privS)))
    requires var sent := SignEncryptUpload(c, s, host, data, recipient, sender, privS, r);
      sent.Good? ==> !sent.value.0.collided && FileStorage.Extends(sent.value.0, s')
    ensures var sent := SignEncryptUpload(c, s, host, data, recipient, sender, privS, r);
      && sent.Good?
      && DownloadVerify(c, s', host, sent.value.1, privR) == Good(Verified(sender, host, data))
      && (host' != host ==>
            DownloadVerify(c, s', host', sent.value.1, privR) == Bad(WrongHost) || Collision(c.env.hash, host, host'))
  {
    hide Wrap, Verify, Upload, Container, SealFrame, PublicKey, DownloadDecrypt, KeyInfo, FileId, InfoPrologue, Stored;
    hide SealLaw, EncryptLaw;
    var signed, pub := Signed(c, host, data, sender, privS), c.keyOf(recipient);
    VerifyUndoesWrap(c, host, host, data, sender, privS);
    VerifyUndoesWrap(c, host, host', data, sender, privS);
    PublicKeyLeads(c, privR);
    var frame := SealFrame(c, r.key, r.iv, signed);
    FileIdLength(c.env, frame);
    KeyOk(r.key);
    KeyInfoParts(r.key, FileId(c.env, frame), c.env.hash(host));
    var container := Container(c, host, frame, pub, r);
    TwoUploadsStay(c.env, s, frame, container, s');
    OpenStoredContainer(c, s', host, host, signed, privR, r);
    OpenStoredContainer(c, s', host, host', signed, privR, r);
  }

  lemma TwoUploadsStay(env: Env, s: Store, a: Bytes, b: Bytes, s': Store)
    requires env.chunkSize > 0
    requires var s2 := Upload(env, Upload(env, s, a), b); !s2.collided && FileStorage.Extends(s2, s')
    ensures Stocked(env, s', Stored(env, a)) && Stocked(env, s', Stored(env, b))
  {
    hide Stored, PutAll;
    PutAllStores(env, s, Stored(env, a));
    PutAllStores(env, Upload(env, s, a), Stored(env, b));
  }

  // ------------------------------------------------------------------ in place

  /** `signRawData`: a buffer of 75 bytes filled with 0xff, and the signature copied to its
      end. */
  method SignRawData(c: Crypto, data: Bytes, priv: Bytes) returns (r: Outcome<Bytes>)
    ensures r == SignData(c, data, priv)
  {
    var sig := c.sign(priv, c.env.hash(data));
    if |sig| > SIGNATURE_LENGTH {
      return Bad(SignatureTooLong);
    }
    var fixed := new bv8[SIGNATURE_LENGTH](_ => 0xFF);
    var at := SIGNATURE_LENGTH - |sig|;
    for i := 0 to |sig|
      invariant forall j :: 0 <= j < at ==> fixed[j] == 0xFF
      invariant forall j :: 0 <= j < i ==> fixed[at + j] == sig[j]
    {
      fixed[at + i] := sig[i];
    }
    assert fixed[..] == Pads(at) + sig;
    r := Good(fixed[..]);
  }

  /** `verifyRawData`: the padding is skipped, and the signature must start there. */
  method VerifyRawData(c: Crypto, data: Bytes, signature: Bytes, pub: Bytes) returns (r: Outcome<()>)
    ensures r == VerifyData(c, data, signature, pub)
  {
    var i := 0;
    while i < |signature| && signature[i] == 0xFF
      invariant i <= |signature| && Unpad(signature[i..]) == Unpad(signature)
    {
      assert signature[i..][1..] == signature[i + 1..];
      i := i + 1;
    }
    if i == |signature| || signature[i] != 0x30 {
      return Bad(BadSignature);
    }
    var der := signature[i..];
    r := if c.verify([4] + pub, c.env.hash(data), der) then Good(()) else Bad(BadSignature);
  }

  /** `decryptRawPlaintextAsymmetric`: the offset moves over the fields. */
  method DecryptRawPlaintext(c: Crypto, b: Bytes, priv: Bytes) returns (r: Outcome<Bytes>)
    ensures r == DecryptRaw(c, b, priv)
  {
    hide RawAsymm, Plain;
    var offset := 0;
    var prologue := Slice(b, offset, offset + 21);
    offset := offset + 21;
    if prologue != RawAsymm() {
      return Bad(NoPrologue);
    }
    if Slice(b, offset, offset + 2) != Boundary() {
      return Bad(NotAligned);
    }
    offset := offset + 2;
    var iv := Slice(b, offset, offset + 16);
    offset := offset + 16;
    if Slice(b, offset, offset + 2) != Boundary() {
      return Bad(NotAligned);
    }
    offset := offset + 2;
    var ephem := Slice(b, offset, offset + 65);
    offset := offset + 65;
    if Slice(b, offset, offset + 2) != Boundary() {
      return Bad(NotAligned);
    }
    offset := offset + 2;
    var mac := Slice(b, offset, offset + 32);
    offset := offset + 32;
    if Slice(b, offset, offset + 2) != Boundary() {
      return Bad(NotAligned);
    }
    offset := offset + 2;
    var ciphertext := Slice(b, offset, |b|);
    var decrypted := c.decrypt(priv, Sealed(iv, ephem, ciphertext, mac));
    if decrypted.None? {
      return Bad(CannotDecrypt);
    }
    if Slice(decrypted.value, 0, 18) != Plain() {
      return Bad(NoPrologue);
    }
    r := Good(Slice(decrypted.value, 18, |decrypted.value|));
  }
}
