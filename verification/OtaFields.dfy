// The checks a device makes of an artifact's signed fields (keemash_ota_v3.c:84-186).
module OtaFields {
  import opened Base
  import opened OtaTypes

  // Room in the decoder's fixed buffers (keelink-fabric-v2.pb.h:327-372).
  predicate FitsSigned(f: Signed) {
    && |f.project| <= 32 && |f.chip| <= 16 && |f.version| <= 32 && |f.commit| <= 40 && |f.keyId| <= 32
    && |f.imageSha| <= SHA_LEN && |f.encSha| <= SHA_LEN && |f.tableSha| <= SHA_LEN && |f.baseSha| <= SHA_LEN
  }

  // A C string's first character is not its terminator.
  predicate Named(name: string) {
    name != "" && name[0] != '\0'
  }

  predicate RangesOk(f: Signed) {
    && f.schema == SCHEMA_VERSION && f.rawSize != 0 && f.slotSize >= f.rawSize && f.rawSize <= MAX_IMAGE
    && f.encSize <= MAX_PACKAGE && 0 < f.blockCount <= MAX_BLOCKS && f.windowBits == WINDOW_BITS
    && Named(f.project) && Named(f.chip) && Named(f.keyId)
  }

  // keemash_ota_v3_verify_signed_fields, without the delta codec
  function VerifySigned(p: Prims, bytes: Bytes, signature: Bytes): (r: (Err, Option<Signed>))
    ensures r.0 == Ok <==> r.1.Some?
  {
    if |bytes| == 0 then (InvalidArg, None)
    else if |bytes| > SIGNED_FIELDS_MAX || |signature| != SIGNATURE_LEN then (InvalidSize, None)
    else if !p.verify(bytes, signature) then (InvalidCrc, None)
    else if p.decodeSigned(bytes).None? || !FitsSigned(p.decodeSigned(bytes).value) then (InvalidResponse, None)
    else
      var f := p.decodeSigned(bytes).value;
      if !RangesOk(f) then (InvalidArg, None)
      else if !f.codec.FullDeflate? then (NotSupported, None)
      else if f.blockSize != FULL_BLOCK || f.encSize == 0 || |f.baseSha| != 0 then (InvalidArg, None)
      else if f.blockCount != (f.rawSize + f.blockSize - 1) / f.blockSize then (InvalidArg, None)
      else if |f.imageSha| != SHA_LEN || |f.encSha| != SHA_LEN || |f.tableSha| != SHA_LEN then (InvalidSize, None)
      else (Ok, Some(f))
  }

  // A name that is not empty, as C reads it, and short enough.
  predicate Word(name: string, limit: nat) {
    1 <= |name| <= limit && name[0] != '\0'
  }

  // What accepted fields are: sizes in range, names there, for this codec, and of as many blocks as their image
  // needs.
  predicate Sound(f: Signed) {
    && f.schema == 1 && 1 <= f.rawSize <= f.slotSize && f.rawSize <= 8 * 1024 * 1024 && f.windowBits == 11
    && 1 <= f.encSize <= 16 * 1024 * 1024 && 1 <= f.blockCount <= 1024 && f.blockSize == 16384
    && (f.blockCount - 1) * 16384 < f.rawSize <= f.blockCount * 16384
    && Word(f.project, 32) && Word(f.chip, 16) && Word(f.keyId, 32) && |f.version| <= 32 && |f.commit| <= 40
    && f.codec.FullDeflate? && |f.baseSha| == 0 && |f.imageSha| == |f.encSha| == |f.tableSha| == 32
  }

  // Fields are accepted exactly when a whole signature verifies over bytes that decode to sound fields.
  lemma {:induction false} VerifySignedExactly(p: Prims, bytes: Bytes, signature: Bytes)
    ensures VerifySigned(p, bytes, signature).0 == Ok <==>
            && 0 < |bytes| <= SIGNED_FIELDS_MAX && |signature| == SIGNATURE_LEN && p.verify(bytes, signature)
            && p.decodeSigned(bytes).Some? && Sound(p.decodeSigned(bytes).value)
    ensures VerifySigned(p, bytes, signature).0 == Ok ==> VerifySigned(p, bytes, signature).1 == p.decodeSigned(bytes)
  {
    if p.decodeSigned(bytes).Some? {
      var f := p.decodeSigned(bytes).value;
      SoundExactly(f);
      hide Sound, FitsSigned, RangesOk;
      BlocksNeeded(f.rawSize, f.blockCount);
    }
  }

  lemma {:induction false} SoundExactly(f: Signed)
    ensures Sound(f) <==>
            && RangesOk(f) && FitsSigned(f) && f.codec.FullDeflate? && f.blockSize == FULL_BLOCK
            && f.encSize > 0 && |f.baseSha| == 0
            && (f.blockCount - 1) * FULL_BLOCK < f.rawSize <= f.blockCount * FULL_BLOCK
            && |f.imageSha| == |f.encSha| == |f.tableSha| == SHA_LEN
  {
  }

  lemma {:induction false} BlocksNeeded(size: nat, blocks: nat)
    ensures blocks == (size + FULL_BLOCK - 1) / FULL_BLOCK <==> (blocks - 1) * FULL_BLOCK < size <= blocks * FULL_BLOCK
  {
  }

  // Whatever decoder there is, it has no say in bytes whose signature does not verify: they are refused unread.
  lemma {:induction false} UnsignedIsUnread(p: Prims, q: Prims, bytes: Bytes, signature: Bytes)
    requires q == p.(decodeSigned := q.decodeSigned) && !p.verify(bytes, signature)
    ensures VerifySigned(p, bytes, signature) == VerifySigned(q, bytes, signature)
    ensures VerifySigned(p, bytes, signature).0 != Ok
  {
    hide FitsSigned, RangesOk;
  }

  datatype Target = Target(project: string, chip: string, slotSize: nat, core: nat, fabric: nat)

  // keemash_ota_v3_check_target
  function CheckTarget(f: Signed, t: Target): Err {
    if f.project != t.project || f.chip != t.chip then InvalidArg
    else if f.rawSize > t.slotSize || f.slotSize > t.slotSize then InvalidSize
    else if f.minCore > t.core || f.minFabric > t.fabric then NotSupported
    else Ok
  }
}
