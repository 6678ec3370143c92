// Verifying a stored package on the device (keemash_ota_v3_package.c): header, manifest, signed fields, and
// every block through the streaming validator, 2048 bytes at a time.
module OtaPackage {
  import opened Base
  import opened OtaTypes
  import opened OtaFields
  import opened OtaStream
  import opened OtaEquivalence
  import V = OtaValidator
  import A = OtaArtifact

  const MANIFEST_MAX: nat := 65536

  // Room in the decoder's fixed buffers (keelink-fabric-v2.pb.h:327-372).
  predicate FitsManifest(m: Manifest) {
    && |m.signedFields| <= SIGNED_FIELDS_MAX && |m.signature| <= SIGNATURE_LEN
    && forall i :: 0 <= i < |m.blocks| ==> |m.blocks[i].rawSha| <= SHA_LEN && |m.blocks[i].encSha| <= SHA_LEN
  }

  function ReadHeader(p: Prims, a: Bytes): (r: (Err, nat))
    ensures r.0 == Ok ==> A.HEADER_SIZE + r.1 <= |a|
  {
    if |a| <= A.HEADER_SIZE || |a| > MAX_PACKAGE then (InvalidArg, 0)
    else if a[..8] != A.Magic() then (InvalidResponse, 0)
    else
      var len := A.FromLe(a[8..12]);
      if len == 0 || len > MANIFEST_MAX || len > |a| - A.HEADER_SIZE then (InvalidSize, 0)
      else if p.crc32(a[A.HEADER_SIZE..A.HEADER_SIZE + len]) != A.FromLe(a[12..16]) then (InvalidCrc, 0)
      else (Ok, len)
  }

  // A header is accepted exactly when the package is the magic, the manifest's length and checksum, and the
  // manifest, within the sizes, and a rest.
  lemma {:induction false} HeaderExactly(p: Prims, a: Bytes, len: nat)
    ensures ReadHeader(p, a) == (Ok, len) <==>
            exists manifest, rest :: Package(p, a, manifest, rest) && |manifest| == len
  {
    if ReadHeader(p, a) == (Ok, len) {
      ReadPackage(p, a, len);
    }
    forall manifest, rest | Package(p, a, manifest, rest)
      ensures ReadHeader(p, a) == (Ok, |manifest|)
    {
      PackageRead(p, a, manifest, rest);
    }
  }

  predicate Package(p: Prims, a: Bytes, manifest: Bytes, rest: Bytes) {
    && 0 < |manifest| <= MANIFEST_MAX && |a| <= MAX_PACKAGE
    && a == A.Magic() + A.ToLe(|manifest|) + A.ToLe(p.crc32(manifest)) + manifest + rest
  }

  lemma {:induction false} ReadPackage(p: Prims, a: Bytes, len: nat)
    requires ReadHeader(p, a) == (Ok, len)
    ensures A.HEADER_SIZE + len <= |a|
    ensures Package(p, a, a[A.HEADER_SIZE..A.HEADER_SIZE + len], a[A.HEADER_SIZE + len..])
  {
    var manifest, rest := a[A.HEADER_SIZE..A.HEADER_SIZE + len], a[A.HEADER_SIZE + len..];
    LeOnto(a[8..12]);
    LeOnto(a[12..16]);
    hide A.ToLe, A.FromLe;
    assert a == a[..8] + a[8..12] + a[12..16] + manifest + rest;
  }

  lemma {:induction false} PackageRead(p: Prims, a: Bytes, manifest: Bytes, rest: Bytes)
    requires Package(p, a, manifest, rest)
    ensures ReadHeader(p, a) == (Ok, |manifest|)
  {
    A.LeRoundTrip(|manifest|);
    A.LeRoundTrip(p.crc32(manifest));
    hide A.FromLe;
    assert a[..8] == A.Magic() && a[8..12] == A.ToLe(|manifest|) && a[12..16] == A.ToLe(p.crc32(manifest));
    assert a[A.HEADER_SIZE..A.HEADER_SIZE + |manifest|] == manifest;
  }

  lemma {:induction false} LeOnto(b: Bytes)
    requires |b| == 4
    ensures A.ToLe(A.FromLe(b)) == b
  {
    var b0: int, b1: int, b2: int, b3: int := b[0], b[1], b[2], b[3];
    var n, high := A.FromLe(b), b1 + 256 * b2 + 65536 * b3;
    LowByte(high, b0);
    LowByte(b2 + 256 * b3, b1);
    LowByte(b3, b2);
    assert n == 256 * high + b0;
    assert n / 65536 == n / 256 / 256 && n / 16777216 == n / 256 / 256 / 256;
  }

  lemma {:induction false} LowByte(high: int, low: int)
    requires 0 <= low < 256
    ensures (256 * high + low) % 256 == low && (256 * high + low) / 256 == high
  {
  }

  // decode_manifest, counting the blocks
  function DecodeManifest(p: Prims, bytes: Bytes): (Err, Manifest) {
    var m := p.decodeManifest(bytes);
    if m.None? || !FitsManifest(m.value) then (InvalidResponse, Manifest([], [], []))
    else if |m.value.blocks| > MAX_BLOCKS then (InvalidSize, Manifest([], [], []))
    else (Ok, m.value)
  }

  // The reader cuts a block into 2048 bytes at a time, and never repeats a chunk.
  function Even(n: nat): (plan: seq<Cut>)
    ensures PlanOk(plan, n)
  {
    if n == 0 then []
    else
      var len := if n > READ_BYTES then READ_BYTES else n;
      [Cut(len, 0)] + Even(n - len)
  }

  function EvenPlans(ds: seq<Desc>): (plans: seq<seq<Cut>>)
    ensures PlansOk(ds, plans)
  {
    seq(|ds|, i requires 0 <= i < |ds| => Even(ds[i].encSize))
  }

  // What follows the decoding of the manifest; also what the validator put out.
  function VerifyBlocksOf(p: Prims, m: Manifest, payload: Bytes): (Err, Option<Signed>, Bytes) {
    var (signedErr, signed) := VerifySigned(p, m.signedFields, m.signature);
    if signedErr != Ok then (signedErr, None, [])
    else
      var f := signed.value;
      if f.blockCount != |m.blocks| || f.encSize != |payload| then (InvalidSize, None, [])
      else if !Startable(f) then (InvalidArg, None, [])
      else
        var (err, end) := DriveAndFinish(p, Fresh(f), payload, m.blocks, EvenPlans(m.blocks), 0);
        if err != Ok then (err, None, []) else (Ok, Some(f), end.output)
  }

  // keemash_ota_v3_verify_package, whose caller sees the fields; the output is discarded there
  function VerifyPackage(p: Prims, a: Bytes): (Err, Option<Signed>, Bytes) {
    var (headerErr, len) := ReadHeader(p, a);
    if headerErr != Ok then (headerErr, None, [])
    else
      var (manifestErr, m) := DecodeManifest(p, a[A.HEADER_SIZE..A.HEADER_SIZE + len]);
      if manifestErr != Ok then (manifestErr, None, [])
      else VerifyBlocksOf(p, m, a[A.HEADER_SIZE + len..])
  }

  // ---- Agreement with the host's verifier

  // What the device's fixed buffers and its build ask beyond what the host checks.
  predicate Embedded(a: Bytes, m: Manifest, f: Signed)
    requires |a| >= A.HEADER_SIZE
  {
    && A.FromLe(a[8..12]) <= MANIFEST_MAX && FitsManifest(m) && FitsSigned(f)
    && f.codec.FullDeflate? && Named(f.project) && Named(f.chip) && Named(f.keyId)
  }

  // An accepted artifact has as many blocks as its image needs.
  lemma {:induction false} AcceptedCount(p: Prims, f: Signed, base: Option<Bytes>, payload: Bytes, ds: seq<Desc>,
                                         i: nat, nextEnc: nat, image: Bytes)
    requires i < |ds| && nextEnc <= |payload| && |image| == i * FULL_BLOCK && f.blockSize == FULL_BLOCK
    requires A.VerifyBlocks(p, f, base, payload, ds, i, nextEnc, image).Good?
    ensures (|ds| - 1) * FULL_BLOCK < f.rawSize <= |ds| * FULL_BLOCK
    decreases |ds| - i
  {
    hide A.BlockRaw;
    var raw := A.CheckBlock(p, f, base, payload, ds[i], i, i + 1 < |ds|, |image|, nextEnc).value;
    A.BlockRawLength(p, f, base, ds[i], payload[nextEnc..nextEnc + ds[i].encSize], |image|);
    if i + 1 < |ds| {
      AcceptedCount(p, f, base, payload, ds, i + 1, nextEnc + ds[i].encSize, image + raw);
    }
  }

  lemma {:induction false} AcceptedShaLength(p: Prims, f: Signed, base: Option<Bytes>, payload: Bytes,
                                             ds: seq<Desc>, i: nat, nextEnc: nat, image: Bytes)
    requires i <= |ds| && nextEnc <= |payload|
    requires A.VerifyBlocks(p, f, base, payload, ds, i, nextEnc, image).Good?
    ensures |f.imageSha| == SHA_LEN
    decreases |ds| - i
  {
    hide A.BlockRaw;
    if i < |ds| {
      var raw := A.CheckBlock(p, f, base, payload, ds[i], i, i + 1 < |ds|, |image|, nextEnc).value;
      AcceptedShaLength(p, f, base, payload, ds, i + 1, nextEnc + ds[i].encSize, image + raw);
    }
  }

  // The device's checks of the signed fields follow from the host's whole verification.
  lemma {:induction false} FieldsFollow(p: Prims, m: Manifest, f: Signed, payload: Bytes, base: Option<Bytes>)
    requires DecodeLaw(p) && p.decodeSigned(m.signedFields) == Some(f) && |payload| <= MAX_PACKAGE
    requires FitsManifest(m) && FitsSigned(f) && f.codec.FullDeflate?
    requires Named(f.project) && Named(f.chip) && Named(f.keyId)
    requires A.VerifyParsed(p, m, f, payload, base).Good?
    ensures VerifySigned(p, m.signedFields, m.signature) == (Ok, Some(f))
    ensures |f.imageSha| == SHA_LEN
  {
    hide ChainFrom, Named, FitsSigned;
    assert f.encSize > 0;
    hide A.CheckBlock, A.VerifyBlocks;
    AcceptedCount(p, f, None, payload, m.blocks, 0, 0, []);
    AcceptedShaLength(p, f, None, payload, m.blocks, 0, 0, []);
    assert |m.signedFields| > 0;
  }

  lemma {:induction false} NamedIsNotEmpty(name: string)
    requires Named(name)
    ensures name != ""
  {
  }

  lemma {:induction false} SizesMustMatch(p: Prims, f: Signed, ds: seq<Desc>, payload: Bytes, base: Option<Bytes>)
    requires f.blockCount != |ds| || f.encSize != |payload|
    ensures A.VerifyContents(p, f, ds, payload, base).Bad?
  {
  }

  // With the manifest decoded: the device accepts exactly when the host does and the fields fit.
  lemma {:induction false} SameManifest(p: Prims, m: Manifest, payload: Bytes, base: Option<Bytes>)
    requires InflateLaw(p) && DecodeLaw(p) && FitsManifest(m) && |payload| <= MAX_PACKAGE
    ensures var (err, signed, output) := VerifyBlocksOf(p, m, payload);
            var decoded := p.decodeSigned(m.signedFields);
            && (err == Ok <==>
                  decoded.Some? && A.VerifyParsed(p, m, decoded.value, payload, base).Good? &&
                  FitsSigned(decoded.value) && decoded.value.codec.FullDeflate? &&
                  Named(decoded.value.project) && Named(decoded.value.chip) && Named(decoded.value.keyId))
            && (err == Ok ==>
                  signed == decoded && A.VerifyParsed(p, m, decoded.value, payload, base) == A.Good(output))
  {
    hide InflateLaw, DecodeLaw, DriveAndFinish, A.VerifyContents, Named, FitsSigned, FitsManifest, Even;
    var decoded := p.decodeSigned(m.signedFields);
    if VerifySigned(p, m.signedFields, m.signature).0 == Ok {
      var f := decoded.value;
      NamedIsNotEmpty(f.project);
      NamedIsNotEmpty(f.chip);
      NamedIsNotEmpty(f.keyId);
      if f.blockCount == |m.blocks| && f.encSize == |payload| {
        StreamEqualsBatch(p, f, payload, m.blocks, EvenPlans(m.blocks), base);
      } else {
        SizesMustMatch(p, f, m.blocks, payload, base);
      }
    } else if decoded.Some? && FitsSigned(decoded.value) && decoded.value.codec.FullDeflate? &&
              Named(decoded.value.project) && Named(decoded.value.chip) && Named(decoded.value.keyId) {
      if A.VerifyParsed(p, m, decoded.value, payload, base).Good? {
        FieldsFollow(p, m, decoded.value, payload, base);
      }
    }
  }

  // Both sides read the same manifest and payload, within the device's limits.
  lemma {:induction false} SameHeader(p: Prims, a: Bytes)
    ensures var (err, len) := ReadHeader(p, a);
            var host := A.Parse(p, a);
            && (err == Ok ==>
                  && A.HEADER_SIZE + len <= |a| && len == A.FromLe(a[8..12]) && len <= MANIFEST_MAX
                  && var m := p.decodeManifest(a[A.HEADER_SIZE..A.HEADER_SIZE + len]);
                  && (host.Good? <==> m.Some? && p.decodeSigned(m.value.signedFields).Some?)
                  && (host.Good? ==>
                        host.value == A.Parsed(m.value, p.decodeSigned(m.value.signedFields).value,
                                               a[A.HEADER_SIZE + len..])))
            && (err != Ok && host.Good? ==> A.FromLe(a[8..12]) > MANIFEST_MAX)
  {
    hide A.FromLe, A.Magic;
  }

  // The device accepts a package exactly when the host's verifier does and it fits the device; both then
  // see the same fields and the same image.
  lemma {:induction false} DeviceAgreesWithHost(p: Prims, a: Bytes, base: Option<Bytes>)
    requires InflateLaw(p) && DecodeLaw(p)
    ensures var (err, signed, output) := VerifyPackage(p, a);
            var host := A.Verify(p, a, base);
            && (err == Ok <==> host.Good? && Embedded(a, host.value.manifest, host.value.signed))
            && (err == Ok ==> signed == Some(host.value.signed) && output == host.value.image)
  {
    hide DecodeLaw, EvenPlans, FitsManifest, FitsSigned, A.FromLe, InflateLaw, A.Magic, Named, VerifyBlocksOf,
         A.VerifyParsed, VerifySigned;
    var (err, len) := ReadHeader(p, a);
    SameHeader(p, a);
    if A.Parse(p, a).Good? {
      assert |a| <= MAX_PACKAGE && |a| >= A.HEADER_SIZE;
    }
    if err == Ok {
      assert |a| <= MAX_PACKAGE;
      var m := p.decodeManifest(a[A.HEADER_SIZE..A.HEADER_SIZE + len]);
      if m.Some? && FitsManifest(m.value) {
        SameManifest(p, m.value, a[A.HEADER_SIZE + len..], base);
        ManyBlocks(p, m.value, a[A.HEADER_SIZE + len..], base);
      }
    }
  }

  lemma {:induction false} ManyBlocks(p: Prims, m: Manifest, payload: Bytes, base: Option<Bytes>)
    ensures var decoded := p.decodeSigned(m.signedFields);
            decoded.Some? && |m.blocks| > MAX_BLOCKS ==> A.VerifyParsed(p, m, decoded.value, payload, base).Bad?
  {
    hide ChainFrom, A.VerifyBlocks;
  }

  // ---- The loops over the stored package

  // check_manifest_crc, validate_block and verify_package read the package in pieces; a block's pieces go
  // straight to the validator.
  method ValidateBlock(p: Prims, v: V.Validator, payload: Bytes, d: Desc) returns (err: Err)
    requires StreamWF(v.View())
    modifies v
    ensures StreamWF(v.View())
    ensures (err, v.View()) == DriveBlock(p, old(v.View()), payload, d, Even(d.encSize))
  {
    hide Copies, Feed, PlanOk, StreamWF;
    if d.encOffset > |payload| || d.encSize == 0 || d.encSize > |payload| - d.encOffset { return InvalidSize; }
    var enc := payload[d.encOffset..d.encOffset + d.encSize];
    var consumed: nat := 0;
    err := Ok;
    while consumed < d.encSize
      invariant consumed <= d.encSize && StreamWF(v.View()) && err == Ok
      invariant FeedAll(p, v.View(), Script(d, enc, Even(d.encSize - consumed), consumed)) ==
                FeedAll(p, old(v.View()), Script(d, enc, Even(d.encSize), 0))
    {
      var count := if d.encSize - consumed > READ_BYTES then READ_BYTES else d.encSize - consumed;
      ghost var script := Script(d, enc, Even(d.encSize - consumed), consumed);
      var c := ChunkAt(d, enc, consumed, count);
      EvenScript(d, enc, consumed);
      err := v.Feed(p, c, true);
      if err != Ok { return; }
      consumed := consumed + count;
    }
    assert Script(d, enc, Even(0), consumed) == [];
  }

  lemma {:induction false} EvenScript(d: Desc, enc: Bytes, consumed: nat)
    requires consumed < |enc|
    ensures var count := if |enc| - consumed > READ_BYTES then READ_BYTES else |enc| - consumed;
            var script := Script(d, enc, Even(|enc| - consumed), consumed);
            && |script| > 0 && script[0] == ChunkAt(d, enc, consumed, count)
            && script[1..] == Script(d, enc, Even(|enc| - consumed - count), consumed + count)
  {
    var count := if |enc| - consumed > READ_BYTES then READ_BYTES else |enc| - consumed;
    assert Copies(ChunkAt(d, enc, consumed, count), 0) == [];
    assert Even(|enc| - consumed)[1..] == Even(|enc| - consumed - count);
  }

  method VerifyStoredPackage(p: Prims, a: Bytes) returns (err: Err, signed: Option<Signed>)
    ensures (err, signed) == (VerifyPackage(p, a).0, VerifyPackage(p, a).1)
  {
    hide DecodeManifest, DriveBlock, Even, FeedAll, Finish, PlansOk, ReadHeader, Script, Startable, VerifySigned,
         ZeroChain;
    var (headerErr, len) := ReadHeader(p, a);
    if headerErr != Ok { return headerErr, None; }
    var (manifestErr, m) := DecodeManifest(p, a[A.HEADER_SIZE..A.HEADER_SIZE + len]);
    if manifestErr != Ok { return manifestErr, None; }
    var (signedErr, fields) := VerifySigned(p, m.signedFields, m.signature);
    if signedErr != Ok { return signedErr, None; }
    var f, payload := fields.value, a[A.HEADER_SIZE + len..];
    if f.blockCount != |m.blocks| || f.encSize != |payload| { return InvalidSize, None; }
    var v := new V.Validator(f);
    err := v.Begin(f);
    if err != Ok { return err, None; }
    assert StreamWF(Fresh(f));
    assert PlansOk(m.blocks, EvenPlans(m.blocks));
    for i := 0 to |m.blocks|
      invariant StreamWF(v.View())
      invariant Drive(p, v.View(), payload, m.blocks, EvenPlans(m.blocks), i) ==
                Drive(p, Fresh(f), payload, m.blocks, EvenPlans(m.blocks), 0)
    {
      assert EvenPlans(m.blocks)[i] == Even(m.blocks[i].encSize);
      err := ValidateBlock(p, v, payload, m.blocks[i]);
      if err != Ok { return err, None; }
    }
    assert Drive(p, v.View(), payload, m.blocks, EvenPlans(m.blocks), |m.blocks|) == (Ok, v.View());
    err := v.Finish(p);
    signed := if err == Ok then Some(f) else None;
  }
}
