// Building and verifying a whole artifact on the host (rust/keemash-keelink/src/ota.rs:126-496).
module OtaArtifact {
  import opened Base
  import opened OtaTypes

  datatype ArtifactError =
    | TooShort | InvalidMagic | InvalidManifestLength | ManifestCrc | Protobuf
    | InvalidField(name: string) | UnsupportedCodec | Signature | BlockTableHash | EncodedHash | ImageHash
    | BlockHash(index: nat) | BlockBounds(index: nat) | DeflateError(index: nat)
    | MissingBaseImage | WrongBaseImage | SizeOverflow

  datatype Res<+T> = Good(value: T) | Bad(error: ArtifactError)

  const HEADER_SIZE: nat := 16
  const MAX_MANIFEST: nat := 1048576
  const U32_LIMIT: nat := 0x1_0000_0000

  function Magic(): Bytes {
    [75, 79, 84, 65, 51, 0, 0, 1]
  }

  // ---- Little-endian words

  function ToLe(n: u32): (b: Bytes)
    ensures |b| == 4
  {
    [n % 256, n / 256 % 256, n / 65536 % 256, n / 16777216]
  }

  function FromLe(b: Bytes): u32
    requires |b| == 4
  {
    var b0: int, b1: int, b2: int, b3: int := b[0], b[1], b[2], b[3];
    b0 + 256 * b1 + 65536 * b2 + 16777216 * b3
  }

  lemma {:induction false} LeRoundTrip(n: u32)
    ensures FromLe(ToLe(n)) == n
  {
    var a := n / 256;
    var b := a / 256;
    var c := b / 256;
    assert n == 256 * a + n % 256 && a == 256 * b + a % 256 && b == 256 * c + b % 256;
    assert b == n / 65536 && c == n / 16777216;
  }

  // ---- verify_artifact

  datatype Verified = Verified(artifactId: Bytes, manifest: Manifest, signed: Signed, image: Bytes)

  datatype Parsed = Parsed(manifest: Manifest, signed: Signed, payload: Bytes)

  function Parse(p: Prims, a: Bytes): Res<Parsed> {
    if |a| < HEADER_SIZE then Bad(TooShort)
    else if |a| > MAX_PACKAGE then Bad(SizeOverflow)
    else if a[..8] != Magic() then Bad(InvalidMagic)
    else
      var len := FromLe(a[8..12]);
      if len == 0 || len > MAX_MANIFEST || HEADER_SIZE + len > |a| then Bad(InvalidManifestLength)
      else
        var bytes := a[HEADER_SIZE..HEADER_SIZE + len];
        if p.crc32(bytes) != FromLe(a[12..16]) then Bad(ManifestCrc)
        else
          var m := p.decodeManifest(bytes);
          if m.None? then Bad(Protobuf)
          else
            var s := p.decodeSigned(m.value.signedFields);
            if s.None? then Bad(Protobuf) else Good(Parsed(m.value, s.value, a[HEADER_SIZE + len..]))
  }

  function Decompress(p: Prims, encoded: Bytes, size: nat, index: nat): Res<Bytes> {
    var raw := p.inflate(encoded);
    if raw.None? || |raw.value| != size then Bad(DeflateError(index)) else Good(raw.value)
  }

  // What one block decodes to.
  function BlockRaw(p: Prims, f: Signed, base: Option<Bytes>, d: Desc, encoded: Bytes, from: nat): Res<Bytes> {
    match d.kind
    case Deflate =>
      if |encoded| == 0 then Bad(BlockBounds(d.index)) else Decompress(p, encoded, d.rawSize, d.index)
    case CopyBase =>
      if !f.codec.DeltaBlock? || |encoded| != 0 || base.None? || from + d.rawSize > |base.value| then
        Bad(BlockBounds(d.index))
      else Good(base.value[from..from + d.rawSize])
    case OtherKind(_) => Bad(UnsupportedCodec)
  }

  // What the loop checks of block i, given where it stands; the block's bytes.
  function CheckBlock(p: Prims, f: Signed, base: Option<Bytes>, payload: Bytes, d: Desc,
                      i: nat, more: bool, nextRaw: nat, nextEnc: nat): (r: Res<Bytes>)
    requires nextEnc <= |payload|
    ensures r.Good? ==> nextEnc + d.encSize <= |payload|
  {
    if d.index != i || d.rawOffset != nextRaw || d.encOffset != nextEnc || d.rawSize == 0 ||
       d.rawSize > f.blockSize || (more && d.rawSize != f.blockSize) then Bad(BlockBounds(d.index))
    else if nextRaw + d.rawSize > f.rawSize || nextEnc + d.encSize > |payload| then Bad(BlockBounds(d.index))
    else
      var encoded := payload[nextEnc..nextEnc + d.encSize];
      if |d.encSha| != SHA_LEN then Bad(InvalidField("block encoded sha256"))
      else if p.sha(encoded) != d.encSha then Bad(BlockHash(d.index))
      else
        var raw := BlockRaw(p, f, base, d, encoded, nextRaw);
        if raw.Bad? then Bad(raw.error)
        else if |d.rawSha| != SHA_LEN then Bad(InvalidField("block raw sha256"))
        else if p.sha(raw.value) != d.rawSha then Bad(BlockHash(d.index))
        else raw
  }

  // The checks after the loop.
  function CheckImage(p: Prims, f: Signed, payload: Bytes, nextEnc: nat, image: Bytes): Res<Bytes> {
    if |image| != f.rawSize || nextEnc != |payload| then Bad(InvalidField("block coverage"))
    else if |f.imageSha| != SHA_LEN then Bad(InvalidField("image_sha256"))
    else if p.sha(image) != f.imageSha then Bad(ImageHash)
    else Good(image)
  }

  // The loop over the blocks, from block i on, with the image so far.
  function VerifyBlocks(p: Prims, f: Signed, base: Option<Bytes>, payload: Bytes, ds: seq<Desc>,
                        i: nat, nextEnc: nat, image: Bytes): Res<Bytes>
    requires i <= |ds| && nextEnc <= |payload|
    decreases |ds| - i
  {
    if i == |ds| then CheckImage(p, f, payload, nextEnc, image)
    else
      var raw := CheckBlock(p, f, base, payload, ds[i], i, i + 1 < |ds|, |image|, nextEnc);
      if raw.Bad? then raw
      else VerifyBlocks(p, f, base, payload, ds, i + 1, nextEnc + ds[i].encSize, image + raw.value)
  }

  predicate SizesOk(f: Signed, blocks: nat, payload: nat) {
    && f.blockCount == blocks && 0 < blocks <= MAX_BLOCKS
    && 0 < f.rawSize <= MAX_IMAGE && f.encSize == payload && f.windowBits == WINDOW_BITS
    && f.slotSize >= f.rawSize && f.project != "" && f.chip != "" && f.keyId != ""
  }

  // The checks after the signature.
  function VerifyContents(p: Prims, f: Signed, ds: seq<Desc>, payload: Bytes, base: Option<Bytes>): Res<Bytes> {
    if !SizesOk(f, |ds|, |payload|) then Bad(InvalidField("artifact sizes"))
    else if |f.tableSha| != SHA_LEN then Bad(InvalidField("block_table_sha256"))
    else if ChainFrom(p, ZeroChain(), ds) != f.tableSha then Bad(BlockTableHash)
    else if |f.encSha| != SHA_LEN then Bad(InvalidField("encoded_sha256"))
    else if p.sha(payload) != f.encSha then Bad(EncodedHash)
    else if f.codec.OtherCodec? then Bad(UnsupportedCodec)
    else if f.blockSize != (if f.codec.FullDeflate? then FULL_BLOCK else DELTA_BLOCK) then
      Bad(InvalidField("block_size"))
    else if f.codec.FullDeflate? && |f.baseSha| != 0 then Bad(InvalidField("base_image_sha256"))
    else if f.codec.DeltaBlock? && base.None? then Bad(MissingBaseImage)
    else if f.codec.DeltaBlock? && |f.baseSha| != SHA_LEN then Bad(InvalidField("base_image_sha256"))
    else if f.codec.DeltaBlock? && p.sha(base.value) != f.baseSha then Bad(WrongBaseImage)
    else
      VerifyBlocks(p, f, if f.codec.DeltaBlock? then base else None, payload, ds, 0, 0, [])
  }

  // The checks after parsing; the image.
  function VerifyParsed(p: Prims, m: Manifest, f: Signed, payload: Bytes, base: Option<Bytes>): Res<Bytes> {
    if f.schema != SCHEMA_VERSION then Bad(InvalidField("schema_version"))
    else if |m.signature| != SIGNATURE_LEN then Bad(InvalidField("signature"))
    else if !p.verify(m.signedFields, m.signature) then Bad(Signature)
    else VerifyContents(p, f, m.blocks, payload, base)
  }

  function Verify(p: Prims, a: Bytes, base: Option<Bytes>): Res<Verified> {
    var parsed := Parse(p, a);
    if parsed.Bad? then Bad(parsed.error)
    else
      var Parsed(m, f, payload) := parsed.value;
      var image := VerifyParsed(p, m, f, payload, base);
      if image.Bad? then Bad(image.error) else Good(Verified(p.sha(a), m, f, image.value))
  }

  // ---- build_artifact

  datatype Spec = Spec(project: string, chip: string, version: string, commit: string,
                       minCore: u32, minFabric: u32, slotSize: u32, keyId: string)

  function BlockSize(base: Option<Bytes>): nat {
    if base.Some? then DELTA_BLOCK else FULL_BLOCK
  }

  // image.chunks(size): block number i
  function RawBlock(image: Bytes, size: nat, i: nat): Bytes
    requires i * size < |image|
  {
    image[i * size..if (i + 1) * size < |image| then (i + 1) * size else |image|]
  }

  predicate CanCopy(base: Option<Bytes>, raw: Bytes, from: nat) {
    base.Some? && from + |raw| <= |base.value| && base.value[from..from + |raw|] == raw
  }

  function Encode(p: Prims, base: Option<Bytes>, raw: Bytes, from: nat): Res<Bytes> {
    if CanCopy(base, raw, from) then Good([])
    else
      var e := p.deflate(raw);
      if e.None? then Bad(DeflateError(0)) else Good(e.value)
  }

  function DescOf(p: Prims, raw: Bytes, encoded: Bytes, copied: bool, i: nat, size: nat, encOffset: nat): Res<Desc> {
    if i >= U32_LIMIT || i * size >= U32_LIMIT || |raw| >= U32_LIMIT || encOffset >= U32_LIMIT ||
       |encoded| >= U32_LIMIT then Bad(SizeOverflow)
    else
      Good(Desc(i, i * size, |raw|, encOffset, |encoded|, if copied then CopyBase else Deflate,
                p.sha(raw), p.sha(encoded)))
  }

  // One turn of the loop: the descriptor and the encoded bytes of block i.
  function BuildBlock(p: Prims, image: Bytes, base: Option<Bytes>, i: nat, encOffset: nat): Res<(Desc, Bytes)>
    requires i * BlockSize(base) < |image|
  {
    var size := BlockSize(base);
    var raw := RawBlock(image, size, i);
    var encoded := Encode(p, base, raw, i * size);
    if encoded.Bad? then Bad(encoded.error)
    else
      var d := DescOf(p, raw, encoded.value, CanCopy(base, raw, i * size), i, size, encOffset);
      if d.Bad? then Bad(d.error) else Good((d.value, encoded.value))
  }

  // The loop from block i on, with the payload so far: the descriptors it adds, and the whole payload.
  function BuildBlocks(p: Prims, image: Bytes, base: Option<Bytes>, i: nat, payload: Bytes)
    : Res<(seq<Desc>, Bytes)>
    decreases |image| - i
  {
    if i * BlockSize(base) >= |image| then Good(([], payload))
    else
      var block := BuildBlock(p, image, base, i, |payload|);
      if block.Bad? then Bad(block.error)
      else
        var rest := BuildBlocks(p, image, base, i + 1, payload + block.value.1);
        if rest.Bad? then Bad(rest.error) else Good(([block.value.0] + rest.value.0, rest.value.1))
  }

  function SignedOf(p: Prims, image: Bytes, base: Option<Bytes>, spec: Spec, ds: seq<Desc>, payload: Bytes): Signed
    requires |image| < U32_LIMIT && |payload| < U32_LIMIT && |ds| < U32_LIMIT
  {
    Signed(SCHEMA_VERSION, spec.project, spec.chip, spec.version, spec.commit, spec.minCore, spec.minFabric,
           |image|, |payload|, spec.slotSize, if base.Some? then DeltaBlock else FullDeflate,
           p.sha(image), p.sha(payload), ChainFrom(p, ZeroChain(), ds),
           if base.Some? then p.sha(base.value) else [], BlockSize(base), |ds|, WINDOW_BITS, spec.keyId)
  }

  function Assemble(p: Prims, m: Manifest, payload: Bytes): Res<Bytes> {
    var bytes := p.encodeManifest(m);
    if |bytes| > MAX_MANIFEST then Bad(InvalidManifestLength)
    else
      var a := Magic() + ToLe(|bytes|) + ToLe(p.crc32(bytes)) + bytes + payload;
      if |a| > MAX_PACKAGE then Bad(SizeOverflow) else Good(a)
  }

  function Build(p: Prims, image: Bytes, base: Option<Bytes>, spec: Spec): Res<Bytes> {
    if |image| == 0 || |image| > MAX_IMAGE then Bad(InvalidField("image"))
    else if spec.project == "" || spec.chip == "" || spec.version == "" || spec.keyId == "" then
      Bad(InvalidField("artifact identity"))
    else if spec.slotSize < |image| then Bad(InvalidField("required_app_slot_size"))
    else
      var built := BuildBlocks(p, image, base, 0, []);
      if built.Bad? then Bad(built.error)
      else
        var (ds, payload) := built.value;
        if |payload| >= U32_LIMIT || |ds| >= U32_LIMIT then Bad(SizeOverflow)
        else
          var signed := p.encodeSigned(SignedOf(p, image, base, spec, ds, payload));
          Assemble(p, Manifest(signed, ds, p.sign(signed)), payload)
  }

  // ---- Building and verifying undo each other

  // How many blocks an image of `len` bytes makes.
  function BlocksOf(len: nat, size: nat): nat
    requires size > 0
  {
    (len + size - 1) / size
  }

  lemma {:induction false} BlockSpan(len: nat, size: nat, i: nat)
    requires size == FULL_BLOCK || size == DELTA_BLOCK
    ensures i < BlocksOf(len, size) <==> i * size < len
    ensures i + 1 < BlocksOf(len, size) <==> (i + 1) * size < len
  {
  }

  // Where block i starts; the image's end when there is no block i.
  function BlockStart(len: nat, size: nat, i: nat): (at: nat)
    ensures at <= len
  {
    if i * size < len then i * size else len
  }

  lemma {:induction false} BuiltKind(p: Prims, image: Bytes, base: Option<Bytes>, i: nat, encOffset: nat)
    requires i * BlockSize(base) < |image| && BuildBlock(p, image, base, i, encOffset).Good?
    ensures !BuildBlock(p, image, base, i, encOffset).value.0.kind.OtherKind?
  {
  }

  // What the builder leaves: one descriptor per block, of a known kind, and a payload that only grows.
  lemma {:induction false} BuiltShape(p: Prims, image: Bytes, base: Option<Bytes>, i: nat, payload: Bytes)
    requires BuildBlocks(p, image, base, i, payload).Good? && i <= BlocksOf(|image|, BlockSize(base))
    ensures var (ds, whole) := BuildBlocks(p, image, base, i, payload).value;
            && |ds| == BlocksOf(|image|, BlockSize(base)) - i
            && payload <= whole
            && forall k :: 0 <= k < |ds| ==> !ds[k].kind.OtherKind?
    decreases |image| - i
  {
    hide BlocksOf, BuildBlock;
    BlockSpan(|image|, BlockSize(base), i);
    if i * BlockSize(base) < |image| {
      BuiltKind(p, image, base, i, |payload|);
      var encoded := BuildBlock(p, image, base, i, |payload|).value.1;
      BuiltShape(p, image, base, i + 1, payload + encoded);
      assert payload <= payload + encoded;
    }
  }

  lemma {:induction false} AfterPrefix(a: Bytes, b: Bytes, whole: Bytes)
    requires a + b <= whole
    ensures whole[|a|..|a| + |b|] == b
  {
    assert whole[..|a + b|] == a + b;
    assert whole[|a|..|a| + |b|] == (a + b)[|a|..];
  }

  // A block the builder made is one the verifier takes, for the same bytes.
  lemma {:induction false} BuiltBlockChecks(p: Prims, f: Signed, image: Bytes, base: Option<Bytes>, i: nat,
                         before: Bytes, whole: Bytes, d: Desc, encoded: Bytes)
    requires BuildLaws(p) && ShaLaw(p)
    requires i * BlockSize(base) < |image| && BuildBlock(p, image, base, i, |before|) == Good((d, encoded))
    requires f.rawSize == |image| && f.blockSize == BlockSize(base)
    requires f.codec == if base.Some? then DeltaBlock else FullDeflate
    requires before + encoded <= whole
    ensures d.encSize == |encoded|
    ensures CheckBlock(p, f, base, whole, d, i, (i + 1) * BlockSize(base) < |image|, i * BlockSize(base), |before|)
            == Good(RawBlock(image, BlockSize(base), i))
  {
    var size := BlockSize(base);
    var raw := RawBlock(image, size, i);
    AfterPrefix(before, encoded, whole);
    assert |raw| > 0 && i * size + |raw| <= |image|;
    assert BlockRaw(p, f, base, d, encoded, i * size) == Good(raw);
  }

  lemma {:induction false} GrowImage(image: Bytes, size: nat, i: nat)
    requires i * size < |image|
    ensures image[..i * size] + RawBlock(image, size, i) == image[..BlockStart(|image|, size, i + 1)]
  {
  }

  lemma {:induction false} VerifyStep(p: Prims, f: Signed, base: Option<Bytes>, payload: Bytes, ds: seq<Desc>, i: nat,
                   nextEnc: nat, image: Bytes, raw: Bytes)
    requires i < |ds| && nextEnc <= |payload|
    requires CheckBlock(p, f, base, payload, ds[i], i, i + 1 < |ds|, |image|, nextEnc) == Good(raw)
    ensures VerifyBlocks(p, f, base, payload, ds, i, nextEnc, image) ==
            VerifyBlocks(p, f, base, payload, ds, i + 1, nextEnc + ds[i].encSize, image + raw)
  {
    hide CheckBlock, CheckImage;
  }

  // One unfolding of the builder's loop.
  lemma {:induction false} BuildStep(p: Prims, image: Bytes, base: Option<Bytes>, i: nat, payload: Bytes,
                                     ds: seq<Desc>, whole: Bytes)
    returns (d: Desc, encoded: Bytes)
    requires BuildBlocks(p, image, base, i, payload) == Good((ds, whole)) && i * BlockSize(base) < |image|
    ensures BuildBlock(p, image, base, i, |payload|) == Good((d, encoded))
    ensures |ds| > 0 && ds[0] == d
    ensures BuildBlocks(p, image, base, i + 1, payload + encoded) == Good((ds[1..], whole))
  {
    hide BuildBlock, BlockSize;
    d, encoded := BuildBlock(p, image, base, i, |payload|).value.0, BuildBlock(p, image, base, i, |payload|).value.1;
  }

  // The verifier, at block i, takes what the builder wrote from block i on.
  lemma {:induction false} BuiltVerifies(p: Prims, f: Signed, image: Bytes, base: Option<Bytes>,
                                         i: nat, payload: Bytes, done: seq<Desc>, ds: seq<Desc>, whole: Bytes)
    requires BuildLaws(p) && ShaLaw(p)
    requires BuildBlocks(p, image, base, i, payload) == Good((ds, whole))
    requires i == |done| <= BlocksOf(|image|, BlockSize(base))
    requires f.rawSize == |image| && f.imageSha == p.sha(image) && f.blockSize == BlockSize(base)
    requires f.codec == if base.Some? then DeltaBlock else FullDeflate
    ensures |payload| <= |whole|
    ensures VerifyBlocks(p, f, base, whole, done + ds, i, |payload|,
                         image[..BlockStart(|image|, BlockSize(base), i)]) == Good(image)
    decreases |ds|
  {
    hide BlockRaw, BlocksOf, BuildBlock, BuildLaws, CheckBlock, RawBlock;
    var size := BlockSize(base);
    BlockSpan(|image|, size, i);
    BuiltShape(p, image, base, i, payload);
    if i * size >= |image| {
      assert image[..|image|] == image;
      assert whole == payload && done + ds == done;
      assert |p.sha(image)| == SHA_LEN;
      assert CheckImage(p, f, whole, |whole|, image) == Good(image);
    } else {
      var d, encoded := BuildStep(p, image, base, i, payload, ds, whole);
      BuiltShape(p, image, base, i + 1, payload + encoded);
      BuiltVerifies(p, f, image, base, i + 1, payload + encoded, done + [d], ds[1..], whole);
      JoinOne(done, d, ds);
      BuiltBlockChecks(p, f, image, base, i, payload, whole, d, encoded);
      GrowImage(image, size, i);
      VerifyStep(p, f, base, whole, done + ds, i, |payload|, image[..i * size], RawBlock(image, size, i));
    }
  }

  lemma {:induction false} JoinOne(done: seq<Desc>, d: Desc, ds: seq<Desc>)
    requires |ds| > 0 && ds[0] == d
    ensures done + [d] + ds[1..] == done + ds && (done + ds)[|done|] == d
  {
  }

  lemma {:induction false} ParseAssembled(p: Prims, m: Manifest, payload: Bytes)
    requires BuildLaws(p) && BuilderManifest(m) && Assemble(p, m, payload).Good? && p.decodeSigned(m.signedFields).Some?
    ensures Parse(p, Assemble(p, m, payload).value) ==
            Good(Parsed(m, p.decodeSigned(m.signedFields).value, payload))
  {
    var bytes := p.encodeManifest(m);
    var a := Assemble(p, m, payload).value;
    var head := Magic() + ToLe(|bytes|) + ToLe(p.crc32(bytes));
    assert a == head + bytes + payload && |head| == HEADER_SIZE;
    assert a[..8] == Magic();
    assert a[8..12] == ToLe(|bytes|);
    assert a[12..16] == ToLe(p.crc32(bytes));
    LeRoundTrip(|bytes|);
    LeRoundTrip(p.crc32(bytes));
    assert a[HEADER_SIZE..HEADER_SIZE + |bytes|] == bytes;
    assert a[HEADER_SIZE + |bytes|..] == payload;
    assert p.decodeManifest(bytes) == Some(m);
  }

  // Whatever is built verifies, with the matching base, to exactly the image it was built from.
  lemma {:induction false} BuildThenVerify(p: Prims, image: Bytes, base: Option<Bytes>, spec: Spec)
    requires BuildLaws(p) && ShaLaw(p) && Build(p, image, base, spec).Good?
    ensures var a := Build(p, image, base, spec).value;
            var v := Verify(p, a, base);
            && v.Good? && v.value.image == image && v.value.artifactId == p.sha(a)
            && |v.value.manifest.blocks| == BlocksOf(|image|, BlockSize(base)) <= MAX_BLOCKS
  {
    var (ds, payload) := BuildBlocks(p, image, base, 0, []).value;
    var f := SignedOf(p, image, base, spec, ds, payload);
    var signed := p.encodeSigned(f);
    var m := Manifest(signed, ds, p.sign(signed));
    assert BuilderSigned(f) && p.decodeSigned(signed) == Some(f);
    BuiltShape(p, image, base, 0, []);
    assert BuilderManifest(m);
    ParseAssembled(p, m, payload);
    BlockSpan(|image|, BlockSize(base), 0);
    BuiltVerifies(p, f, image, base, 0, [], [], ds, payload);
    assert [] + ds == ds && image[..0] == [];
    assert VerifyContents(p, f, ds, payload, base) == Good(image) by {
      ContentsOk(p, f, image, base, ds, payload);
    }
  }

  lemma {:induction false} ContentsOk(p: Prims, f: Signed, image: Bytes, base: Option<Bytes>, ds: seq<Desc>,
                                      payload: Bytes)
    requires ShaLaw(p) && SizesOk(f, |ds|, |payload|)
    requires f.tableSha == ChainFrom(p, ZeroChain(), ds) && f.encSha == p.sha(payload)
    requires f.codec == if base.Some? then DeltaBlock else FullDeflate
    requires f.blockSize == BlockSize(base) && f.baseSha == if base.Some? then p.sha(base.value) else []
    requires VerifyBlocks(p, f, base, payload, ds, 0, 0, []) == Good(image)
    ensures VerifyContents(p, f, ds, payload, base) == Good(image)
  {
    ChainLength(p, ZeroChain(), ds);
  }

  lemma {:induction false} ChainLength(p: Prims, chain: Bytes, ds: seq<Desc>)
    requires ShaLaw(p) && |chain| == SHA_LEN
    ensures |ChainFrom(p, chain, ds)| == SHA_LEN
    decreases |ds|
  {
    if |ds| > 0 {
      ChainLength(p, ChainStep(p, chain, ds[0]), ds[1..]);
    }
  }

  // ---- What an accepted artifact's blocks look like

  // Blocks i.. start where the ones before them end, in the image and in the payload, and end with them.
  predicate Tiled(ds: seq<Desc>, i: nat, rawFrom: nat, encFrom: nat, rawEnd: nat, encEnd: nat)
    decreases |ds| - i
  {
    if i >= |ds| then rawFrom == rawEnd && encFrom == encEnd
    else
      && ds[i].index == i && ds[i].rawOffset == rawFrom && ds[i].encOffset == encFrom && ds[i].rawSize > 0
      && Tiled(ds, i + 1, rawFrom + ds[i].rawSize, encFrom + ds[i].encSize, rawEnd, encEnd)
  }

  lemma {:induction false} AcceptedBlocksTile(p: Prims, f: Signed, base: Option<Bytes>, payload: Bytes,
                                              ds: seq<Desc>, i: nat, nextEnc: nat, image: Bytes)
    requires i <= |ds| && nextEnc <= |payload|
    requires VerifyBlocks(p, f, base, payload, ds, i, nextEnc, image).Good?
    ensures Tiled(ds, i, |image|, nextEnc, f.rawSize, |payload|)
    ensures |VerifyBlocks(p, f, base, payload, ds, i, nextEnc, image).value| == f.rawSize
    decreases |ds| - i
  {
    hide BlockRaw;
    if i < |ds| {
      var raw := CheckBlock(p, f, base, payload, ds[i], i, i + 1 < |ds|, |image|, nextEnc).value;
      BlockRawLength(p, f, base, ds[i], payload[nextEnc..nextEnc + ds[i].encSize], |image|);
      AcceptedBlocksTile(p, f, base, payload, ds, i + 1, nextEnc + ds[i].encSize, image + raw);
    }
  }

  lemma {:induction false} BlockRawLength(p: Prims, f: Signed, base: Option<Bytes>, d: Desc, encoded: Bytes, from: nat)
    requires BlockRaw(p, f, base, d, encoded, from).Good?
    ensures |BlockRaw(p, f, base, d, encoded, from).value| == d.rawSize
  {
  }

  // An accepted artifact: signed, its image hashing to the signed hash, and 1..1024 blocks covering the
  // image and the payload without gap or overlap.
  lemma {:induction false} AcceptedArtifact(p: Prims, a: Bytes, base: Option<Bytes>)
    requires Verify(p, a, base).Good?
    ensures var Verified(_, m, f, image) := Verify(p, a, base).value;
            && p.verify(m.signedFields, m.signature) && p.decodeSigned(m.signedFields) == Some(f)
            && p.sha(image) == f.imageSha && |image| == f.rawSize
            && 0 < |m.blocks| == f.blockCount <= MAX_BLOCKS
            && ChainFrom(p, ZeroChain(), m.blocks) == f.tableSha
            && Tiled(m.blocks, 0, 0, 0, f.rawSize, f.encSize)
  {
    hide Tiled, CheckBlock, ChainFrom, FromLe;
    var Parsed(m, f, payload) := Parse(p, a).value;
    var from := if f.codec.DeltaBlock? then base else None;
    AcceptedBlocksTile(p, f, from, payload, m.blocks, 0, 0, []);
    AcceptedImageHash(p, f, from, payload, m.blocks, 0, 0, []);
  }

  lemma {:induction false} AcceptedImageHash(p: Prims, f: Signed, base: Option<Bytes>, payload: Bytes,
                                             ds: seq<Desc>, i: nat, nextEnc: nat, image: Bytes)
    requires i <= |ds| && nextEnc <= |payload|
    requires VerifyBlocks(p, f, base, payload, ds, i, nextEnc, image).Good?
    ensures p.sha(VerifyBlocks(p, f, base, payload, ds, i, nextEnc, image).value) == f.imageSha
    decreases |ds| - i
  {
    hide BlockRaw;
    if i < |ds| {
      var raw := CheckBlock(p, f, base, payload, ds[i], i, i + 1 < |ds|, |image|, nextEnc).value;
      AcceptedImageHash(p, f, base, payload, ds, i + 1, nextEnc + ds[i].encSize, image + raw);
    }
  }

  // ---- The loops

  method BlockTableChain(p: Prims, blocks: seq<Desc>) returns (chain: Bytes)
    ensures chain == ChainFrom(p, ZeroChain(), blocks)
  {
    hide ZeroChain;
    chain := ZeroChain();
    for i := 0 to |blocks|
      invariant ChainFrom(p, chain, blocks[i..]) == ChainFrom(p, ZeroChain(), blocks)
    {
      assert blocks[i..][0] == blocks[i] && blocks[i..][1..] == blocks[i + 1..];
      chain := ChainStep(p, chain, blocks[i]);
    }
  }

  function After(ds: seq<Desc>, rest: Res<(seq<Desc>, Bytes)>): Res<(seq<Desc>, Bytes)> {
    if rest.Bad? then rest else Good((ds + rest.value.0, rest.value.1))
  }

  method BuildArtifact(p: Prims, image: Bytes, base: Option<Bytes>, spec: Spec) returns (r: Res<Bytes>)
    ensures r == Build(p, image, base, spec)
  {
    hide BuildBlock, ChainFrom, ZeroChain, Assemble;
    if |image| == 0 || |image| > MAX_IMAGE { return Bad(InvalidField("image")); }
    if spec.project == "" || spec.chip == "" || spec.version == "" || spec.keyId == "" {
      return Bad(InvalidField("artifact identity"));
    }
    if spec.slotSize < |image| { return Bad(InvalidField("required_app_slot_size")); }
    var size := BlockSize(base);
    var blocks: seq<Desc>, payload: Bytes := [], [];
    var i := 0;
    ghost var first := BuildBlocks(p, image, base, 0, []);
    assert first.Good? ==> [] + first.value.0 == first.value.0;
    while i * size < |image|
      invariant After(blocks, BuildBlocks(p, image, base, i, payload)) == BuildBlocks(p, image, base, 0, [])
      decreases |image| - i
    {
      var block := BuildBlock(p, image, base, i, |payload|);
      if block.Bad? { return Bad(block.error); }
      var (d, encoded) := block.value;
      ghost var was, rest := blocks, BuildBlocks(p, image, base, i + 1, payload + encoded);
      assert rest.Good? ==> was + ([d] + rest.value.0) == (was + [d]) + rest.value.0;
      payload := payload + encoded;
      blocks := blocks + [d];
      i := i + 1;
    }
    assert blocks + [] == blocks;
    if |payload| >= U32_LIMIT || |blocks| >= U32_LIMIT { return Bad(SizeOverflow); }
    var table := BlockTableChain(p, blocks);
    var fields := SignedOf(p, image, base, spec, blocks, payload).(tableSha := table);
    var signed := p.encodeSigned(fields);
    r := Assemble(p, Manifest(signed, blocks, p.sign(signed)), payload);
  }

  method VerifyArtifact(p: Prims, a: Bytes, base: Option<Bytes>) returns (r: Res<Verified>)
    ensures r == Verify(p, a, base)
  {
    hide Parse, VerifyBlocks, ChainFrom, ZeroChain;
    var parsed := Parse(p, a);
    if parsed.Bad? { return Bad(parsed.error); }
    var Parsed(m, f, payload) := parsed.value;
    if f.schema != SCHEMA_VERSION { return Bad(InvalidField("schema_version")); }
    if |m.signature| != SIGNATURE_LEN { return Bad(InvalidField("signature")); }
    if !p.verify(m.signedFields, m.signature) { return Bad(Signature); }
    if !SizesOk(f, |m.blocks|, |payload|) { return Bad(InvalidField("artifact sizes")); }
    if |f.tableSha| != SHA_LEN { return Bad(InvalidField("block_table_sha256")); }
    var table := BlockTableChain(p, m.blocks);
    if table != f.tableSha { return Bad(BlockTableHash); }
    if |f.encSha| != SHA_LEN { return Bad(InvalidField("encoded_sha256")); }
    if p.sha(payload) != f.encSha { return Bad(EncodedHash); }
    if f.codec.OtherCodec? { return Bad(UnsupportedCodec); }
    if f.blockSize != (if f.codec.FullDeflate? then FULL_BLOCK else DELTA_BLOCK) {
      return Bad(InvalidField("block_size"));
    }
    if f.codec.FullDeflate? && |f.baseSha| != 0 { return Bad(InvalidField("base_image_sha256")); }
    if f.codec.DeltaBlock? {
      if base.None? { return Bad(MissingBaseImage); }
      if |f.baseSha| != SHA_LEN { return Bad(InvalidField("base_image_sha256")); }
      if p.sha(base.value) != f.baseSha { return Bad(WrongBaseImage); }
    }
    var image := VerifyBlockLoop(p, f, if f.codec.DeltaBlock? then base else None, payload, m.blocks);
    r := if image.Bad? then Bad(image.error) else Good(Verified(p.sha(a), m, f, image.value));
  }

  method CopyInto(image: array<Byte>, at: nat, raw: Bytes)
    requires at + |raw| <= image.Length
    modifies image
    ensures image[..at + |raw|] == old(image[..at]) + raw
    ensures image[at + |raw|..] == old(image[at + |raw|..])
  {
    for k := 0 to |raw|
      invariant image[..at + k] == old(image[..at]) + raw[..k]
      invariant image[at + |raw|..] == old(image[at + |raw|..])
    {
      image[at + k] := raw[k];
    }
  }

  lemma {:induction false} VerifyUnfolds(p: Prims, f: Signed, base: Option<Bytes>, payload: Bytes, ds: seq<Desc>,
                                         i: nat, nextEnc: nat, image: Bytes)
    requires i <= |ds| && nextEnc <= |payload|
    ensures i == |ds| ==>
              VerifyBlocks(p, f, base, payload, ds, i, nextEnc, image) == CheckImage(p, f, payload, nextEnc, image)
    ensures i < |ds| ==>
              var raw := CheckBlock(p, f, base, payload, ds[i], i, i + 1 < |ds|, |image|, nextEnc);
              VerifyBlocks(p, f, base, payload, ds, i, nextEnc, image) ==
              if raw.Bad? then raw
              else VerifyBlocks(p, f, base, payload, ds, i + 1, nextEnc + ds[i].encSize, image + raw.value)
  {
    hide CheckBlock, CheckImage;
  }

  lemma {:induction false} CheckedFits(p: Prims, f: Signed, base: Option<Bytes>, payload: Bytes, d: Desc, i: nat,
                                       more: bool, nextRaw: nat, nextEnc: nat)
    requires nextEnc <= |payload| && CheckBlock(p, f, base, payload, d, i, more, nextRaw, nextEnc).Good?
    ensures |CheckBlock(p, f, base, payload, d, i, more, nextRaw, nextEnc).value| == d.rawSize
    ensures nextRaw + d.rawSize <= f.rawSize
  {
    hide BlockRaw;
    BlockRawLength(p, f, base, d, payload[nextEnc..nextEnc + d.encSize], nextRaw);
  }

  // The loop over the blocks fills an image allocated at its signed size.
  method VerifyBlockLoop(p: Prims, f: Signed, base: Option<Bytes>, payload: Bytes, blocks: seq<Desc>)
    returns (r: Res<Bytes>)
    ensures r == VerifyBlocks(p, f, base, payload, blocks, 0, 0, [])
  {
    hide BlockRaw, CheckImage, CheckBlock, VerifyBlocks;
    var image := new Byte[f.rawSize](_ => 0);
    var nextRaw: nat, nextEnc: nat := 0, 0;
    for i := 0 to |blocks|
      invariant nextRaw <= image.Length && nextEnc <= |payload|
      invariant VerifyBlocks(p, f, base, payload, blocks, i, nextEnc, image[..nextRaw]) ==
                VerifyBlocks(p, f, base, payload, blocks, 0, 0, [])
    {
      var d := blocks[i];
      VerifyUnfolds(p, f, base, payload, blocks, i, nextEnc, image[..nextRaw]);
      var raw := CheckBlock(p, f, base, payload, d, i, i + 1 < |blocks|, nextRaw, nextEnc);
      if raw.Bad? { return raw; }
      CheckedFits(p, f, base, payload, d, i, i + 1 < |blocks|, nextRaw, nextEnc);
      CopyInto(image, nextRaw, raw.value);
      nextRaw := nextRaw + d.rawSize;
      nextEnc := nextEnc + d.encSize;
    }
    VerifyUnfolds(p, f, base, payload, blocks, |blocks|, nextEnc, image[..nextRaw]);
    r := CheckImage(p, f, payload, nextEnc, image[..nextRaw]);
  }
}
