// The data of OTA v3 artifacts, and the primitives the pipeline takes as given
// (include/keemash_ota_v3.h, protocol/keelink-fabric-v2.proto:289-328).
module OtaTypes {
  import opened Base

  type Byte = x: int | 0 <= x < 256
  type Bytes = seq<Byte>

  const SCHEMA_VERSION: nat := 1
  const SHA_LEN: nat := 32
  const SIGNATURE_LEN: nat := 64
  const FULL_BLOCK: nat := 16384
  const DELTA_BLOCK: nat := 8192
  const WINDOW_BITS: nat := 11
  const MAX_IMAGE: nat := 8388608       // 8 MiB
  const MAX_PACKAGE: nat := 16777216    // 16 MiB
  const MAX_BLOCKS: nat := 1024
  const MAX_CHUNK: nat := 2048
  const READ_BYTES: nat := 2048         // one read, and one window of inflated output
  const CHECKPOINT_BYTES: nat := 65536  // the default of CONFIG_KEEMASH_OTA_V3_CHECKPOINT_BYTES
  const SIGNED_FIELDS_MAX: nat := 1024

  datatype Kind = Deflate | CopyBase | OtherKind(code: int)
  datatype Codec = FullDeflate | DeltaBlock | OtherCodec(code: int)

  datatype Desc = Desc(index: u32, rawOffset: u32, rawSize: u32, encOffset: u32, encSize: u32,
                       kind: Kind, rawSha: Bytes, encSha: Bytes)

  datatype Signed = Signed(schema: u32, project: string, chip: string, version: string, commit: string,
                           minCore: u32, minFabric: u32, rawSize: u32, encSize: u32, slotSize: u32,
                           codec: Codec, imageSha: Bytes, encSha: Bytes, tableSha: Bytes, baseSha: Bytes,
                           blockSize: u32, blockCount: u32, windowBits: u32, keyId: string)

  datatype Manifest = Manifest(signedFields: Bytes, blocks: seq<Desc>, signature: Bytes)

  datatype Err =
    | Ok | InvalidArg | InvalidSize | InvalidState | InvalidCrc | InvalidResponse
    | NotSupported | NotFound | Failed

  // SHA-256, raw DEFLATE (RFC 1951), CRC-32, P-256 and protobuf, as functions.  `inflate` is the result
  // of one block's whole encoding, when it is one complete stream consumed exactly; `inflatePart` is what
  // has come out after a part of it.
  datatype Prims = Prims(
    sha: Bytes -> Bytes,
    crc32: Bytes -> u32,
    inflate: Bytes -> Option<Bytes>,
    inflatePart: Bytes -> Option<Bytes>,
    deflate: Bytes -> Option<Bytes>,
    encodeDesc: Desc -> Bytes,
    encodeSigned: Signed -> Bytes,
    decodeSigned: Bytes -> Option<Signed>,
    encodeManifest: Manifest -> Bytes,
    decodeManifest: Bytes -> Option<Manifest>,
    sign: Bytes -> Bytes,
    verify: (Bytes, Bytes) -> bool)

  ghost predicate ShaLaw(p: Prims) {
    forall b :: |p.sha(b)| == SHA_LEN
  }

  // Streaming inflation agrees with inflation of the whole: output only grows, and a part of a good
  // stream yields a prefix of its result.
  ghost predicate InflateLaw(p: Prims) {
    && p.inflatePart([]) == Some([])
    && (forall e, k :: 0 <= k <= |e| && p.inflatePart(e).Some? ==>
          p.inflatePart(e[..k]).Some? && p.inflatePart(e[..k]).value <= p.inflatePart(e).value)
    && (forall e, k :: 0 <= k < |e| && p.inflate(e).Some? ==>
          p.inflatePart(e[..k]).Some? && p.inflatePart(e[..k]).value <= p.inflate(e).value)
  }

  // An empty protobuf message is all defaults.
  ghost predicate DecodeLaw(p: Prims) {
    p.decodeSigned([]).Some? ==> p.decodeSigned([]).value.schema == 0
  }

  // What a builder signs and encodes: no codec and no kind it does not know, and a whole signature.
  predicate BuilderSigned(f: Signed) {
    !f.codec.OtherCodec?
  }

  predicate BuilderManifest(m: Manifest) {
    |m.signature| == SIGNATURE_LEN && forall i :: 0 <= i < |m.blocks| ==> !m.blocks[i].kind.OtherKind?
  }

  // On what a builder makes, encoders and their decoders are inverse; signing and verifying match, and so do
  // deflation and inflation.
  ghost predicate BuildLaws(p: Prims) {
    && (forall m :: BuilderManifest(m) ==>
          p.decodeManifest(p.encodeManifest(m)) == Some(m) && |p.encodeManifest(m)| > 0)
    && (forall f :: BuilderSigned(f) ==> p.decodeSigned(p.encodeSigned(f)) == Some(f))
    && (forall b :: |p.sign(b)| == SIGNATURE_LEN && p.verify(b, p.sign(b)))
    && (forall raw :: p.deflate(raw).Some? ==>
          |p.deflate(raw).value| > 0 && p.inflate(p.deflate(raw).value) == Some(raw))
  }

  // The block table hash: a chain over the descriptors, from 32 zero bytes.
  function ZeroChain(): Bytes {
    [0, 0, 0, 0, 0, 0, 0, 0, 0, 0, 0, 0, 0, 0, 0, 0,
     0, 0, 0, 0, 0, 0, 0, 0, 0, 0, 0, 0, 0, 0, 0, 0]
  }

  function ChainStep(p: Prims, chain: Bytes, d: Desc): Bytes {
    p.sha(chain + p.encodeDesc(d))
  }

  function ChainFrom(p: Prims, chain: Bytes, ds: seq<Desc>): Bytes
    decreases |ds|
  {
    if |ds| == 0 then chain else ChainFrom(p, ChainStep(p, chain, ds[0]), ds[1..])
  }
}
