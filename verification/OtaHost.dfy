// Exactly what the host builds, when it builds, and what it accepts (rust/keemash-keelink/src/ota.rs:196-323,
// 369-496).
module OtaHost {
  import opened Base
  import opened OtaTypes
  import opened OtaArtifact

  // ---- Blocks of an image

  function BlockEnd(image: Bytes, size: nat, i: nat): nat {
    if (i + 1) * size < |image| then (i + 1) * size else |image|
  }

  // The bytes of block i.
  function Block(image: Bytes, size: nat, i: nat): Bytes
    requires i * size < |image|
  {
    image[i * size..BlockEnd(image, size, i)]
  }

  // The base image has the very bytes of block i at the same place.
  predicate SameInBase(image: Bytes, base: Option<Bytes>, size: nat, i: nat)
    requires i * size < |image|
  {
    base.Some? && BlockEnd(image, size, i) <= |base.value| &&
    base.value[i * size..BlockEnd(image, size, i)] == Block(image, size, i)
  }

  function SizeFor(base: Option<Bytes>): nat {
    if base.Some? then 8192 else 16384
  }

  // One after the other.
  function Join(parts: seq<Bytes>): Bytes {
    if |parts| == 0 then [] else parts[0] + Join(parts[1..])
  }

  // The length of the first n.
  function Length(parts: seq<Bytes>, n: nat): nat
    requires n <= |parts|
  {
    if n == 0 then 0 else |parts[0]| + Length(parts[1..], n - 1)
  }

  lemma {:induction false} LengthIsJoin(parts: seq<Bytes>, n: nat)
    requires n <= |parts|
    ensures Length(parts, n) <= |Join(parts)| && (n == |parts| ==> Length(parts, n) == |Join(parts)|)
    decreases n
  {
    if n > 0 { LengthIsJoin(parts[1..], n - 1); }
  }

  // What blocks i.. are sent as: nothing for a block the base has, else its deflation.
  predicate Encodes(p: Prims, image: Bytes, base: Option<Bytes>, i: nat, encs: seq<Bytes>) {
    && (i + |encs|) * SizeFor(base) >= |image|
    && forall j :: 0 <= j < |encs| ==> EncodesBlock(p, image, base, i + j, encs[j])
  }

  predicate EncodesBlock(p: Prims, image: Bytes, base: Option<Bytes>, i: nat, enc: Bytes) {
    i * SizeFor(base) < |image| &&
    if SameInBase(image, base, SizeFor(base), i) then enc == []
    else p.deflate(Block(image, SizeFor(base), i)) == Some(enc)
  }

  // Descriptor of block i, whose encoding starts at `at`.
  function Described(p: Prims, image: Bytes, base: Option<Bytes>, i: nat, at: nat, enc: Bytes): Desc
    requires i * SizeFor(base) < |image| <= MAX_IMAGE && at + |enc| < 0x1_0000_0000
  {
    var raw := Block(image, SizeFor(base), i);
    Desc(i, i * SizeFor(base), |raw|, at, |enc|,
         if SameInBase(image, base, SizeFor(base), i) then CopyBase else Deflate, p.sha(raw), p.sha(enc))
  }

  // The descriptors of blocks i.., the encodings from `at` on in the payload.
  predicate Describes(p: Prims, image: Bytes, base: Option<Bytes>, i: nat, at: nat, encs: seq<Bytes>, ds: seq<Desc>)
    requires |image| <= MAX_IMAGE && at + |Join(encs)| < 0x1_0000_0000
  {
    && |ds| == |encs|
    && forall j :: 0 <= j < |ds| ==> DescribesAt(p, image, base, i, at, encs, ds, j)
  }

  predicate DescribesAt(p: Prims, image: Bytes, base: Option<Bytes>, i: nat, at: nat, encs: seq<Bytes>, ds: seq<Desc>,
                        j: nat)
    requires |image| <= MAX_IMAGE && at + |Join(encs)| < 0x1_0000_0000 && j < |ds| == |encs|
  {
    LengthIsJoin(encs, j);
    EachWithin(encs, j);
    (i + j) * SizeFor(base) < |image| && ds[j] == Described(p, image, base, i + j, at + Length(encs, j), encs[j])
  }

  lemma {:induction false} EachWithin(encs: seq<Bytes>, j: nat)
    requires j < |encs|
    ensures Length(encs, j) + |encs[j]| <= |Join(encs)|
    decreases j
  {
    if j > 0 {
      EachWithin(encs[1..], j - 1);
      assert encs[1..][j - 1] == encs[j];
    }
  }

  lemma {:induction false} BlockIs(p: Prims, image: Bytes, base: Option<Bytes>, i: nat, at: nat)
    requires i * SizeFor(base) < |image| <= MAX_IMAGE && at < 0x1_0000_0000
    ensures BlockSize(base) == SizeFor(base)
    ensures forall enc :: EncodesBlock(p, image, base, i, enc) && at + |enc| < 0x1_0000_0000 ==>
              BuildBlock(p, image, base, i, at) == Good((Described(p, image, base, i, at, enc), enc))
    ensures BuildBlock(p, image, base, i, at).Good? ==>
              EncodesBlock(p, image, base, i, BuildBlock(p, image, base, i, at).value.1)
  {
    assert RawBlock(image, BlockSize(base), i) == Block(image, SizeFor(base), i);
    assert CanCopy(base, RawBlock(image, BlockSize(base), i), i * BlockSize(base)) ==
           SameInBase(image, base, SizeFor(base), i);
  }

  lemma {:induction false} RestEncodes(p: Prims, image: Bytes, base: Option<Bytes>, i: nat, encs: seq<Bytes>)
    requires Encodes(p, image, base, i, encs) && i * SizeFor(base) < |image|
    ensures |encs| > 0 && EncodesBlock(p, image, base, i, encs[0]) && Encodes(p, image, base, i + 1, encs[1..])
  {
    hide EncodesBlock;
    assert EncodesBlock(p, image, base, i + 0, encs[0]);
    forall j | 0 <= j < |encs[1..]| ensures EncodesBlock(p, image, base, i + 1 + j, encs[1..][j]) {
      assert EncodesBlock(p, image, base, i + (j + 1), encs[j + 1]);
    }
    assert i + |encs| == i + 1 + |encs[1..]|;
  }

  lemma {:induction false} DescribesOne(p: Prims, image: Bytes, base: Option<Bytes>, i: nat, at: nat, encs: seq<Bytes>,
                                        ds: seq<Desc>, d: Desc)
    requires |encs| > 0 && i * SizeFor(base) < |image| <= MAX_IMAGE && at + |Join(encs)| < 0x1_0000_0000
    requires Describes(p, image, base, i + 1, at + |encs[0]|, encs[1..], ds)
    requires d == Described(p, image, base, i, at, encs[0])
    ensures Describes(p, image, base, i, at, encs, [d] + ds)
  {
    hide Described;
    forall j | 0 <= j < |[d] + ds| ensures DescribesAt(p, image, base, i, at, encs, [d] + ds, j) {
      LengthIsJoin(encs, j);
      EachWithin(encs, j);
      if j > 0 {
        assert DescribesAt(p, image, base, i + 1, at + |encs[0]|, encs[1..], ds, j - 1);
      }
    }
  }

  // The loop builds just these encodings and descriptors.
  lemma {:induction false} BuildsEncodings(p: Prims, image: Bytes, base: Option<Bytes>, i: nat, payload: Bytes,
                                           encs: seq<Bytes>)
    returns (ds: seq<Desc>)
    requires Encodes(p, image, base, i, encs) && |image| <= MAX_IMAGE && |payload| + |Join(encs)| < 0x1_0000_0000
    requires i * SizeFor(base) >= |image| ==> |encs| == 0
    ensures BuildBlocks(p, image, base, i, payload) == Good((ds, payload + Join(encs)))
    ensures Describes(p, image, base, i, |payload|, encs, ds)
    decreases |encs|
  {
    hide BuildBlock, EncodesBlock, Described, Describes, Encodes;
    assert BlockSize(base) == SizeFor(base);
    if i * SizeFor(base) >= |image| {
      ds := [];
      assert payload + [] == payload;
      NothingDescribed(p, image, base, i, |payload|);
    } else {
      RestEncodes(p, image, base, i, encs);
      BlockIs(p, image, base, i, |payload|);
      RestEmpty(p, image, base, i + 1, encs[1..]);
      var rest := BuildsEncodings(p, image, base, i + 1, payload + encs[0], encs[1..]);
      var d := Described(p, image, base, i, |payload|, encs[0]);
      ds := [d] + rest;
      DescribesOne(p, image, base, i, |payload|, encs, rest, d);
      assert payload + encs[0] + Join(encs[1..]) == payload + Join(encs);
    }
  }

  lemma {:induction false} NothingDescribed(p: Prims, image: Bytes, base: Option<Bytes>, i: nat, at: nat)
    requires |image| <= MAX_IMAGE && at < 0x1_0000_0000
    ensures Describes(p, image, base, i, at, [], [])
  {
  }

  lemma {:induction false} RestEmpty(p: Prims, image: Bytes, base: Option<Bytes>, i: nat, encs: seq<Bytes>)
    requires Encodes(p, image, base, i, encs)
    ensures i * SizeFor(base) >= |image| ==> |encs| == 0
  {
    if |encs| > 0 { assert EncodesBlock(p, image, base, i + 0, encs[0]); }
  }

  // And it succeeds only when there are such encodings.
  lemma {:induction false} EncodingsBuilt(p: Prims, image: Bytes, base: Option<Bytes>, i: nat, payload: Bytes)
    returns (encs: seq<Bytes>)
    requires BuildBlocks(p, image, base, i, payload).Good? && |image| <= MAX_IMAGE
    ensures Encodes(p, image, base, i, encs)
    ensures i * SizeFor(base) >= |image| ==> |encs| == 0
    ensures BuildBlocks(p, image, base, i, payload).value.1 == payload + Join(encs)
    decreases |image| - i
  {
    hide BuildBlock, EncodesBlock, Encodes, Join, SizeFor;
    assert BlockSize(base) == SizeFor(base) by { SameSize(base); }
    if i * SizeFor(base) >= |image| {
      encs := [];
      NothingEncoded(p, image, base, i);
      assert payload + [] == payload;
    } else {
      BuiltWithin(p, image, base, i, payload);
      BlockIs(p, image, base, i, |payload|);
      hide BlockSize;
      var enc := BuildBlock(p, image, base, i, |payload|).value.1;
      var rest := EncodingsBuilt(p, image, base, i + 1, payload + enc);
      encs := [enc] + rest;
      EncodesOne(p, image, base, i, enc, rest);
      JoinOne(payload, enc, rest);
    }
  }

  lemma {:induction false} SameSize(base: Option<Bytes>)
    ensures BlockSize(base) == SizeFor(base)
  {
  }

  lemma {:induction false} NothingEncoded(p: Prims, image: Bytes, base: Option<Bytes>, i: nat)
    requires i * SizeFor(base) >= |image|
    ensures Encodes(p, image, base, i, []) && Join([]) == []
  {
  }

  lemma {:induction false} JoinOne(payload: Bytes, enc: Bytes, rest: seq<Bytes>)
    ensures payload + enc + Join(rest) == payload + Join([enc] + rest)
  {
    assert ([enc] + rest)[1..] == rest;
  }

  lemma {:induction false} BuiltWithin(p: Prims, image: Bytes, base: Option<Bytes>, i: nat, payload: Bytes)
    requires BuildBlocks(p, image, base, i, payload).Good? && i * SizeFor(base) < |image|
    ensures |payload| < 0x1_0000_0000 && i < |image|
  {
  }

  lemma {:induction false} EncodesOne(p: Prims, image: Bytes, base: Option<Bytes>, i: nat, enc: Bytes, rest: seq<Bytes>)
    requires EncodesBlock(p, image, base, i, enc) && Encodes(p, image, base, i + 1, rest) && i * SizeFor(base) < |image|
    ensures Encodes(p, image, base, i, [enc] + rest)
  {
    hide EncodesBlock;
    var encs := [enc] + rest;
    forall j | 0 <= j < |encs| ensures EncodesBlock(p, image, base, i + j, encs[j]) {
      if j > 0 {
        assert EncodesBlock(p, image, base, i + 1 + (j - 1), rest[j - 1]);
      }
    }
    assert i + |encs| == i + 1 + |rest|;
  }

  // ---- The whole artifact

  // The signed fields are what was asked for, and what the image, its blocks and its encodings are.
  predicate AsAsked(p: Prims, image: Bytes, base: Option<Bytes>, spec: Spec, encs: seq<Bytes>, ds: seq<Desc>,
                    f: Signed)
  {
    && f.schema == 1 && f.project == spec.project && f.chip == spec.chip && f.version == spec.version
    && f.commit == spec.commit && f.minCore == spec.minCore && f.minFabric == spec.minFabric
    && f.slotSize == spec.slotSize && f.keyId == spec.keyId && f.windowBits == 11
    && f.rawSize == |image| && f.encSize == |Join(encs)| && f.blockSize == SizeFor(base) && f.blockCount == |ds|
    && f.codec == (if base.Some? then DeltaBlock else FullDeflate)
    && f.imageSha == p.sha(image) && f.encSha == p.sha(Join(encs))
    && f.tableSha == ChainFrom(p, ZeroChain(), ds)
    && f.baseSha == if base.Some? then p.sha(base.value) else []
  }

  function SignedManifest(p: Prims, ds: seq<Desc>, f: Signed): Manifest {
    Manifest(p.encodeSigned(f), ds, p.sign(p.encodeSigned(f)))
  }

  predicate Legal(image: Bytes, spec: Spec) {
    && 0 < |image| <= 8388608 && spec.slotSize >= |image|
    && spec.project != "" && spec.chip != "" && spec.version != "" && spec.keyId != ""
  }

  // The encodings, descriptors and fields of an artifact that is within its bounds.
  predicate Package(p: Prims, image: Bytes, base: Option<Bytes>, spec: Spec, encs: seq<Bytes>, ds: seq<Desc>, f: Signed)
    requires |image| <= MAX_IMAGE
  {
    && Encodes(p, image, base, 0, encs) && |Join(encs)| < 0x1_0000_0000
    && Describes(p, image, base, 0, 0, encs, ds) && AsAsked(p, image, base, spec, encs, ds, f)
    && var size := |p.encodeManifest(SignedManifest(p, ds, f))|;
    && size <= 1048576 && 16 + size + |Join(encs)| <= 16777216
  }

  lemma {:induction false} DescribesOnce(p: Prims, image: Bytes, base: Option<Bytes>, encs: seq<Bytes>, ds: seq<Desc>,
                                         es: seq<Desc>)
    requires |image| <= MAX_IMAGE && |Join(encs)| < 0x1_0000_0000
    requires Describes(p, image, base, 0, 0, encs, ds) && Describes(p, image, base, 0, 0, encs, es)
    ensures ds == es
  {
    forall j | 0 <= j < |ds| ensures ds[j] == es[j] {
      assert DescribesAt(p, image, base, 0, 0, encs, ds, j) && DescribesAt(p, image, base, 0, 0, encs, es, j);
    }
  }

  // What Build does with the encodings.
  lemma {:induction false} BuildWith(p: Prims, image: Bytes, base: Option<Bytes>, spec: Spec, encs: seq<Bytes>,
                                     ds: seq<Desc>)
    requires Legal(image, spec) && BuildBlocks(p, image, base, 0, []) == Good((ds, Join(encs)))
    requires |Join(encs)| < 0x1_0000_0000 && |ds| < 0x1_0000_0000
    ensures var f := SignedOf(p, image, base, spec, ds, Join(encs));
            && AsAsked(p, image, base, spec, encs, ds, f)
            && Build(p, image, base, spec) == Assemble(p, SignedManifest(p, ds, f), Join(encs))
  {
    hide ChainFrom, ZeroChain, BuildBlocks, Assemble;
    assert BlockSize(base) == SizeFor(base);
  }

  lemma {:induction false} AssembleExactly(p: Prims, m: Manifest, payload: Bytes)
    ensures Assemble(p, m, payload).Good? <==>
            |p.encodeManifest(m)| <= 1048576 && 16 + |p.encodeManifest(m)| + |payload| <= 16777216
  {
  }

  lemma {:induction false} FewBlocks(p: Prims, image: Bytes, base: Option<Bytes>, encs: seq<Bytes>)
    requires Encodes(p, image, base, 0, encs) && |image| <= MAX_IMAGE
    ensures |encs| <= |image|
  {
    if |encs| > 0 { assert EncodesBlock(p, image, base, 0 + (|encs| - 1), encs[|encs| - 1]); }
  }

  // An artifact is built exactly when the request is legal and every block the base does not have deflates to
  // something that fits.
  lemma {:induction false} BuildExactly(p: Prims, image: Bytes, base: Option<Bytes>, spec: Spec)
    ensures Build(p, image, base, spec).Good? <==>
            Legal(image, spec) && exists encs, ds, f :: Package(p, image, base, spec, encs, ds, f)
  {
    hide Build, Package, Describes, Encodes;
    if Legal(image, spec) {
      if Build(p, image, base, spec).Good? {
        var encs, ds, f := BuiltPackage(p, image, base, spec);
      }
      forall encs, ds, f | Package(p, image, base, spec, encs, ds, f) ensures Build(p, image, base, spec).Good? {
        PackageBuilt(p, image, base, spec, encs, ds, f);
      }
    } else {
      NotBuilt(p, image, base, spec);
    }
  }

  lemma {:induction false} NotBuilt(p: Prims, image: Bytes, base: Option<Bytes>, spec: Spec)
    requires !Legal(image, spec)
    ensures Build(p, image, base, spec).Bad?
  {
    hide BuildBlocks, Assemble;
  }

  lemma {:induction false} BuiltPackage(p: Prims, image: Bytes, base: Option<Bytes>, spec: Spec)
    returns (encs: seq<Bytes>, ds: seq<Desc>, f: Signed)
    requires Legal(image, spec) && Build(p, image, base, spec).Good?
    ensures Package(p, image, base, spec, encs, ds, f)
  {
    var built := BuildBlocks(p, image, base, 0, []);
    BuildBounds(p, image, base, spec);
    encs := EncodingsBuilt(p, image, base, 0, []);
    assert [] + Join(encs) == Join(encs);
    ds := BuildsEncodings(p, image, base, 0, [], encs);
    f := SignedOf(p, image, base, spec, ds, Join(encs));
    hide Build, BuildBlocks, Encodes, Describes, AsAsked, SignedOf, Assemble;
    BuildWith(p, image, base, spec, encs, ds);
    AssembleExactly(p, SignedManifest(p, ds, f), Join(encs));
  }

  lemma {:induction false} BuildBounds(p: Prims, image: Bytes, base: Option<Bytes>, spec: Spec)
    requires Build(p, image, base, spec).Good?
    ensures var built := BuildBlocks(p, image, base, 0, []);
            built.Good? && |built.value.1| < 0x1_0000_0000 && |built.value.0| < 0x1_0000_0000
  {
    hide BuildBlocks, Assemble, ChainFrom;
  }

  // And what is built is that package: a signed manifest of those fields and descriptors, and the encodings.
  lemma {:induction false} PackageBuilt(p: Prims, image: Bytes, base: Option<Bytes>, spec: Spec, encs: seq<Bytes>,
                                        ds: seq<Desc>, f: Signed)
    requires Legal(image, spec) && Package(p, image, base, spec, encs, ds, f)
    ensures Build(p, image, base, spec).Good?
    ensures Build(p, image, base, spec) == Assemble(p, SignedManifest(p, ds, f), Join(encs))
    ensures BuildLaws(p) ==> Parse(p, Build(p, image, base, spec).value) ==
                             Good(Parsed(SignedManifest(p, ds, f), f, Join(encs)))
  {
    hide Build, BuildBlocks, Describes, Assemble, SizeFor;
    FewBlocks(p, image, base, encs);
    hide Encodes;
    var es := BuildsEncodings(p, image, base, 0, [], encs);
    assert [] + Join(encs) == Join(encs);
    DescribesOnce(p, image, base, encs, ds, es);
    assert |ds| == |encs| by { DescribesLength(p, image, base, encs, ds); }
    BuildWith(p, image, base, spec, encs, ds);
    assert f == SignedOf(p, image, base, spec, ds, Join(encs));
    AssembleExactly(p, SignedManifest(p, ds, f), Join(encs));
    hide SignedOf, AsAsked, Parse;
    if BuildLaws(p) { PackageParses(p, image, base, encs, ds, f); }
  }

  lemma {:induction false} DescribesLength(p: Prims, image: Bytes, base: Option<Bytes>, encs: seq<Bytes>, ds: seq<Desc>)
    requires |image| <= MAX_IMAGE && |Join(encs)| < 0x1_0000_0000 && Describes(p, image, base, 0, 0, encs, ds)
    ensures |ds| == |encs|
  {
  }

  lemma {:induction false} PackageParses(p: Prims, image: Bytes, base: Option<Bytes>, encs: seq<Bytes>, ds: seq<Desc>,
                                         f: Signed)
    requires BuildLaws(p) && |image| <= MAX_IMAGE && |Join(encs)| < 0x1_0000_0000 && !f.codec.OtherCodec?
    requires Describes(p, image, base, 0, 0, encs, ds) && Assemble(p, SignedManifest(p, ds, f), Join(encs)).Good?
    ensures Parse(p, Assemble(p, SignedManifest(p, ds, f), Join(encs)).value) ==
            Good(Parsed(SignedManifest(p, ds, f), f, Join(encs)))
  {
    hide Assemble, Parse;
    assert BuilderSigned(f);
    forall j | 0 <= j < |ds| ensures !ds[j].kind.OtherKind? {
      assert DescribesAt(p, image, base, 0, 0, encs, ds, j);
    }
    assert BuilderManifest(SignedManifest(p, ds, f));
    ParseAssembled(p, SignedManifest(p, ds, f), Join(encs));
  }

  // ---- What the host accepts

  // What a block's encoding stands for.
  predicate Decodes(p: Prims, f: Signed, base: Option<Bytes>, d: Desc, enc: Bytes, from: nat, raw: Bytes) {
    match d.kind
    case Deflate => |enc| > 0 && p.inflate(enc) == Some(raw) && |raw| == d.rawSize
    case CopyBase =>
      && f.codec.DeltaBlock? && enc == [] && base.Some? && from + d.rawSize <= |base.value|
      && raw == base.value[from..from + d.rawSize]
    case OtherKind(_) => false
  }

  // Block k is in its place, `from` bytes into the image and `at` into the payload, of the right size, and decodes
  // to `raw`, both hashing as it says.
  predicate SoundAt(p: Prims, f: Signed, base: Option<Bytes>, payload: Bytes, ds: seq<Desc>, k: nat, from: nat, at: nat,
                    raw: Bytes)
  {
    && k < |ds|
    && var d := ds[k];
    && d.index == k && d.rawOffset == from && d.encOffset == at
    && 0 < d.rawSize <= f.blockSize && (k + 1 < |ds| ==> d.rawSize == f.blockSize)
    && from + d.rawSize <= f.rawSize && at + d.encSize <= |payload|
    && |d.encSha| == 32 && |d.rawSha| == 32
    && p.sha(payload[at..at + d.encSize]) == d.encSha && p.sha(raw) == d.rawSha
    && Decodes(p, f, base, d, payload[at..at + d.encSize], from, raw)
  }

  // The encoded bytes of blocks i.., n of them.
  function Encoded(ds: seq<Desc>, i: nat, n: nat): nat
    requires i + n <= |ds|
    decreases n
  {
    if n == 0 then 0 else ds[i].encSize + Encoded(ds, i + 1, n - 1)
  }

  // Blocks i.., `from` bytes into the image and `at` into the payload, are sound one after the other.
  predicate Sound(p: Prims, f: Signed, base: Option<Bytes>, payload: Bytes, ds: seq<Desc>, i: nat, from: nat, at: nat,
                  raws: seq<Bytes>)
  {
    && i + |raws| == |ds|
    && forall j :: 0 <= j < |raws| ==>
         SoundAt(p, f, base, payload, ds, i + j, from + Length(raws, j), at + Encoded(ds, i, j), raws[j])
  }

  // The whole is covered, and hashes as the fields say.
  predicate Whole(p: Prims, f: Signed, payload: Bytes, at: nat, image: Bytes) {
    |image| == f.rawSize && at == |payload| && |f.imageSha| == 32 && p.sha(image) == f.imageSha
  }

  lemma {:induction false} CheckExactly(p: Prims, f: Signed, base: Option<Bytes>, payload: Bytes, ds: seq<Desc>, k: nat,
                                        from: nat, at: nat, raw: Bytes)
    requires k < |ds| && at <= |payload|
    ensures CheckBlock(p, f, base, payload, ds[k], k, k + 1 < |ds|, from, at) == Good(raw) <==>
            SoundAt(p, f, base, payload, ds, k, from, at, raw)
  {
  }

  lemma {:induction false} SoundRest(p: Prims, f: Signed, base: Option<Bytes>, payload: Bytes, ds: seq<Desc>, i: nat,
                                     from: nat, at: nat, raws: seq<Bytes>)
    requires i < |ds| && i + |raws| == |ds|
    ensures Sound(p, f, base, payload, ds, i, from, at, raws) <==>
            && SoundAt(p, f, base, payload, ds, i, from, at, raws[0])
            && Sound(p, f, base, payload, ds, i + 1, from + |raws[0]|, at + ds[i].encSize, raws[1..])
  {
    hide SoundAt;
    var rest := raws[1..];
    forall j | 0 <= j < |rest|
      ensures SoundAt(p, f, base, payload, ds, i + 1 + j, from + |raws[0]| + Length(rest, j),
                      at + ds[i].encSize + Encoded(ds, i + 1, j), rest[j]) ==
              SoundAt(p, f, base, payload, ds, i + (j + 1), from + Length(raws, j + 1), at + Encoded(ds, i, j + 1),
                      raws[j + 1])
    {
      assert i + 1 + j == i + (j + 1);
    }
    if Sound(p, f, base, payload, ds, i, from, at, raws) {
      assert SoundAt(p, f, base, payload, ds, i + 0, from + Length(raws, 0), at + Encoded(ds, i, 0), raws[0]);
      forall j | 0 <= j < |rest|
        ensures SoundAt(p, f, base, payload, ds, i + 1 + j, from + |raws[0]| + Length(rest, j),
                        at + ds[i].encSize + Encoded(ds, i + 1, j), rest[j])
      {
        assert SoundAt(p, f, base, payload, ds, i + (j + 1), from + Length(raws, j + 1), at + Encoded(ds, i, j + 1),
                       raws[j + 1]);
      }
    }
    if SoundAt(p, f, base, payload, ds, i, from, at, raws[0]) &&
       Sound(p, f, base, payload, ds, i + 1, from + |raws[0]|, at + ds[i].encSize, raws[1..]) {
      forall j | 0 <= j < |raws|
        ensures SoundAt(p, f, base, payload, ds, i + j, from + Length(raws, j), at + Encoded(ds, i, j), raws[j])
      {
        if j > 0 {
          assert SoundAt(p, f, base, payload, ds, i + 1 + (j - 1), from + |raws[0]| + Length(rest, j - 1),
                         at + ds[i].encSize + Encoded(ds, i + 1, j - 1), rest[j - 1]);
        }
      }
    }
  }

  // Sound blocks are accepted.
  lemma {:induction false} SoundAccepted(p: Prims, f: Signed, base: Option<Bytes>, payload: Bytes, ds: seq<Desc>,
                                         i: nat, at: nat, image: Bytes, raws: seq<Bytes>)
    requires i <= |ds| && at <= |payload| && Sound(p, f, base, payload, ds, i, |image|, at, raws)
    requires Whole(p, f, payload, at + Encoded(ds, i, |ds| - i), image + Join(raws))
    ensures VerifyBlocks(p, f, base, payload, ds, i, at, image) == Good(image + Join(raws))
    decreases |ds| - i
  {
    hide CheckBlock, SoundAt, Sound;
    assert i + |raws| == |ds| by { SoundLength(p, f, base, payload, ds, i, |image|, at, raws); }
    if i == |ds| {
      assert image + [] == image;
    } else {
      SoundRest(p, f, base, payload, ds, i, |image|, at, raws);
      CheckExactly(p, f, base, payload, ds, i, |image|, at, raws[0]);
      assert (image + raws[0]) + Join(raws[1..]) == image + Join(raws);
      SoundAccepted(p, f, base, payload, ds, i + 1, at + ds[i].encSize, image + raws[0], raws[1..]);
    }
  }

  lemma {:induction false} SoundLength(p: Prims, f: Signed, base: Option<Bytes>, payload: Bytes, ds: seq<Desc>, i: nat,
                                       from: nat, at: nat, raws: seq<Bytes>)
    requires Sound(p, f, base, payload, ds, i, from, at, raws)
    ensures i + |raws| == |ds|
  {
  }

  // Accepted blocks are sound.
  lemma {:induction false} AcceptedSound(p: Prims, f: Signed, base: Option<Bytes>, payload: Bytes, ds: seq<Desc>,
                                         i: nat, at: nat, image: Bytes)
    returns (raws: seq<Bytes>)
    requires i <= |ds| && at <= |payload| && VerifyBlocks(p, f, base, payload, ds, i, at, image).Good?
    ensures Sound(p, f, base, payload, ds, i, |image|, at, raws)
    ensures VerifyBlocks(p, f, base, payload, ds, i, at, image) == Good(image + Join(raws))
    ensures Whole(p, f, payload, at + Encoded(ds, i, |ds| - i), image + Join(raws))
    decreases |ds| - i
  {
    hide CheckBlock, SoundAt;
    if i == |ds| {
      raws := [];
      assert image + [] == image;
    } else {
      var raw := CheckBlock(p, f, base, payload, ds[i], i, i + 1 < |ds|, |image|, at).value;
      CheckExactly(p, f, base, payload, ds, i, |image|, at, raw);
      var rest := AcceptedSound(p, f, base, payload, ds, i + 1, at + ds[i].encSize, image + raw);
      raws := [raw] + rest;
      assert raws[1..] == rest;
      SoundRest(p, f, base, payload, ds, i, |image|, at, raws);
      assert (image + raw) + Join(rest) == image + Join(raws);
    }
  }

  // What the fields must be.
  predicate FieldsSound(p: Prims, m: Manifest, f: Signed, payload: Bytes, base: Option<Bytes>) {
    && f.schema == 1 && |m.signature| == 64 && p.verify(m.signedFields, m.signature)
    && f.blockCount == |m.blocks| && 0 < |m.blocks| <= 1024 && 0 < f.rawSize <= 8388608 && f.encSize == |payload|
    && f.windowBits == 11 && f.slotSize >= f.rawSize && f.project != "" && f.chip != "" && f.keyId != ""
    && |f.tableSha| == 32 && ChainFrom(p, ZeroChain(), m.blocks) == f.tableSha
    && |f.encSha| == 32 && p.sha(payload) == f.encSha
    && ((f.codec.FullDeflate? && f.blockSize == 16384 && f.baseSha == []) ||
        (f.codec.DeltaBlock? && f.blockSize == 8192 && base.Some? && |f.baseSha| == 32 &&
         p.sha(base.value) == f.baseSha))
  }

  // A parsed artifact is accepted with an image exactly when its fields are sound and its blocks, one after the
  // other, decode to that image.
  lemma {:induction false} VerifyExactly(p: Prims, m: Manifest, f: Signed, payload: Bytes, base: Option<Bytes>,
                                         image: Bytes)
    ensures VerifyParsed(p, m, f, payload, base) == Good(image) <==>
            && FieldsSound(p, m, f, payload, base)
            && exists raws ::
                 && Sound(p, f, if f.codec.DeltaBlock? then base else None, payload, m.blocks, 0, 0, 0, raws)
                 && image == Join(raws) && Whole(p, f, payload, Encoded(m.blocks, 0, |m.blocks|), image)
  {
    hide VerifyBlocks, ChainFrom, ZeroChain, Sound, Whole;
    var from := if f.codec.DeltaBlock? then base else None;
    assert FieldsSound(p, m, f, payload, base) ==>
             VerifyParsed(p, m, f, payload, base) == VerifyBlocks(p, f, from, payload, m.blocks, 0, 0, []);
    assert !FieldsSound(p, m, f, payload, base) ==> VerifyParsed(p, m, f, payload, base).Bad?;
    hide FieldsSound, VerifyParsed;
    if VerifyBlocks(p, f, from, payload, m.blocks, 0, 0, []).Good? {
      var raws := AcceptedSound(p, f, from, payload, m.blocks, 0, 0, []);
      assert [] + Join(raws) == Join(raws);
    }
    forall raws | Sound(p, f, from, payload, m.blocks, 0, 0, 0, raws) && image == Join(raws) &&
                  Whole(p, f, payload, Encoded(m.blocks, 0, |m.blocks|), image)
      ensures VerifyBlocks(p, f, from, payload, m.blocks, 0, 0, []) == Good(image)
    {
      assert [] + Join(raws) == Join(raws);
      SoundAccepted(p, f, from, payload, m.blocks, 0, 0, [], raws);
    }
  }
}
