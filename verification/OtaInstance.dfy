// Primitives that meet every law the pipeline's theorems ask for: a hash of 32 zero bytes, deflation that adds
// a byte, a signature of 64 zero bytes, and encodings that are told apart.
module OtaInstance {
  import opened Base
  import opened OtaTypes
  import opened OtaFields
  import opened OtaStream
  import opened OtaEquivalence
  import opened OtaResume
  import opened OtaJournal
  import opened OtaReceiver
  import A = OtaArtifact
  import P = OtaPackage
  import S = OtaBootSafety
  import T = OtaTransfer

  // ---- Lists of numbers as bytes

  const NUMBER_END: Byte := 255
  const LIST_END: Byte := 254

  function Digits(n: nat): Bytes {
    if n == 0 then [NUMBER_END] else [n % 128] + Digits(n / 128)
  }

  function List(xs: seq<nat>): (b: Bytes)
    ensures |b| > 0
    decreases |xs|
  {
    if |xs| == 0 then [LIST_END] else Digits(xs[0]) + List(xs[1..])
  }

  function Lists(ls: seq<seq<nat>>): (b: Bytes)
    ensures |ls| > 0 ==> |b| > 0
    decreases |ls|
  {
    if |ls| == 0 then [] else List(ls[0]) + Lists(ls[1..])
  }

  lemma {:induction false} DigitsSplit(m: nat, n: nat, r: Bytes, q: Bytes)
    requires Digits(m) + r == Digits(n) + q
    ensures m == n && r == q
  {
    var a, b := Digits(m) + r, Digits(n) + q;
    assert a[0] == b[0];
    assert a[0] == (if m == 0 then NUMBER_END else m % 128) && b[0] == (if n == 0 then NUMBER_END else n % 128);
    if m == 0 {
      assert r == a[1..] && q == b[1..];
    } else {
      assert a[1..] == Digits(m / 128) + r && b[1..] == Digits(n / 128) + q;
      DigitsSplit(m / 128, n / 128, r, q);
    }
  }

  lemma {:induction false} ListSplit(xs: seq<nat>, ys: seq<nat>, r: Bytes, q: Bytes)
    requires List(xs) + r == List(ys) + q
    ensures xs == ys && r == q
    decreases |xs|
  {
    var a, b := List(xs) + r, List(ys) + q;
    assert a[0] == b[0];
    FirstByte(xs, r);
    FirstByte(ys, q);
    if |xs| == 0 {
      assert r == a[1..] && q == b[1..];
    } else {
      assert a == Digits(xs[0]) + (List(xs[1..]) + r) && b == Digits(ys[0]) + (List(ys[1..]) + q);
      DigitsSplit(xs[0], ys[0], List(xs[1..]) + r, List(ys[1..]) + q);
      ListSplit(xs[1..], ys[1..], r, q);
      assert xs == [xs[0]] + xs[1..] && ys == [ys[0]] + ys[1..];
    }
  }

  lemma {:induction false} FirstByte(xs: seq<nat>, r: Bytes)
    ensures (List(xs) + r)[0] == LIST_END <==> xs == []
  {
  }

  lemma {:induction false} ListsInjective(ls: seq<seq<nat>>, ks: seq<seq<nat>>)
    requires Lists(ls) == Lists(ks)
    ensures ls == ks
    decreases |ls|
  {
    if |ls| > 0 && |ks| > 0 {
      ListSplit(ls[0], ks[0], Lists(ls[1..]), Lists(ks[1..]));
      ListsInjective(ls[1..], ks[1..]);
      assert ls == [ls[0]] + ls[1..] && ks == [ks[0]] + ks[1..];
    }
  }

  // ---- Encodings

  function Text(s: string): (xs: seq<nat>)
    ensures |xs| == |s| && forall i :: 0 <= i < |s| ==> xs[i] == s[i] as int
  {
    seq(|s|, i requires 0 <= i < |s| => s[i] as int)
  }

  function SignedLists(f: Signed): seq<seq<nat>> {
    [[f.schema, f.minCore, f.minFabric, f.rawSize, f.encSize, f.slotSize, f.blockSize, f.blockCount, f.windowBits,
      if f.codec.FullDeflate? then 0 else if f.codec.DeltaBlock? then 1 else 2],
     Text(f.project), Text(f.chip), Text(f.version), Text(f.commit), Text(f.keyId),
     f.imageSha, f.encSha, f.tableSha, f.baseSha]
  }

  function DescLists(d: Desc): (ls: seq<seq<nat>>)
    ensures |ls| == 3
  {
    [[d.index, d.rawOffset, d.rawSize, d.encOffset, d.encSize,
      if d.kind.Deflate? then 0 else if d.kind.CopyBase? then 1 else 2],
     d.rawSha, d.encSha]
  }

  function BlockLists(ds: seq<Desc>): (ls: seq<seq<nat>>)
    ensures |ls| == 3 * |ds|
    decreases |ds|
  {
    if |ds| == 0 then [] else DescLists(ds[0]) + BlockLists(ds[1..])
  }

  function ManifestLists(m: Manifest): seq<seq<nat>> {
    [m.signedFields, m.signature] + BlockLists(m.blocks)
  }

  lemma {:induction false} TextInjective(s: string, t: string)
    requires Text(s) == Text(t)
    ensures s == t
  {
    forall i | 0 <= i < |s|
      ensures s[i] == t[i]
    {
      assert Text(s)[i] == Text(t)[i];
    }
  }

  lemma {:induction false} SignedInjective(f: Signed, g: Signed)
    requires BuilderSigned(f) && BuilderSigned(g) && SignedLists(f) == SignedLists(g)
    ensures f == g
  {
    var (a, b) := (SignedLists(f), SignedLists(g));
    assert forall k :: 0 <= k < 10 ==> a[k] == b[k];
    assert forall k :: 0 <= k < 10 ==> a[0][k] == b[0][k];
    TextInjective(f.project, g.project);
    TextInjective(f.chip, g.chip);
    TextInjective(f.version, g.version);
    TextInjective(f.commit, g.commit);
    TextInjective(f.keyId, g.keyId);
  }

  lemma {:induction false} DescInjective(d: Desc, e: Desc)
    requires !d.kind.OtherKind? && !e.kind.OtherKind? && DescLists(d) == DescLists(e)
    ensures d == e
  {
    var (a, b) := (DescLists(d), DescLists(e));
    assert forall k :: 0 <= k < 3 ==> a[k] == b[k];
    assert forall k :: 0 <= k < 6 ==> a[0][k] == b[0][k];
  }

  lemma {:induction false} BlocksInjective(ds: seq<Desc>, es: seq<Desc>)
    requires forall i :: 0 <= i < |ds| ==> !ds[i].kind.OtherKind?
    requires forall i :: 0 <= i < |es| ==> !es[i].kind.OtherKind?
    requires BlockLists(ds) == BlockLists(es)
    ensures ds == es
    decreases |ds|
  {
    if |ds| > 0 {
      var (a, b) := (BlockLists(ds), BlockLists(es));
      assert DescLists(ds[0]) == a[..3] && DescLists(es[0]) == b[..3];
      assert BlockLists(ds[1..]) == a[3..] && BlockLists(es[1..]) == b[3..];
      DescInjective(ds[0], es[0]);
      BlocksInjective(ds[1..], es[1..]);
      assert ds == [ds[0]] + ds[1..] && es == [es[0]] + es[1..];
    }
  }

  lemma {:induction false} ManifestInjective(m: Manifest, n: Manifest)
    requires BuilderManifest(m) && BuilderManifest(n) && ManifestLists(m) == ManifestLists(n)
    ensures m == n
  {
    var (a, b) := (ManifestLists(m), ManifestLists(n));
    assert a[0] == m.signedFields && a[1] == m.signature && a[2..] == BlockLists(m.blocks);
    assert b[0] == n.signedFields && b[1] == n.signature && b[2..] == BlockLists(n.blocks);
    BlocksInjective(m.blocks, n.blocks);
  }

  // ---- The primitives

  ghost function DecodeSigned(b: Bytes): Option<Signed> {
    if exists f :: BuilderSigned(f) && Lists(SignedLists(f)) == b then
      var f :| BuilderSigned(f) && Lists(SignedLists(f)) == b;
      Some(f)
    else None
  }

  ghost function DecodeManifest(b: Bytes): Option<Manifest> {
    if exists m :: BuilderManifest(m) && Lists(ManifestLists(m)) == b then
      var m :| BuilderManifest(m) && Lists(ManifestLists(m)) == b;
      Some(m)
    else None
  }

  function Inflate(e: Bytes): Option<Bytes> {
    if |e| > 0 then Some(e[1..]) else None
  }

  function InflatePart(e: Bytes): Option<Bytes> {
    Some(if |e| > 0 then e[1..] else [])
  }

  ghost function Plain(): Prims {
    Prims(_ => ZeroChain(), _ => 0, Inflate, InflatePart, raw => Some([0] + raw),
          d => Lists(DescLists(d)), f => Lists(SignedLists(f)), DecodeSigned,
          m => Lists(ManifestLists(m)), DecodeManifest,
          _ => ZeroChain() + ZeroChain(), (_, _) => true)
  }

  lemma {:induction false} SignedRoundTrip(f: Signed)
    requires BuilderSigned(f)
    ensures DecodeSigned(Lists(SignedLists(f))) == Some(f)
  {
    var b := Lists(SignedLists(f));
    var g := DecodeSigned(b).value;
    ListsInjective(SignedLists(f), SignedLists(g));
    SignedInjective(f, g);
  }

  lemma {:induction false} ManifestRoundTrip(m: Manifest)
    requires BuilderManifest(m)
    ensures DecodeManifest(Lists(ManifestLists(m))) == Some(m)
  {
    var b := Lists(ManifestLists(m));
    var n := DecodeManifest(b).value;
    ListsInjective(ManifestLists(m), ManifestLists(n));
    ManifestInjective(m, n);
  }

  lemma {:induction false} PlainInflates()
    ensures InflateLaw(Plain()) && ShaLaw(Plain()) && DecodeLaw(Plain())
  {
    forall e, k | 0 <= k <= |e|
      ensures InflatePart(e[..k]).value <= InflatePart(e).value
    {
    }
  }

  lemma {:induction false} PlainBuilds()
    ensures BuildLaws(Plain())
  {
    var p := Plain();
    forall m | BuilderManifest(m)
      ensures p.decodeManifest(p.encodeManifest(m)) == Some(m) && |p.encodeManifest(m)| > 0
    {
      ManifestRoundTrip(m);
    }
    forall f | BuilderSigned(f)
      ensures p.decodeSigned(p.encodeSigned(f)) == Some(f)
    {
      SignedRoundTrip(f);
    }
    forall raw
      ensures p.inflate(p.deflate(raw).value) == Some(raw)
    {
      assert ([0] + raw)[1..] == raw;
    }
  }

  // ---- An image that is built, sent and booted with them

  lemma {:induction false} DigitsLength(n: nat, limit: nat, size: nat)
    requires n < limit && (size == 0 ==> limit == 1) && (size > 0 ==> limit % 128 == 0)
    requires size > 0 ==> Power(size) == limit
    ensures |Digits(n)| <= size + 1
    decreases size
  {
    if n > 0 {
      DigitsLength(n / 128, limit / 128, size - 1);
    }
  }

  function Power(size: nat): nat {
    if size == 0 then 1 else 128 * Power(size - 1)
  }

  function Numbers(ls: seq<seq<nat>>): nat
    decreases |ls|
  {
    if |ls| == 0 then 0 else |ls[0]| + Numbers(ls[1..])
  }

  predicate Words(xs: seq<nat>) {
    forall i :: 0 <= i < |xs| ==> xs[i] < 0x1_0000_0000
  }

  lemma {:induction false} ListLength(xs: seq<nat>)
    requires Words(xs)
    ensures |List(xs)| <= 6 * |xs| + 1
    decreases |xs|
  {
    if |xs| > 0 {
      assert Power(5) == 34359738368;
      DigitsLength(xs[0], Power(5), 5);
      ListLength(xs[1..]);
    }
  }

  lemma {:induction false} ListsLength(ls: seq<seq<nat>>)
    requires forall i :: 0 <= i < |ls| ==> Words(ls[i])
    ensures |Lists(ls)| <= 6 * Numbers(ls) + |ls|
    decreases |ls|
  {
    if |ls| > 0 {
      ListLength(ls[0]);
      ListsLength(ls[1..]);
    }
  }

  const SPEC: A.Spec := A.Spec("a", "b", "c", "d", 0, 0, 1, "e")

  // One block of one byte.
  function OneBlock(): Desc {
    Desc(0, 0, 1, 0, 2, Deflate, ZeroChain(), ZeroChain())
  }

  function OneSigned(): Signed {
    Signed(SCHEMA_VERSION, "a", "b", "c", "d", 0, 0, 1, 2, 1, FullDeflate, ZeroChain(), ZeroChain(), ZeroChain(), [],
           FULL_BLOCK, 1, WINDOW_BITS, "e")
  }

  function OneManifest(): Manifest {
    Manifest(Lists(SignedLists(OneSigned())), [OneBlock()], ZeroChain() + ZeroChain())
  }

  lemma {:induction false} OneBuilt()
    ensures A.BuildBlocks(Plain(), [7], None, 0, []) == A.Good(([OneBlock()], [0, 7]))
    ensures A.SignedOf(Plain(), [7], None, SPEC, [OneBlock()], [0, 7]) == OneSigned()
  {
    var p, raw: Bytes, none: Bytes := Plain(), [7], [];
    assert A.RawBlock(raw, FULL_BLOCK, 0) == raw;
    assert [0] + raw == [0, 7] && none + [0, 7] == [0, 7];
    assert A.Encode(p, None, raw, 0) == A.Good([0, 7]);
    assert A.BuildBlock(p, raw, None, 0, 0) == A.Good((OneBlock(), [0, 7]));
    assert A.BuildBlocks(p, raw, None, 1, none + [0, 7]) == A.Good(([], [0, 7]));
    assert [OneBlock()] + [] == [OneBlock()];
    assert A.BuildBlocks(p, raw, None, 0, none) == A.Good(([OneBlock()] + [], [0, 7]));
    assert ChainFrom(p, ZeroChain(), [OneBlock()]) == ZeroChain();
  }

  lemma {:induction false} NumbersJoin(ls: seq<seq<nat>>, ks: seq<seq<nat>>)
    ensures Numbers(ls + ks) == Numbers(ls) + Numbers(ks)
    decreases |ls|
  {
    if |ls| > 0 {
      assert (ls + ks)[1..] == ls[1..] + ks;
      NumbersJoin(ls[1..], ks);
    } else {
      assert ls + ks == ks;
    }
  }

  lemma {:induction false} NumbersBound(ls: seq<seq<nat>>, most: nat)
    requires forall i :: 0 <= i < |ls| ==> |ls[i]| <= most
    ensures Numbers(ls) <= most * |ls|
    decreases |ls|
  {
    if |ls| > 0 {
      NumbersBound(ls[1..], most);
    }
  }

  lemma {:induction false} SignedListsShape(f: Signed)
    requires |f.imageSha| <= SHA_LEN && |f.encSha| <= SHA_LEN && |f.tableSha| <= SHA_LEN && |f.baseSha| <= SHA_LEN
    ensures var ls := SignedLists(f);
            && |ls| == 10 && |ls[0]| == 10 && (forall i :: 0 <= i < |ls| ==> Words(ls[i]))
            && |ls[1]| == |f.project| && |ls[2]| == |f.chip| && |ls[3]| == |f.version| && |ls[4]| == |f.commit|
            && |ls[5]| == |f.keyId| && (forall i :: 6 <= i < 10 ==> |ls[i]| <= SHA_LEN)
  {
  }

  lemma {:induction false} SignedFits(f: Signed)
    requires |f.imageSha| <= SHA_LEN && |f.encSha| <= SHA_LEN && |f.tableSha| <= SHA_LEN && |f.baseSha| == 0
    requires |f.project| == |f.chip| == |f.version| == |f.commit| == |f.keyId| == 1
    ensures |Lists(SignedLists(f))| <= 1000
  {
    var ls := SignedLists(f);
    SignedListsShape(f);
    hide SignedLists, Lists, Words, Text;
    ListsLength(ls);
    var (head, names, hashes) := (ls[..1], ls[1..6], ls[6..]);
    assert ls == head + (names + hashes);
    NumbersJoin(head, names + hashes);
    NumbersJoin(names, hashes);
    hide Numbers;
    NumbersBound(head, 10);
    NumbersBound(names, 1);
    NumbersBound(hashes, SHA_LEN);
  }

  lemma {:induction false} ManifestFits(m: Manifest)
    requires |m.signedFields| <= 1000 && |m.signature| <= SIGNATURE_LEN && |m.blocks| == 1
    requires |m.blocks[0].rawSha| <= SHA_LEN && |m.blocks[0].encSha| <= SHA_LEN
    ensures |Lists(ManifestLists(m))| <= 40000
  {
    var ls, blocks := ManifestLists(m), DescLists(m.blocks[0]);
    assert ls == [m.signedFields, m.signature] + blocks;
    ListsLength(ls);
    hide Numbers, Lists;
    NumbersBound(ls, 1000);
  }

  // A device that can take it, and how it is cut.
  function OneDevice(): Device {
    S.Blank(map["app" := []])
  }

  function OneEnv(): PrepareEnv {
    PrepareEnv(Target("a", "b", 1, 0, 0), Ok, Some("app"), Ok, true, [])
  }

  const ONE_CUT: seq<seq<Cut>> := [[Cut(2, 0)]]

  lemma {:induction false} Encoded(f: Signed, d: Desc)
    requires BuilderSigned(f) && |Lists(SignedLists(f))| <= 1000
    requires !d.kind.OtherKind? && |d.rawSha| <= SHA_LEN && |d.encSha| <= SHA_LEN
    ensures var p := Plain();
            var m := Manifest(p.encodeSigned(f), [d], p.sign(p.encodeSigned(f)));
            && BuilderManifest(m) && |p.encodeManifest(m)| <= 40000
            && p.decodeSigned(m.signedFields) == Some(f)
  {
    var p := Plain();
    SignedRoundTrip(f);
    ManifestFits(Manifest(p.encodeSigned(f), [d], p.sign(p.encodeSigned(f))));
  }

  lemma {:induction false} OneEncoded()
    ensures var (p, m, f) := (Plain(), OneManifest(), OneSigned());
            && m == Manifest(p.encodeSigned(f), [OneBlock()], p.sign(p.encodeSigned(f)))
            && |m.signedFields| <= 1000 && BuilderManifest(m) && |p.encodeManifest(m)| <= 40000
            && p.decodeSigned(m.signedFields) == Some(f)
  {
    SignedFits(OneSigned());
    hide SignedLists, Lists, ManifestLists;
    Encoded(OneSigned(), OneBlock());
  }

  lemma {:induction false} OneBuild()
    ensures A.Assemble(Plain(), OneManifest(), [0, 7]).Good?
    ensures A.Build(Plain(), [7], None, SPEC) == A.Assemble(Plain(), OneManifest(), [0, 7])
  {
    OneBuilt();
    OneEncoded();
    hide Plain, OneManifest, OneSigned, OneBlock, A.BuildBlocks, A.SignedOf;
  }

  // A verified artifact is the one that was parsed.
  lemma {:induction false} VerifiedIsParsed(p: Prims, a: Bytes)
    requires A.Verify(p, a, None).Good?
    ensures var v := A.Verify(p, a, None).value;
            A.Parse(p, a).Good? && v.manifest == A.Parse(p, a).value.manifest && v.signed == A.Parse(p, a).value.signed
  {
    hide A.Parse, A.VerifyParsed;
  }

  lemma {:induction false} OneParsed()
    ensures var (p, a) := (Plain(), A.Build(Plain(), [7], None, SPEC));
            && a.Good? && A.Parse(p, a.value) == A.Good(A.Parsed(OneManifest(), OneSigned(), [0, 7]))
            && A.Verify(p, a.value, None).Good?
            && A.Verify(p, a.value, None).value.manifest == OneManifest()
            && A.Verify(p, a.value, None).value.signed == OneSigned()
  {
    PlainBuilds();
    PlainInflates();
    OneBuild();
    OneEncoded();
    hide Plain, BuildLaws, ShaLaw, BuilderManifest, A.Build, A.Parse, A.Verify, A.Assemble, OneManifest, OneSigned;
    A.ParseAssembled(Plain(), OneManifest(), [0, 7]);
    A.BuildThenVerify(Plain(), [7], None, SPEC);
    VerifiedIsParsed(Plain(), A.Build(Plain(), [7], None, SPEC).value);
  }

  lemma {:induction false} OneReceives()
    ensures T.CanReceive(OneDevice(), OneSigned(), OneEnv())
    ensures T.FitsDevice(Plain(), OneManifest(), OneSigned())
    ensures PlansOk(OneManifest().blocks, ONE_CUT)
  {
    OneEncoded();
    BlankOk();
    S.IdleOk(Plain());
    hide SignedLists, Lists, Plain;
    assert PlanOk([Cut(2, 0)], 2);
  }

  // The hypotheses of BuiltImageBoots are met, and so is its conclusion: this image boots.
  lemma {:induction false} OneImageBoots()
    ensures A.Build(Plain(), [7], None, SPEC).Good? && StreamWF(OneDevice().rx.stream)
    ensures PlansOk(OneManifest().blocks, ONE_CUT)
    ensures var a, m := A.Build(Plain(), [7], None, SPEC).value, OneManifest();
            var r := Request([], Plain().sha(a), m.signedFields, m.signature);
            var (err, t) := T.Transferred(Plain(), OneDevice(), r, OneEnv(),
                                          T.WholeScript([0, 7], m.blocks, ONE_CUT, 0));
            err == Ok && t.boot == Some("app") && "app" in t.slots && t.slots["app"] == [7]
  {
    PlainInflates();
    PlainBuilds();
    OneParsed();
    OneReceives();
    assert OneEnv().next == Some("app");
    hide Plain, BuildLaws, InflateLaw, ShaLaw, DecodeLaw, A.Build, A.Parse, A.Verify, T.Transferred, T.WholeScript,
         OneManifest, OneSigned, OneDevice, OneEnv, PlansOk, T.CanReceive, T.FitsDevice, StreamWF;
    A.BuildThenVerify(Plain(), [7], None, SPEC);
    T.BuiltImageBoots(Plain(), [7], SPEC, OneDevice(), [], OneEnv(), ONE_CUT);
  }

  // ---- A checkpoint that cannot be resumed

  const ENCODED: nat := 16385  // a block of 16384 zero bytes, deflated
  const ALL_ENCODED: nat := 65540  // four of them

  // Sound fields of five blocks, whose payload the first four use up.
  function FiveSigned(): Signed {
    OneSigned().(rawSize := 65537, encSize := ALL_ENCODED, slotSize := 65537, blockCount := 5)
  }

  function ZeroBytes(n: nat): (b: Bytes)
    ensures |b| == n
  {
    seq(n, _ => 0)
  }

  function ZeroBlock(i: nat): Desc
    requires i < 4
  {
    Desc(i, i * FULL_BLOCK, FULL_BLOCK, i * ENCODED, ENCODED, Deflate, ZeroChain(), ZeroChain())
  }

  function FourBlocks(): (ds: seq<Desc>)
    ensures |ds| == 4 && forall i :: 0 <= i < 4 ==> ds[i] == ZeroBlock(i)
  {
    [ZeroBlock(0), ZeroBlock(1), ZeroBlock(2), ZeroBlock(3)]
  }

  predicate AtZero(s: Stream, i: nat) {
    && Boundary(s) && s.fields == FiveSigned() && s.nextIndex == i
    && s.rawOffset == i * FULL_BLOCK && s.encOffset == i * ENCODED
  }

  lemma {:induction false} ZeroBlockTaken(s: Stream, i: nat, plan: seq<Cut>)
    requires i < 4 && AtZero(s, i) && PlanOk(plan, ENCODED)
    ensures var (err, t) := DriveBlock(Plain(), s, ZeroBytes(ALL_ENCODED), ZeroBlock(i), plan);
            err == Ok && AtZero(t, i + 1)
  {
    hide InflateLaw, BlockGood, CheckDesc, FeedAll, Script, PlanOk, ZeroBytes, Plain;
    var d, payload := ZeroBlock(i), ZeroBytes(ALL_ENCODED);
    PlainInflates();
    ZeroBlockGood(s, i);
    BlockRun(Plain(), s, d, payload[d.encOffset..d.encOffset + d.encSize], plan);
    T.DriveIsScript(Plain(), s, payload, d, plan);
  }

  lemma {:induction false} ZeroBlockGood(s: Stream, i: nat)
    requires i < 4 && AtZero(s, i)
    ensures var (p, d, payload) := (Plain(), ZeroBlock(i), ZeroBytes(ALL_ENCODED));
            && d.encOffset + d.encSize <= |payload|
            && BlockGood(p, d, payload[d.encOffset..d.encOffset + d.encSize])
            && CheckDesc(p, s.fields, d, s.nextIndex, s.rawOffset, s.encOffset, s.chain).0 == Ok
  {
  }

  lemma {:induction false} ZeroBlocksTaken(s: Stream, i: nat, plans: seq<seq<Cut>>)
    requires i <= 4 && AtZero(s, i) && PlansOk(FourBlocks(), plans) && StreamWF(s)
    ensures var (err, t) := Drive(Plain(), s, ZeroBytes(ALL_ENCODED), FourBlocks(), plans, i);
            err == Ok && AtZero(t, 4)
    decreases 4 - i
  {
    hide DriveBlock, AtZero, PlanOk, ZeroBytes, Plain;
    if i < 4 {
      ZeroBlockTaken(s, i, plans[i]);
      ZeroBlocksTaken(DriveBlock(Plain(), s, ZeroBytes(ALL_ENCODED), ZeroBlock(i), plans[i]).1, i + 1, plans);
    }
  }

  // The device takes these fields and the four blocks, and may checkpoint after them; but no flash lets it
  // resume from there.
  lemma {:induction false} NoPayloadLeft(plans: seq<seq<Cut>>, flash: Bytes)
    requires PlansOk(FourBlocks(), plans)
    ensures Sound(FiveSigned()) && Counted(FiveSigned()) && StreamWF(Fresh(FiveSigned()))
    ensures var (err, s) := Drive(Plain(), Fresh(FiveSigned()), ZeroBytes(ALL_ENCODED), FourBlocks(), plans, 0);
            && err == Ok && Checkpointable(s)
            && TransferPointOk(CheckpointOf(Plain(), s))
            && Resumed(Plain(), FiveSigned(), CheckpointOf(Plain(), s), flash).0 == InvalidArg
  {
    FiveSound();
    hide AtZero, Drive, PlansOk, ZeroBytes, Plain, FourBlocks, FiveSigned, Sound, Counted, Fresh, TransferPointOk,
         Resumed;
    ZeroBlocksTaken(Fresh(FiveSigned()), 0, plans);
    AfterFour(Plain(), Drive(Plain(), Fresh(FiveSigned()), ZeroBytes(ALL_ENCODED), FourBlocks(), plans, 0).1, flash);
  }

  lemma {:induction false} FiveSound()
    ensures Sound(FiveSigned()) && Counted(FiveSigned())
    ensures StreamWF(Fresh(FiveSigned())) && AtZero(Fresh(FiveSigned()), 0)
  {
  }

  lemma {:induction false} AfterFour(p: Prims, s: Stream, flash: Bytes)
    requires AtZero(s, 4)
    ensures Checkpointable(s) && TransferPointOk(CheckpointOf(p, s))
    ensures Resumed(p, FiveSigned(), CheckpointOf(p, s), flash).0 == InvalidArg
  {
  }
}
