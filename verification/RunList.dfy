/** NTFS run lists: delta-compressed extents, and streams put together from pieces of several records. */
module RunList {
  import opened Wrappers
  import opened Bytes

  datatype Extent = Extent(vcn: int, lcn: int, len: nat)

  // --- the encoding of one run list ---

  /** A run as NTFS stores it: field widths, cluster count, and distance from the previous run's first cluster. */
  datatype Run = Run(lenBytes: nat, offBytes: nat, len: nat, delta: int)

  predicate FitsSigned(v: int, n: nat) {
    0 <= 2 * v + Pow256(n) && 2 * v < Pow256(n)
  }

  predicate Encodable(r: Run) {
    && 1 <= r.lenBytes <= 7 && 1 <= r.offBytes <= 7 && r.len < Pow256(r.lenBytes)
    && FitsSigned(r.delta, r.offBytes)
  }

  /** Two's complement, little endian. */
  function LeSigned(v: int, n: nat): bytes
    requires FitsSigned(v, n)
  {
    Le(if v < 0 then v + Pow256(n) else v, n)
  }

  function Signed(b: bytes): int {
    if b != [] && b[|b| - 1] >= 0x80 then FromLe(b) - Pow256(|b|) else FromLe(b)
  }

  function EncodeRun(r: Run): bytes
    requires Encodable(r)
  {
    [r.offBytes * 16 + r.lenBytes] + Le(r.len, r.lenBytes) + LeSigned(r.delta, r.offBytes)
  }

  /** The runs followed by the terminator. */
  function EncodeRuns(rs: seq<Run>): bytes
    requires forall r <- rs :: Encodable(r)
  {
    if rs == [] then [0] else EncodeRun(rs[0]) + EncodeRuns(rs[1..])
  }

  /** The extents that a run list stands for. */
  function Extents(rs: seq<Run>, vcn: int, lcn: int): seq<Extent> {
    if rs == [] then [] else
    [Extent(vcn, lcn + rs[0].delta, rs[0].len)] + Extents(rs[1..], vcn + rs[0].len, lcn + rs[0].delta)
  }

  /** The decoder as a function of the bytes left: it stops at a terminator, at a run without length, and at a run that
      does not fit. */
  function Decoded(b: bytes, vcn: int, lcn: int): seq<Extent>
    decreases |b|
  {
    if b == [] || b[0] == 0 then [] else
    var lenb, offb := b[0] % 16, b[0] / 16;
    if lenb == 0 || lenb > 8 || offb > 8 || 1 + lenb + offb > |b| then [] else
    var len, lcn' := FromLe(b[1..1 + lenb]), lcn + Signed(b[1 + lenb..1 + lenb + offb]);
    [Extent(vcn, lcn', len)] + Decoded(b[1 + lenb + offb..], vcn + len, lcn')
  }

  // --- decoding gives the extents back ---

  /** The top bit of the last byte tells the upper half of the values. */
  lemma {:induction false} TopBit(v: nat, n: nat)
    requires n > 0 && v < Pow256(n)
    ensures Le(v, n)[n - 1] >= 0x80 <==> 2 * v >= Pow256(n)
  {
    if n == 1 {
      assert Pow256(1) == 256;
      assert Le(v, 1) == [v % 256] + Le(v / 256, 0);
    } else {
      TopBit(v / 256, n - 1);
      LastOfLe(v, n);
      PowEven(n - 1);
      Halves(v, Pow256(n - 1));
    }
  }

  lemma LastOfLe(v: nat, n: nat)
    requires n > 1
    ensures Le(v, n)[n - 1] == Le(v / 256, n - 1)[n - 2] && Pow256(n) == 256 * Pow256(n - 1)
  {
    hide Pow256;
    assert Le(v, n) == [v % 256] + Le(v / 256, n - 1);
    assert Pow256(n) == 256 * Pow256(n - 1) by { PowStep(n); }
  }

  lemma PowStep(n: nat)
    requires n > 0
    ensures Pow256(n) == 256 * Pow256(n - 1)
  {}

  lemma Halves(v: nat, p: nat)
    requires p % 2 == 0
    ensures 2 * (v / 256) >= p <==> 2 * v >= 256 * p
  {
    var h := p / 2;
    assert p == 2 * h;
  }

  lemma {:induction false} PowEven(n: nat)
    requires n > 0
    ensures Pow256(n) % 2 == 0
  {}

  lemma SignedRoundTrip(v: int, n: nat)
    requires n > 0 && FitsSigned(v, n)
    ensures Signed(LeSigned(v, n)) == v
  {
    var u := if v < 0 then v + Pow256(n) else v;
    LeRoundTrip(u, n);
    TopBit(u, n);
  }

  lemma HeaderByte(offb: nat, lenb: nat)
    requires offb < 16 && lenb < 16
    ensures (offb * 16 + lenb) % 16 == lenb && (offb * 16 + lenb) / 16 == offb
  {}

  lemma DecodeFirst(r: Run, rest: bytes, vcn: int, lcn: int)
    requires Encodable(r)
    ensures Decoded(EncodeRun(r) + rest, vcn, lcn)
            == [Extent(vcn, lcn + r.delta, r.len)] + Decoded(rest, vcn + r.len, lcn + r.delta)
  {
    hide Pow256, Le, FromLe, LeSigned, Signed;
    var b := EncodeRun(r) + rest;
    var lenb, offb := r.lenBytes, r.offBytes;
    HeaderByte(offb, lenb);
    SignedLength(r.delta, offb);
    assert b[1..1 + lenb] == Le(r.len, lenb);
    assert b[1 + lenb..1 + lenb + offb] == LeSigned(r.delta, offb);
    assert b[1 + lenb + offb..] == rest;
    LeRoundTrip(r.len, lenb);
    SignedRoundTrip(r.delta, offb);
  }

  lemma SignedLength(v: int, n: nat)
    requires FitsSigned(v, n)
    ensures |LeSigned(v, n)| == n
  {}

  /** Decoding an encoded run list gives its extents, whatever follows the terminator. */
  lemma {:induction false} DecodeOfEncode(rs: seq<Run>, tail: bytes, vcn: int, lcn: int)
    requires forall r <- rs :: Encodable(r)
    ensures Decoded(EncodeRuns(rs) + tail, vcn, lcn) == Extents(rs, vcn, lcn)
  {
    hide Encodable, EncodeRun, Decoded;
    if rs != [] {
      DecodeOfEncode(rs[1..], tail, vcn + rs[0].len, lcn + rs[0].delta);
      assert EncodeRuns(rs) + tail == EncodeRun(rs[0]) + (EncodeRuns(rs[1..]) + tail);
      DecodeFirst(rs[0], EncodeRuns(rs[1..]) + tail, vcn, lcn);
    } else {
      DecodeEnd(EncodeRuns(rs) + tail, vcn, lcn);
    }
  }

  lemma DecodeEnd(b: bytes, vcn: int, lcn: int)
    requires b == [] || b[0] == 0
    ensures Decoded(b, vcn, lcn) == []
  {}

  /** The extents of a list cover consecutive VCNs from the first. */
  ghost predicate Contiguous(es: seq<Extent>, vcn: int) {
    && (es != [] ==> es[0].vcn == vcn)
    && forall i | 0 <= i < |es| - 1 :: es[i + 1].vcn == es[i].vcn + es[i].len
  }

  lemma {:induction false} DecodedContiguous(b: bytes, vcn: int, lcn: int)
    ensures Contiguous(Decoded(b, vcn, lcn), vcn)
    decreases |b|
  {
    hide FromLe, Signed;
    var es := Decoded(b, vcn, lcn);
    if es != [] {
      var lenb, offb := b[0] % 16, b[0] / 16;
      DecodedContiguous(b[1 + lenb + offb..], vcn + es[0].len, es[0].lcn);
    }
  }

  // --- the decoding loop ---

  /** One run at position r: its length, its signed delta, and where the next run starts; none where decoding stops. */
  method DecodeRun(b: bytes, r: nat) returns (run: Option<(nat, int, nat)>)
    requires r < |b| && b[r] != 0
    ensures var lenb, offb := b[r] % 16, b[r] / 16;
            if lenb == 0 || lenb > 8 || offb > 8 || r + 1 + lenb + offb > |b| then run.None?
            else run == Some((FromLe(b[r + 1..r + 1 + lenb]), Signed(b[r + 1 + lenb..r + 1 + lenb + offb]), r + 1 + lenb + offb))
  {
    hide Pow256;
    var lenb, offb := b[r] % 16, b[r] / 16;
    if lenb == 0 { return None; }
    var p := r + 1;
    if lenb > 8 || offb > 8 || p + lenb + offb > |b| { return None; }
    var len := Fold(b, p, lenb);
    var off := Fold(b, p + lenb, offb);
    var field := b[p + lenb..p + lenb + offb];
    if offb > 0 && b[p + lenb + offb - 1] >= 0x80 { off := off - Pow256(offb); }
    run := Some((len, off, p + lenb + offb));
  }

  /** n bytes from p, the last one first. */
  method Fold(b: bytes, p: nat, n: nat) returns (v: nat)
    requires p + n <= |b|
    ensures v == FromLe(b[p..p + n])
  {
    v := 0;
    var i := n;
    while i > 0
      invariant 0 <= i <= n && v == FromLe(b[p + i..p + n])
    {
      i := i - 1;
      assert b[p + i..p + n][1..] == b[p + i + 1..p + n];
      v := v * 256 + b[p + i];
    }
  }

  /** The extents up to the one that reaches past the highest VCN. */
  function UpTo(es: seq<Extent>, highVcn: int): seq<Extent> {
    if es == [] then [] else if es[0].vcn + es[0].len > highVcn then [es[0]] else [es[0]] + UpTo(es[1..], highVcn)
  }

  /** ParseDataRuns, on the bytes of the run list. */
  method ParseDataRuns(b: bytes, lowVcn: int, highVcn: int) returns (runs: seq<Extent>)
    ensures runs == UpTo(Decoded(b, lowVcn, 0), highVcn)
  {
    hide FromLe, Signed, Decoded, UpTo;
    runs := [];
    var r, vcn, lcn := 0, lowVcn, 0;
    ghost var all := UpTo(Decoded(b, lowVcn, 0), highVcn);
    assert b[0..] == b && runs + all == all;
    while r < |b| && b[r] != 0
      invariant 0 <= r <= |b| && runs + UpTo(Decoded(b[r..], vcn, lcn), highVcn) == all
      decreases |b| - r
    {
      var run := DecodeRun(b, r);
      DecodeStep(b, r, vcn, lcn);
      if run.None? {
        UpToNothing(highVcn);
        assert runs + [] == runs;
        return;
      }
      var (len, delta, next) := run.value;
      UpToStep(runs, Extent(vcn, lcn + delta, len), Decoded(b[next..], vcn + len, lcn + delta), highVcn);
      lcn := lcn + delta;
      runs := runs + [Extent(vcn, lcn, len)];
      vcn := vcn + len;
      r := next;
      if vcn > highVcn { return; }
    }
    DecodeEnd(b[r..], vcn, lcn);
    UpToNothing(highVcn);
    assert runs + [] == runs;
  }

  lemma UpToNothing(highVcn: int)
    ensures UpTo([], highVcn) == []
  {}

  lemma UpToStep(runs: seq<Extent>, e: Extent, es: seq<Extent>, highVcn: int)
    ensures runs + UpTo([e] + es, highVcn)
            == if e.vcn + e.len > highVcn then runs + [e] else runs + [e] + UpTo(es, highVcn)
  {
    assert ([e] + es)[1..] == es;
  }

  /** The decoder at position r. */
  lemma DecodeStep(b: bytes, r: nat, vcn: int, lcn: int)
    requires r < |b| && b[r] != 0
    ensures var lenb, offb := b[r] % 16, b[r] / 16;
            if lenb == 0 || lenb > 8 || offb > 8 || r + 1 + lenb + offb > |b| then Decoded(b[r..], vcn, lcn) == []
            else
              var len, lcn' := FromLe(b[r + 1..r + 1 + lenb]), lcn + Signed(b[r + 1 + lenb..r + 1 + lenb + offb]);
              Decoded(b[r..], vcn, lcn) == [Extent(vcn, lcn', len)] + Decoded(b[r + 1 + lenb + offb..], vcn + len, lcn')
  {
    hide FromLe, Signed;
    var lenb, offb := b[r] % 16, b[r] / 16;
    if lenb != 0 && lenb <= 8 && offb <= 8 && r + 1 + lenb + offb <= |b| { Fields(b, r, lenb, offb); }
  }

  lemma Fields(b: bytes, r: nat, lenb: nat, offb: nat)
    requires r + 1 + lenb + offb <= |b|
    ensures b[r..][1..1 + lenb] == b[r + 1..r + 1 + lenb]
    ensures b[r..][1 + lenb..1 + lenb + offb] == b[r + 1 + lenb..r + 1 + lenb + offb]
    ensures b[r..][1 + lenb + offb..] == b[r + 1 + lenb + offb..]
  {}

  /** A list that ends with the highest VCN is decoded whole. */
  lemma {:induction false} NothingCut(es: seq<Extent>, highVcn: int)
    requires forall i | 0 <= i < |es| - 1 :: es[i].vcn + es[i].len <= highVcn
    ensures UpTo(es, highVcn) == es
  {
    if |es| > 1 { NothingCut(es[1..], highVcn); }
  }
}
