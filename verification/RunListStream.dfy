/** Reading the clusters of run lists, and putting a stream together from its pieces. */
module RunListStream {
  import opened Wrappers
  import opened Bytes
  import opened RunList

  const MAX_ATTR_DATA: nat := 0x1000_0000

  /** A volume: the contents of each cluster. */
  datatype Volume = Volume(cluster: nat, at: int -> bytes)

  ghost predicate VolumeOk(v: Volume) {
    v.cluster > 0 && forall lcn :: |v.at(lcn)| == v.cluster
  }

  // --- the stored header of one piece ---

  predicate HeaderOk(h: bytes) {
    |h| >= 56
  }

  function LowVcn(h: bytes): int requires HeaderOk(h) { Signed(h[16..24]) }
  function HighVcn(h: bytes): int requires HeaderOk(h) { Signed(h[24..32]) }
  function MapOffset(h: bytes): nat requires HeaderOk(h) { FromLe(h[32..34]) }
  function RealSize(h: bytes): nat requires HeaderOk(h) { FromLe(h[48..56]) }

  /** The piece has a run list and a sensible range. */
  predicate Readable(h: bytes) {
    HeaderOk(h) && MapOffset(h) != 0 && MapOffset(h) < |h| && HighVcn(h) >= LowVcn(h)
  }

  function PieceExtents(h: bytes): seq<Extent>
    requires Readable(h)
  {
    Decoded(h[MapOffset(h)..], LowVcn(h), 0)
  }

  // --- clusters ---

  function ClustersAt(v: Volume, lcn: int, n: nat): seq<bytes>
    decreases n
  {
    if n == 0 then [] else [v.at(lcn)] + ClustersAt(v, lcn + 1, n - 1)
  }

  /** The clusters of the extents, in order. */
  function Clusters(v: Volume, es: seq<Extent>): seq<bytes> {
    if es == [] then [] else ClustersAt(v, es[0].lcn, es[0].len) + Clusters(v, es[1..])
  }

  function Concat(cs: seq<bytes>): bytes {
    if cs == [] then [] else cs[0] + Concat(cs[1..])
  }

  /** A cluster is written where it fits. */
  function Put(buf: bytes, off: nat, data: bytes): (r: bytes)
    ensures |r| == |buf|
  {
    if off + |data| <= |buf| then buf[..off] + data + buf[off + |data|..] else buf
  }

  function Paint(buf: bytes, off: nat, cs: seq<bytes>): (r: bytes)
    ensures |r| == |buf|
    decreases |cs|
  {
    if cs == [] then buf else Paint(Put(buf, off, cs[0]), off + |cs[0]|, cs[1..])
  }

  /** Clusters that fit replace a whole stretch. */
  lemma {:induction false} PaintFits(buf: bytes, off: nat, cs: seq<bytes>)
    requires off + |Concat(cs)| <= |buf|
    ensures Paint(buf, off, cs) == buf[..off] + Concat(cs) + buf[off + |Concat(cs)|..]
    decreases |cs|
  {
    if cs == [] {
      assert buf == buf[..off] + [] + buf[off..];
    } else {
      var mid := Put(buf, off, cs[0]);
      var next := off + |cs[0]|;
      PaintFits(mid, next, cs[1..]);
      assert mid[..next] == buf[..off] + cs[0];
      assert mid[next + |Concat(cs[1..])|..] == buf[off + |Concat(cs)|..];
    }
  }

  // --- reading one piece ---

  /** The raw reader, into the buffer; a cluster that does not fit is skipped. */
  method PutCluster(out: array<u8>, off: nat, data: bytes)
    modifies out
    ensures out[..] == Put(old(out[..]), off, data)
  {
    if off + |data| <= out.Length {
      forall i | 0 <= i < |data| { out[off + i] := data[i]; }
      assert out[..off] == old(out[..off]) && out[off..off + |data|] == data && out[off + |data|..] == old(out[off + |data|..]);
      assert out[..] == out[..off] + out[off..off + |data|] + out[off + |data|..];
    }
  }

  lemma PaintNext(buf: bytes, off: nat, v: Volume, lcn: int, n: nat, rest: seq<bytes>)
    requires n > 0
    ensures Paint(buf, off, ClustersAt(v, lcn, n) + rest)
            == Paint(Put(buf, off, v.at(lcn)), off + |v.at(lcn)|, ClustersAt(v, lcn + 1, n - 1) + rest)
  {
    hide Put;
    var cs := ClustersAt(v, lcn, n) + rest;
    assert cs[1..] == ClustersAt(v, lcn + 1, n - 1) + rest;
  }

  lemma NextOffset(vcn: int, low: int, cluster: int)
    ensures (vcn + 1 - low) * cluster == (vcn - low) * cluster + cluster
  {}

  /** The clusters of one run. */
  method ReadRun(v: Volume, out: array<u8>, dstOff: nat, low: int, vcn0: int, lcn: int, len: nat, ghost rest: seq<bytes>)
    requires VolumeOk(v) && vcn0 >= low && 0 <= (vcn0 - low) * v.cluster
    modifies out
    ensures 0 <= (vcn0 + len - low) * v.cluster
    ensures Paint(out[..], dstOff + (vcn0 + len - low) * v.cluster, rest)
            == Paint(old(out[..]), dstOff + (vcn0 - low) * v.cluster, ClustersAt(v, lcn, len) + rest)
  {
    hide Paint, Put;
    var vcn := vcn0;
    ghost var off := dstOff + (vcn - low) * v.cluster;
    for k := 0 to len
      invariant vcn == vcn0 + k && off == dstOff + (vcn - low) * v.cluster && off >= dstOff
      invariant Paint(out[..], off, ClustersAt(v, lcn + k, len - k) + rest)
                == Paint(old(out[..]), dstOff + (vcn0 - low) * v.cluster, ClustersAt(v, lcn, len) + rest)
    {
      PaintNext(out[..], off, v, lcn + k, len - k, rest);
      NextOffset(vcn, low, v.cluster);
      var byteOff := dstOff + (vcn - low) * v.cluster;
      PutCluster(out, byteOff, v.at(lcn + k));
      vcn := vcn + 1;
      off := off + v.cluster;
    }
    assert ClustersAt(v, lcn + len, 0) + rest == rest;
  }

  /** ReadNonResidentAttrInto: the clusters of the piece's extents, from dstOff on. */
  method ReadNonResidentAttrInto(v: Volume, h: bytes, out: array<u8>, dstOff: nat) returns (ok: bool)
    requires VolumeOk(v)
    modifies out
    ensures ok == Readable(h)
    ensures out[..] == if ok then Paint(old(out[..]), dstOff, Clusters(v, PieceExtents(h))) else old(out[..])
  {
    hide Paint, FromLe, Signed, Decoded, Clusters;
    if |h| < 56 { return false; }
    var mapOff, lowVcn, highVcn := MapOffset(h), LowVcn(h), HighVcn(h);
    if mapOff == 0 || mapOff >= |h| || highVcn < lowVcn { return false; }
    var b := h[mapOff..];
    var r, vcn, lcn := 0, lowVcn, 0;
    ghost var all := Paint(out[..], dstOff, Clusters(v, Decoded(b, lowVcn, 0)));
    assert b[0..] == b;
    while r < |b| && b[r] != 0
      invariant 0 <= r <= |b| && vcn >= lowVcn && 0 <= (vcn - lowVcn) * v.cluster
      invariant Paint(out[..], dstOff + (vcn - lowVcn) * v.cluster, Clusters(v, Decoded(b[r..], vcn, lcn))) == all
      decreases |b| - r
    {
      var run := DecodeRun(b, r);
      DecodeStep(b, r, vcn, lcn);
      if run.None? {
        PaintNothing(v, out[..], dstOff + (vcn - lowVcn) * v.cluster);
        return true;
      }
      var (len, delta, next) := run.value;
      lcn := lcn + delta;
      ghost var rest := Decoded(b[next..], vcn + len, lcn);
      ClustersFirst(v, Extent(vcn, lcn, len), rest);
      ReadRun(v, out, dstOff, lowVcn, vcn, lcn, len, Clusters(v, rest));
      vcn := vcn + len;
      r := next;
    }
    DecodeEnd(b[r..], vcn, lcn);
    PaintNothing(v, out[..], dstOff + (vcn - lowVcn) * v.cluster);
    ok := true;
  }

  lemma PaintNothing(v: Volume, buf: bytes, off: nat)
    ensures Paint(buf, off, Clusters(v, [])) == buf
  {}

  lemma ClustersFirst(v: Volume, e: Extent, es: seq<Extent>)
    ensures Clusters(v, [e] + es) == ClustersAt(v, e.lcn, e.len) + Clusters(v, es)
  {
    assert ([e] + es)[1..] == es;
  }

  // --- putting the pieces together ---

  datatype Piece = Piece(low: int, high: int, h: bytes)

  predicate PieceOk(p: Piece) {
    HeaderOk(p.h) && p.low == LowVcn(p.h) && p.high == HighVcn(p.h) && p.high >= p.low >= 0
  }

  function PieceBytes(v: Volume, p: Piece): bytes {
    if Readable(p.h) then Concat(Clusters(v, PieceExtents(p.h))) else []
  }

  /** Pieces in VCN order, one right after the other, each with a run list of as many clusters as its range. */
  ghost predicate Tiles(v: Volume, pieces: seq<Piece>) {
    && (forall p <- pieces :: PieceOk(p) && Readable(p.h) && |PieceBytes(v, p)| == (p.high - p.low + 1) * v.cluster)
    && forall i | 0 <= i < |pieces| - 1 :: pieces[i + 1].low == pieces[i].high + 1
  }

  /** The whole stream. */
  function Flat(v: Volume, pieces: seq<Piece>): bytes {
    if pieces == [] then [] else Flat(v, pieces[..|pieces| - 1]) + PieceBytes(v, pieces[|pieces| - 1])
  }

  ghost predicate ByVcn(pieces: seq<Piece>) {
    forall i, j | 0 <= i < j < |pieces| :: pieces[i].low <= pieces[j].low
  }

  /** std::sort by lowest VCN. */
  method SortPieces(all: seq<Piece>) returns (pieces: seq<Piece>)
    ensures multiset(pieces) == multiset(all) && ByVcn(pieces)
  {
    hide ByVcn;
    pieces := [];
    EmptyByVcn();
    for i := 0 to |all|
      invariant multiset(pieces) == multiset(all[..i]) && ByVcn(pieces)
    {
      var p := all[i];
      assert all[..i + 1] == all[..i] + [p];
      var at := |pieces|;
      while at > 0 && pieces[at - 1].low > p.low
        invariant 0 <= at <= |pieces| && forall j | at <= j < |pieces| :: pieces[j].low > p.low
      {
        at := at - 1;
      }
      InsertByVcn(pieces, p, at);
      InsertMultiset(pieces, p, at);
      pieces := pieces[..at] + [p] + pieces[at..];
    }
    assert all[..|all|] == all;
  }

  lemma InsertMultiset(pieces: seq<Piece>, p: Piece, at: nat)
    requires at <= |pieces|
    ensures multiset(pieces[..at] + [p] + pieces[at..]) == multiset(pieces) + multiset{p}
  {
    assert pieces == pieces[..at] + pieces[at..];
  }

  lemma EmptyByVcn()
    ensures ByVcn([])
  {}

  lemma InsertByVcn(pieces: seq<Piece>, p: Piece, at: nat)
    requires at <= |pieces| && ByVcn(pieces) && (at > 0 ==> pieces[at - 1].low <= p.low)
    requires forall j | at <= j < |pieces| :: pieces[j].low > p.low
    ensures ByVcn(pieces[..at] + [p] + pieces[at..])
  {
    var r := pieces[..at] + [p] + pieces[at..];
    forall x, y | 0 <= x < y < |r| ensures r[x].low <= r[y].low {
      if y < at { assert r[x] == pieces[x] && r[y] == pieces[y]; }
      else if y == at { assert r[x] == pieces[x]; }
      else {
        assert r[y] == pieces[y - 1];
        if x < at { assert r[x] == pieces[x]; } else if x > at { assert r[x] == pieces[x - 1]; }
      }
    }
  }

  /** Lowest VCNs grow strictly along tiling pieces. */
  lemma {:induction false} TilesGrow(v: Volume, pieces: seq<Piece>, i: nat, j: nat)
    requires Tiles(v, pieces) && i < j < |pieces|
    ensures pieces[i].high < pieces[j].low
  {
    hide PieceOk, Readable, PieceBytes;
    assert PieceOk(pieces[i]) && PieceOk(pieces[j - 1]);
    PieceRange(pieces[j - 1]);
    if j > i + 1 { TilesGrow(v, pieces, i, j - 1); }
  }

  lemma PieceRange(p: Piece)
    requires PieceOk(p)
    ensures p.high >= p.low >= 0
  {}

  /** There is only one order by VCN. */
  lemma {:induction false} OneOrder(a: seq<Piece>, b: seq<Piece>)
    requires ByVcn(a) && multiset(a) == multiset(b) && forall i, j | 0 <= i < j < |b| :: b[i].low < b[j].low
    ensures a == b
    decreases |b|
  {
    SameLength(a, b);
    if b != [] {
      var n := |b| - 1;
      LastIsLast(a, b);
      DropLast(a, b);
      Shorter(a);
      OneOrder(a[..n], b[..n]);
      assert a == a[..n] + [a[n]] && b == b[..n] + [b[n]];
    }
  }

  lemma Shorter(a: seq<Piece>)
    requires ByVcn(a) && a != []
    ensures ByVcn(a[..|a| - 1])
  {}

  lemma DropLast(a: seq<Piece>, b: seq<Piece>)
    requires a != [] && b != [] && multiset(a) == multiset(b) && a[|a| - 1] == b[|b| - 1]
    ensures multiset(a[..|a| - 1]) == multiset(b[..|b| - 1])
  {
    WithoutLast(a);
    WithoutLast(b);
  }

  lemma WithoutLast(a: seq<Piece>)
    requires a != []
    ensures multiset(a[..|a| - 1]) == multiset(a) - multiset{a[|a| - 1]}
  {
    assert a == a[..|a| - 1] + [a[|a| - 1]];
  }

  lemma SameLength(a: seq<Piece>, b: seq<Piece>)
    requires multiset(a) == multiset(b)
    ensures |a| == |b|
  {
    assert |multiset(a)| == |a| && |multiset(b)| == |b|;
  }

  lemma LastIsLast(a: seq<Piece>, b: seq<Piece>)
    requires ByVcn(a) && multiset(a) == multiset(b) && b != [] && |a| == |b|
    requires forall i, j | 0 <= i < j < |b| :: b[i].low < b[j].low
    ensures a[|a| - 1] == b[|b| - 1]
  {
    var n := |b| - 1;
    assert b[n] in multiset(a) && a[n] in multiset(b);
    var i :| 0 <= i < |a| && a[i] == b[n];
    var j :| 0 <= j < |b| && b[j] == a[n];
  }

  /** Fill the buffer piece by piece. */
  method FillPieces(v: Volume, pieces: seq<Piece>, minVcn: int, out: array<u8>) returns (ok: bool)
    requires VolumeOk(v) && pieces != [] && pieces[0].low == minVcn
    requires forall p <- pieces :: p.low >= minVcn
    modifies out
    ensures Tiles(v, pieces) && |Flat(v, pieces)| == out.Length ==> ok && out[..] == Flat(v, pieces)
  {
    hide Tiles, Flat, PieceBytes, Paint, PieceOk, Readable, Clusters, PieceExtents;
    ghost var good := Tiles(v, pieces) && |Flat(v, pieces)| == out.Length;
    FlatNothing(v);
    assert pieces[..0] == [];
    for i := 0 to |pieces|
      invariant good ==> |Flat(v, pieces[..i])| <= out.Length && out[..|Flat(v, pieces[..i])|] == Flat(v, pieces[..i])
    {
      var pc := pieces[i];
      assert pc in pieces;
      OffsetFine(pc.low, minVcn, v.cluster);
      ghost var before := out[..];
      ok := ReadNonResidentAttrInto(v, pc.h, out, (pc.low - minVcn) * v.cluster);
      if good {
        PieceStep(v, pieces, i, before, out[..]);
      }
      if !ok { return false; }
    }
    assert pieces[..|pieces|] == pieces;
    ok := true;
  }

  lemma OffsetFine(low: int, minVcn: int, cluster: nat)
    requires low >= minVcn
    ensures 0 <= (low - minVcn) * cluster
  {}

  lemma FlatNothing(v: Volume)
    ensures Flat(v, []) == []
  {}

  lemma TilePiece(v: Volume, pieces: seq<Piece>, i: nat)
    requires Tiles(v, pieces) && i < |pieces|
    ensures |PieceBytes(v, pieces[i])| == (pieces[i].high - pieces[i].low + 1) * v.cluster
    ensures i + 1 < |pieces| ==> pieces[i + 1].low == pieces[i].high + 1
  {
    hide PieceOk, Readable, PieceBytes;
    assert pieces[i] in pieces;
  }

  lemma FlatStep(v: Volume, pieces: seq<Piece>, i: nat)
    requires i < |pieces|
    ensures Flat(v, pieces[..i + 1]) == Flat(v, pieces[..i]) + PieceBytes(v, pieces[i])
  {
    hide PieceBytes;
    assert pieces[..i + 1][..i] == pieces[..i];
  }

  /** The stream so far ends where the next piece begins. */
  lemma {:induction false} FlatSize(v: Volume, pieces: seq<Piece>, i: nat)
    requires Tiles(v, pieces) && i < |pieces|
    ensures |Flat(v, pieces[..i])| == (pieces[i].low - pieces[0].low) * v.cluster
  {
    hide Tiles, Flat, PieceBytes;
    if i == 0 {
      assert pieces[..0] == [];
      FlatNothing(v);
    } else {
      FlatSize(v, pieces, i - 1);
      FlatStep(v, pieces, i - 1);
      TilePiece(v, pieces, i - 1);
      AddClusters(pieces[i - 1].low - pieces[0].low, pieces[i - 1].high - pieces[i - 1].low + 1, v.cluster);
    }
  }

  lemma AddClusters(a: int, b: int, cluster: int)
    ensures a * cluster + b * cluster == (a + b) * cluster
  {}

  lemma {:induction false} FlatPrefix(v: Volume, pieces: seq<Piece>, i: nat)
    requires i <= |pieces|
    ensures |Flat(v, pieces[..i])| <= |Flat(v, pieces)|
    decreases |pieces| - i
  {
    if i == |pieces| {
      assert pieces[..i] == pieces;
    } else {
      FlatPrefix(v, pieces, i + 1);
      assert pieces[..i + 1][..i] == pieces[..i];
    }
  }

  lemma PieceStep(v: Volume, pieces: seq<Piece>, i: nat, before: bytes, after: bytes)
    requires Tiles(v, pieces) && i < |pieces| && |before| == |Flat(v, pieces)| == |after|
    requires |Flat(v, pieces[..i])| <= |before| && before[..|Flat(v, pieces[..i])|] == Flat(v, pieces[..i])
    requires pieces[i].low >= pieces[0].low
    requires 0 <= (pieces[i].low - pieces[0].low) * v.cluster
    requires Readable(pieces[i].h) ==>
               after == Paint(before, (pieces[i].low - pieces[0].low) * v.cluster, Clusters(v, PieceExtents(pieces[i].h)))
    ensures Readable(pieces[i].h)
    ensures |Flat(v, pieces[..i + 1])| <= |after| && after[..|Flat(v, pieces[..i + 1])|] == Flat(v, pieces[..i + 1])
  {
    hide PieceOk, Readable, Clusters, PieceExtents, Paint, Concat;
    assert pieces[i] in pieces;
    FlatSize(v, pieces, i);
    FlatPrefix(v, pieces, i + 1);
    assert pieces[..i + 1][..i] == pieces[..i];
    var off := |Flat(v, pieces[..i])|;
    var cs := Clusters(v, PieceExtents(pieces[i].h));
    assert |Flat(v, pieces[..i + 1])| == off + |Concat(cs)|;
    PaintFits(before, off, cs);
  }

  function PieceOf(h: bytes): Piece {
    if HeaderOk(h) then Piece(LowVcn(h), HighVcn(h), h) else Piece(0, -1, h)
  }

  function PiecesOf(hdrs: seq<bytes>): seq<Piece> {
    if hdrs == [] then [] else PiecesOf(hdrs[..|hdrs| - 1]) + [PieceOf(hdrs[|hdrs| - 1])]
  }

  lemma {:induction false} PiecesAt(hdrs: seq<bytes>, i: nat)
    requires i < |hdrs|
    ensures PieceOf(hdrs[i]) in PiecesOf(hdrs)
  {
    hide PieceOf;
    if i < |hdrs| - 1 { PiecesAt(hdrs[..|hdrs| - 1], i); }
  }

  /** The pieces, in some order, tile their range, and the range is not too large. */
  ghost predicate Complete(v: Volume, hdrs: seq<bytes>, ordered: seq<Piece>) {
    ordered != [] && Tiles(v, ordered) && multiset(ordered) == multiset(PiecesOf(hdrs)) && |Flat(v, ordered)| <= MAX_ATTR_DATA
  }

  lemma CompletePiece(v: Volume, hdrs: seq<bytes>, ordered: seq<Piece>, i: nat)
    requires Complete(v, hdrs, ordered) && i < |hdrs|
    ensures PieceOk(PieceOf(hdrs[i]))
  {
    hide PieceOf, PieceOk, Readable, PieceBytes, Flat;
    PiecesAt(hdrs, i);
    assert PieceOf(hdrs[i]) in multiset(PiecesOf(hdrs));
    assert PieceOf(hdrs[i]) in multiset(ordered);
  }

  lemma CompleteOrder(v: Volume, hdrs: seq<bytes>, ordered: seq<Piece>, sorted: seq<Piece>)
    requires Complete(v, hdrs, ordered) && multiset(sorted) == multiset(PiecesOf(hdrs)) && ByVcn(sorted)
    ensures sorted == ordered
  {
    hide ByVcn, Tiles, Flat;
    forall i, j | 0 <= i < j < |ordered| ensures ordered[i].low < ordered[j].low {
      TilesGrow(v, ordered, i, j);
      TileRange(v, ordered, i);
    }
    OneOrder(sorted, ordered);
  }

  lemma TileRange(v: Volume, pieces: seq<Piece>, i: nat)
    requires Tiles(v, pieces) && i < |pieces|
    ensures pieces[i].high >= pieces[i].low >= 0 && PieceOk(pieces[i])
  {
    hide Readable, PieceBytes;
    assert pieces[i] in pieces;
    assert PieceOk(pieces[i]);
    PieceRange(pieces[i]);
  }

  lemma FlatTotal(v: Volume, pieces: seq<Piece>)
    requires Tiles(v, pieces) && pieces != []
    ensures |Flat(v, pieces)| == (pieces[|pieces| - 1].high - pieces[0].low + 1) * v.cluster
  {
    hide Tiles, PieceBytes;
    var n := |pieces| - 1;
    FlatSize(v, pieces, n);
    TilePiece(v, pieces, n);
    AddClusters(pieces[n].low - pieces[0].low, pieces[n].high - pieces[n].low + 1, v.cluster);
    hide Flat;
    FlatStep(v, pieces, n);
    assert pieces[..n + 1] == pieces;
  }

  /** The header checks of every piece. */
  method CollectPieces(hdrs: seq<bytes>, ghost v: Volume, ghost ordered: seq<Piece>) returns (pieces: Option<seq<Piece>>)
    ensures Complete(v, hdrs, ordered) ==> pieces.Some?
    ensures pieces.Some? ==> pieces.value == PiecesOf(hdrs) && forall p <- pieces.value :: PieceOk(p)
  {
    hide FromLe, Signed, Complete;
    var ps := [];
    for i := 0 to |hdrs|
      invariant ps == PiecesOf(hdrs[..i]) && forall p <- ps :: PieceOk(p)
    {
      var h := hdrs[i];
      assert hdrs[..i + 1][..i] == hdrs[..i];
      if Complete(v, hdrs, ordered) { CompletePiece(v, hdrs, ordered, i); }
      if |h| < 56 { return None; }
      var low, high := LowVcn(h), HighVcn(h);
      if high < low || low < 0 { return None; }
      ps := ps + [Piece(low, high, h)];
    }
    assert hdrs[..|hdrs|] == hdrs;
    pieces := Some(ps);
  }

  function CutTo(b: bytes, n: nat): bytes {
    if n > |b| then b else b[..n]
  }

  /** ReadIndexAllocationStream: when the pieces, in whatever order they come, tile their range, the stream is their
      clusters in VCN order, cut to the real size that the first piece records. */
  method ReadIndexAllocationStream(v: Volume, hdrs: seq<bytes>, ghost ordered: seq<Piece>) returns (stream: Option<bytes>)
    requires VolumeOk(v)
    ensures hdrs == [] ==> stream == None
    ensures Complete(v, hdrs, ordered) ==>
              HeaderOk(ordered[0].h) && stream == Some(CutTo(Flat(v, ordered), RealSize(ordered[0].h)))
  {
    hide Complete, Tiles, Flat, FromLe, Signed, Readable, PieceBytes, PiecesOf;
    if hdrs == [] {
      NothingComplete(v, ordered);
      return None;
    }
    var collected := CollectPieces(hdrs, v, ordered);
    if collected.None? { return None; }
    var pieces := SortPieces(collected.value);
    SamePieces(pieces, collected.value, hdrs);
    var minVcn, maxVcn := pieces[0].low, pieces[|pieces| - 1].high;
    ghost var good := Complete(v, hdrs, ordered);
    if good { CompleteSpan(v, hdrs, ordered, pieces); }
    OffsetFine(maxVcn + 1, minVcn, v.cluster);
    var span := (maxVcn - minVcn + 1) * v.cluster;
    if span > MAX_ATTR_DATA { return None; }
    var tmp := new u8[span](_ => 0);
    var ok := FillPieces(v, pieces, minVcn, tmp);
    if !ok { return None; }
    stream := Some(CutTo(tmp[..], RealSize(pieces[0].h)));
  }

  lemma NothingComplete(v: Volume, ordered: seq<Piece>)
    ensures !Complete(v, [], ordered)
  {
    hide Tiles, Flat;
    if multiset(ordered) == multiset(PiecesOf([])) { SameLength(ordered, []); }
  }

  lemma SamePieces(sorted: seq<Piece>, all: seq<Piece>, hdrs: seq<bytes>)
    requires multiset(sorted) == multiset(all) && all == PiecesOf(hdrs) && hdrs != [] && ByVcn(sorted)
    requires forall p <- all :: PieceOk(p)
    ensures sorted != [] && (forall p <- sorted :: PieceOk(p) && p.low >= sorted[0].low)
    ensures sorted[|sorted| - 1].high >= sorted[0].low
  {
    hide PieceOk;
    SameLength(sorted, all);
    forall p | p in sorted ensures PieceOk(p) && p.low >= sorted[0].low {
      assert p in multiset(sorted);
      assert p in multiset(all);
      var i :| 0 <= i < |sorted| && sorted[i] == p;
    }
    var last := sorted[|sorted| - 1];
    assert last in sorted;
    PieceRange(last);
  }

  lemma CompleteSpan(v: Volume, hdrs: seq<bytes>, ordered: seq<Piece>, sorted: seq<Piece>)
    requires Complete(v, hdrs, ordered) && multiset(sorted) == multiset(PiecesOf(hdrs)) && ByVcn(sorted)
    ensures sorted == ordered && Tiles(v, sorted) && sorted != []
    ensures (sorted[|sorted| - 1].high - sorted[0].low + 1) * v.cluster == |Flat(v, sorted)| <= MAX_ATTR_DATA
  {
    hide Tiles, Flat;
    CompleteOrder(v, hdrs, ordered, sorted);
    FlatTotal(v, sorted);
  }
}
