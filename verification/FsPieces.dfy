/**
  Writes in pieces of at most three blocks: together they are one write, and stop
  where one write would.
 */
module FsPieces {
  import opened Common
  import opened FsLayout
  import opened FsBlocks
  import opened FsEffects
  import opened FsNeeds
  import opened FsSaved

  // ---- counting

  /** How many of `n` bytes at `off` count when they are written in pieces and `avail` of
      them can be copied in, blocks permitting. */
  function PiecesCount(off: nat, n: nat, avail: nat): nat
    requires off <= MAXFILE * BSIZE && avail <= n
  {
    if avail >= Pieces(off, n) then Pieces(off, n)
    else
      var k := avail / PIECE * PIECE;
      k + Whole(off + k, if n - k > PIECE then PIECE else n - k, avail - k)
  }

  /** What the pieces hold: all, or as many whole pieces as end below the largest size. */
  lemma PiecesMeans(off: nat, n: nat)
    requires off <= MAXFILE * BSIZE
    ensures var r := Pieces(off, n);
            && (off + n <= MAXFILE * BSIZE ==> r == n)
            && (off + n > MAXFILE * BSIZE ==> r % PIECE == 0 && r < n && off + r <= MAXFILE * BSIZE < off + r + PIECE)
  {
    var d := MAXFILE * BSIZE - off;
    assert d / PIECE * PIECE <= d < d / PIECE * PIECE + PIECE;
  }

  /** What counts of them: all, or those before the fault, in its block, where a block or a
      piece begins. */
  lemma PiecesCountMeans(off: nat, n: nat, avail: nat)
    requires off <= MAXFILE * BSIZE && avail <= n
    ensures var r := PiecesCount(off, n, avail);
            && (avail >= Pieces(off, n) ==> r == Pieces(off, n))
            && (avail < Pieces(off, n) ==>
                  && avail / PIECE * PIECE <= r <= avail && (off + r) / BSIZE == (off + avail) / BSIZE
                  && (r % PIECE == 0 || (off + r) % BSIZE == 0))
  {
    if avail < Pieces(off, n) {
      PiecesMeans(off, n);
      var k := avail / PIECE * PIECE;
      assert k <= avail < k + PIECE && k % PIECE == 0;
      WholeMeans(off + k, if n - k > PIECE then PIECE else n - k, avail - k);
      hide Whole, Pieces;
    }
  }

  lemma PieceEnds(off: nat, k: nat, x: nat)
    requires 0 < x
    ensures off / BSIZE <= (off + k) / BSIZE <= BlocksEnd(off, k) <= BlocksEnd(off, k + x) == BlocksEnd(off + k, x)
  {
  }

  lemma StopsParts(sb: Super, fs: Fs, i: nat, off: nat, r: nat, bn: nat)
    requires Shape(sb, fs) && i < |fs.inodes| && bn == (off + r) / BSIZE
    ensures Stops(sb, fs, i, off, r) <==>
            Aligned(off, r) && bn < MAXFILE && Fits(sb, fs, i, off / BSIZE, bn) && !Fits(sb, fs, i, off / BSIZE, bn + 1)
  {
    hide Fits, Aligned;
  }

  /** Where a piece stops for want of a block, the whole does. */
  lemma PieceStops(sb: Super, a: Fs, b: Fs, i: nat, off: nat, k: nat, r: nat)
    requires Drawn(sb, a, b, i, off / BSIZE, BlocksEnd(off, k)) && Shape(sb, b) && i < |b.inodes| && Stops(sb, b, i, off + k, r)
    ensures Shape(sb, a) && i < |a.inodes| && Stops(sb, a, i, off, k + r)
  {
    var lo, m, l, x := off / BSIZE, BlocksEnd(off, k), (off + k) / BSIZE, (off + k + r) / BSIZE;
    PieceEnds(off, k, 1);
    hide Fits, BlocksEnd, Needs, Took, Stops, Aligned;
    StopsParts(sb, b, i, off + k, r, x);
    LackOn(sb, a, b, i, lo, m, l, x);
    PieceAligned(off, k, r);
    StopsParts(sb, a, i, off, k + r, x);
  }

  lemma LackOn(sb: Super, a: Fs, b: Fs, i: nat, lo: nat, m: nat, l: nat, x: nat)
    requires Drawn(sb, a, b, i, lo, m) && lo <= l <= m && l <= x && Shape(sb, b) && i < |b.inodes|
    requires Fits(sb, b, i, l, x) && !Fits(sb, b, i, l, x + 1)
    ensures m <= x && Shape(sb, a) && i < |a.inodes| && Fits(sb, a, i, lo, x) && !Fits(sb, a, i, lo, x + 1)
  {
    hide Fits, Needs, Took;
    if x < m {
      DrawnNeeds(sb, a, b, i, lo, m, l, x + 1);
    } else {
      NeedsOn(sb, a, b, i, lo, m, l, x);
      NeedsOn(sb, a, b, i, lo, m, l, x + 1);
    }
  }

  lemma PieceAligned(off: nat, k: nat, r: nat)
    requires Aligned(off + k, r) && BlocksEnd(off, k) <= (off + k + r) / BSIZE
    ensures Aligned(off, k + r)
  {
  }

  /** The piece at byte `k`: complete, or cut short by the source and so the whole, or by
      the disk and so the whole. */
  lemma PieceTurn(sb: Super, a: Fs, b: Fs, c: Fs, i: nat, off: nat, k: nat, n: nat, avail: nat, n1: nat, a1: nat, r: nat)
    requires Shape(sb, a) && i < |a.inodes| && Shape(sb, b) && i < |b.inodes|
    requires k % PIECE == 0 && k < n && k <= avail <= n && n1 == (if n - k > PIECE then PIECE else n - k)
    requires off + k + n1 <= MAXFILE * BSIZE && a1 == (if avail - k < n1 then avail - k else n1)
    requires Drawn(sb, a, b, i, off / BSIZE, BlocksEnd(off, k))
    requires Supplied(sb, b, i, off + k, n1, a1) ==>
               r == Whole(off + k, n1, a1) && Drawn(sb, b, c, i, (off + k) / BSIZE, BlocksEnd(off + k, Reach(n1, a1)))
    requires !Supplied(sb, b, i, off + k, n1, a1) ==> r < n1 && r <= a1 && Stops(sb, b, i, off + k, r)
    ensures r == n1 ==> Supplied(sb, b, i, off + k, n1, a1) && k + n1 <= avail && Drawn(sb, a, c, i, off / BSIZE, BlocksEnd(off, k + n1))
    ensures r != n1 && Supplied(sb, b, i, off + k, n1, a1) ==>
              && Supplied(sb, a, i, off, Pieces(off, n), avail) && a1 == avail - k < n1
              && avail < Pieces(off, n) && k + r == PiecesCount(off, n, avail)
    ensures !Supplied(sb, b, i, off + k, n1, a1) ==>
              !Supplied(sb, a, i, off, Pieces(off, n), avail) && Stops(sb, a, i, off, k + r)
  {
    hide Fits, Drawn, BlocksEnd, Stops, Whole, Pieces, PiecesCount;
    var lo, l := off / BSIZE, (off + k) / BSIZE;
    PieceIn(off, k, n, n1);
    if Supplied(sb, b, i, off + k, n1, a1) {
      var x := Reach(n1, a1);
      PieceEnds(off, k, x);
      DrawnOn(sb, a, b, c, i, lo, BlocksEnd(off, k), l, BlocksEnd(off, k + x));
      DrawnFits(sb, a, c, i, lo, BlocksEnd(off, k + x));
      if a1 == n1 { WholeAll(off + k, n1); } else { CutCounts(off, k, n, avail, n1); }
    } else {
      PieceStops(sb, a, b, i, off, k, r);
      StopsShort(sb, a, i, off, k + r, Reach(Pieces(off, n), avail));
    }
  }

  lemma PieceIn(off: nat, k: nat, n: nat, n1: nat)
    requires k % PIECE == 0 && k < n && n1 == (if n - k > PIECE then PIECE else n - k) && off + k + n1 <= MAXFILE * BSIZE
    ensures k + n1 <= Pieces(off, n)
  {
  }

  lemma SameMultiple(x: nat, k: nat)
    requires k % PIECE == 0 && k <= x < k + PIECE
    ensures x / PIECE * PIECE == k
  {
  }

  lemma CutCounts(off: nat, k: nat, n: nat, avail: nat, n1: nat)
    requires k % PIECE == 0 && k <= avail < k + n1 && avail <= n && n1 == (if n - k > PIECE then PIECE else n - k)
    requires off <= MAXFILE * BSIZE && k + n1 <= Pieces(off, n)
    ensures PiecesCount(off, n, avail) == k + Whole(off + k, n1, avail - k)
  {
    hide Whole, Pieces;
    SameMultiple(avail, k);
  }

  lemma PiecesDone(sb: Super, a: Fs, b: Fs, i: nat, off: nat, k: nat, n: nat, avail: nat)
    requires Drawn(sb, a, b, i, off / BSIZE, BlocksEnd(off, k)) && off <= MAXFILE * BSIZE && Pieces(off, n) == k <= avail <= n
    ensures Shape(sb, a) && i < |a.inodes| && Supplied(sb, a, i, off, Pieces(off, n), avail) && PiecesCount(off, n, avail) == k
  {
    hide Fits, Took;
    DrawnFits(sb, a, b, i, off / BSIZE, BlocksEnd(off, k));
  }

  lemma StopsShort(sb: Super, fs: Fs, i: nat, off: nat, r: nat, reach: nat)
    requires Shape(sb, fs) && i < |fs.inodes| && Stops(sb, fs, i, off, r) && r < reach
    ensures !Fits(sb, fs, i, off / BSIZE, BlocksEnd(off, reach))
  {
    hide Fits;
    if Fits(sb, fs, i, off / BSIZE, BlocksEnd(off, reach)) {
      FitsLess(sb, fs, i, off / BSIZE, (off + r) / BSIZE + 1, BlocksEnd(off, reach));
    }
  }

  // ---- what was written

  /** `stray` bytes of `src` were written at `off`, of which `r` count. */
  ghost predicate Cut(sb: Super, fs: Fs, u0: Unsaved, now: Fs, u: Unsaved, i: nat, off: nat, src: seq<byte>, stray: nat, r: nat) {
    && Shape(sb, fs) && Shape(sb, now) && i < |fs.inodes| == |now.inodes| && off <= fs.inodes[i].size && r <= stray <= |src|
    && Wrote(sb, fs, now, i, off, src[..stray], r)
    && WroteBytes(sb, fs, now, i, off, src[..stray])
    && Resaved(sb, fs, u0, now, u, i, off, src[..r])
  }

  /** `d` was written at `off`, whole, and took the blocks it needed. */
  ghost predicate Pieced(sb: Super, fs: Fs, u0: Unsaved, now: Fs, u: Unsaved, i: nat, off: nat, d: seq<byte>) {
    && Cut(sb, fs, u0, now, u, i, off, d, |d|, |d|) && off + |d| <= now.inodes[i].size
    && Drawn(sb, fs, now, i, off / BSIZE, BlocksEnd(off, |d|))
  }

  lemma PiecedNone(sb: Super, fs: Fs, u: Unsaved, i: nat, off: nat)
    requires Shape(sb, fs) && i < |fs.inodes| && off <= fs.inodes[i].size
    ensures Pieced(sb, fs, u, fs, u, i, off, [])
  {
    WroteZero(sb, fs, i, off);
    NothingPieced(sb, fs, u, i, off);
    DrawnNone(sb, fs, i, off / BSIZE);
    hide Wrote, WroteBytes, Resaved, Drawn;
    var d: seq<byte> := [];
    assert d[..0] == d;
  }

  lemma NothingPieced(sb: Super, fs: Fs, u: Unsaved, i: nat, off: nat)
    requires Shape(sb, fs)
    ensures WroteBytes(sb, fs, fs, i, off, []) && Resaved(sb, fs, u, fs, u, i, off, [])
  {
    WroteNothing(sb, fs, i, off);
    SavedSelf(sb, fs, u, i, off);
  }

  lemma PiecedSize(sb: Super, fs: Fs, u0: Unsaved, now: Fs, u: Unsaved, i: nat, off: nat, d: seq<byte>)
    requires Pieced(sb, fs, u0, now, u, i, off, d)
    ensures i < |now.inodes| && off + |d| <= now.inodes[i].size
  {
  }

  lemma PiecedCut(sb: Super, fs: Fs, u0: Unsaved, now: Fs, u: Unsaved, i: nat, off: nat, src: seq<byte>, k: nat)
    requires k <= |src| && Pieced(sb, fs, u0, now, u, i, off, src[..k])
    ensures Cut(sb, fs, u0, now, u, i, off, src, k, k) && Drawn(sb, fs, now, i, off / BSIZE, BlocksEnd(off, k))
  {
    hide Wrote, WroteBytes, Resaved, Drawn;
    assert src[..k][..k] == src[..k];
  }

  lemma PiecedTurn(sb: Super, fs: Fs, u0: Unsaved, before: Fs, u: Unsaved, now: Fs, u': Unsaved, i: nat, off: nat,
                   src: seq<byte>, k: nat, avail: nat, n1: nat, a1: nat, r: nat, s: nat)
    requires Shape(sb, fs) && Shape(sb, now) && i < |fs.inodes| == |now.inodes| && off <= fs.inodes[i].size
    requires k % PIECE == 0 && k < |src| && k <= avail <= |src| && n1 == (if |src| - k > PIECE then PIECE else |src| - k)
    requires off + k + n1 <= MAXFILE * BSIZE && a1 == (if avail - k < n1 then avail - k else n1) && r <= s <= n1
    requires Pieced(sb, fs, u0, before, u, i, off, src[..k]) && Shape(sb, before) && i < |before.inodes|
    requires Cut(sb, before, u, now, u', i, off + k, src[k..k + n1], s, r)
    requires Supplied(sb, before, i, off + k, n1, a1) ==>
               r == Whole(off + k, n1, a1) && s == a1 && Drawn(sb, before, now, i, (off + k) / BSIZE, BlocksEnd(off + k, Reach(n1, a1)))
    requires !Supplied(sb, before, i, off + k, n1, a1) ==> r == s < n1 && r <= a1 && Stops(sb, before, i, off + k, r)
    ensures Cut(sb, fs, u0, now, u', i, off, src, k + s, k + r)
    ensures r == n1 ==> s == n1 && k + n1 <= avail && Pieced(sb, fs, u0, now, u', i, off, src[..k + n1])
    ensures r != n1 && Supplied(sb, fs, i, off, Pieces(off, |src|), avail) ==>
              k + r == PiecesCount(off, |src|, avail) && k + s == avail < Pieces(off, |src|)
    ensures r != n1 && !Supplied(sb, fs, i, off, Pieces(off, |src|), avail) ==>
              r == s && Stops(sb, fs, i, off, k + r) && !Supplied(sb, before, i, off + k, n1, a1)
  {
    hide Wrote, WroteBytes, Resaved, Drawn, BlocksEnd, Fits, Whole, PiecesCount, Stops;
    PieceTurn(sb, fs, before, now, i, off, k, |src|, avail, n1, a1, r);
    PiecedCut(sb, fs, u0, before, u, i, off, src, k);
    Middle(src, k, n1, s);
    Middle(src, k, n1, r);
    assert src[k..k + s][..r] == src[k..k + r];
    WroteJoin(sb, fs, before, now, i, off, src[..k], src[k..k + n1][..s], r);
    PieceSaved(sb, fs, u0, before, u, now, u', i, off, src[..k], src[k..k + s], r);
    if r == n1 {
      assert src[..k + n1][..k + n1] == src[..k + n1];
    }
  }
}
