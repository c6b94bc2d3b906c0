/**
  The storage allocator of section 8.7 of The C Programming Language, 2nd ed.,
  as user/umalloc.c has it. Addresses and sizes are in units of one header.

  `fl` is the free list in address order, from the static header `base`;
  `tile` sends every unit obtained from sbrk to the header of the block, free
  or live, that contains it.
 */
module Heap {
  import opened Common

  const BASE: nat := 1          // the static header, below all memory from sbrk
  const MINCORE: nat := 4096    // units asked of sbrk at least

  datatype Header = Header(ptr: nat, size: nat)

  type Mem = map<nat, Header>

  // ---- the circular list

  function Next(fl: seq<nat>, i: nat): nat
    requires i < |fl|
  {
    if i + 1 < |fl| then fl[i + 1] else fl[0]
  }

  function End(hdr: Mem, a: nat): nat
    requires a in hdr
  {
    a + hdr[a].size
  }

  /** In address order from BASE, blocks not overlapping. */
  ghost predicate Sorted(hdr: Mem, fl: seq<nat>) {
    && fl != [] && fl[0] == BASE
    && (forall i :: 0 <= i < |fl| ==> fl[i] in hdr)
    && hdr[BASE].size == 0
    && (forall i :: 1 <= i < |fl| ==> hdr[fl[i]].size >= 1 && BASE < fl[i])
    && (forall i, j :: 0 <= i < j < |fl| ==> End(hdr, fl[i]) <= fl[j])
  }

  /** Circular through `ptr`. */
  ghost predicate Linked(hdr: Mem, fl: seq<nat>)
    requires forall i :: 0 <= i < |fl| ==> fl[i] in hdr
  {
    forall i: nat {:trigger Next(fl, i)} :: i < |fl| ==> hdr[fl[i]].ptr == Next(fl, i)
  }

  /** The free blocks: all of the list but BASE. */
  ghost function Blocks(fl: seq<nat>): set<nat> {
    set i | 1 <= i < |fl| :: fl[i]
  }

  predicate InBlock(hdr: Mem, b: nat, u: nat) {
    b in hdr && b <= u < End(hdr, b)
  }

  /** `bs` are the blocks, free and live; every unit lies in exactly the one `tile` names. */
  ghost predicate Tiled(hdr: Mem, bs: set<nat>, tile: map<nat, nat>) {
    && (forall b :: b in bs ==> b in hdr && hdr[b].size >= 1 && BASE < b)
    && (forall u :: u in tile ==> tile[u] in bs && InBlock(hdr, tile[u], u))
    && (forall b: nat, u: nat :: b in bs && InBlock(hdr, b, u) ==> u in tile && tile[u] == b)
  }

  /** No free block ends where another begins: free neighbours are one block. */
  ghost predicate Apart(hdr: Mem, free: set<nat>)
    requires forall b :: b in free ==> b in hdr
  {
    forall b, c :: b in free && c in free ==> End(hdr, b) != c
  }

  ghost predicate Inv(hdr: Mem, fl: seq<nat>, live: set<nat>, tile: map<nat, nat>) {
    && Sorted(hdr, fl) && Linked(hdr, fl)
    && Blocks(fl) !! live
    && Tiled(hdr, Blocks(fl) + live, tile)
  }

  /** The units of a set of blocks. */
  ghost function Units(bs: set<nat>, tile: map<nat, nat>): set<nat> {
    set u | u in tile && tile[u] in bs
  }

  // ---- putting a live block into the list

  function Inserted(hdr: Mem, p: nat, b: nat): Mem
    requires p in hdr && b in hdr
  {
    hdr[b := Header(hdr[p].ptr, hdr[b].size)][p := Header(b, hdr[p].size)]
  }

  /** Position `i` is the place for block `b`. */
  ghost predicate Fits(hdr: Mem, fl: seq<nat>, b: nat, i: nat)
    requires Sorted(hdr, fl)
  {
    0 <= i < |fl| && fl[i] < b && (i + 1 < |fl| ==> b < fl[i + 1])
  }

  lemma Disjoint(hdr: Mem, bs: set<nat>, tile: map<nat, nat>, b: nat, c: nat)
    requires Tiled(hdr, bs, tile) && b in bs && c in bs && b < c
    ensures End(hdr, b) <= c
  {
    assert InBlock(hdr, c, c);
    assert c < End(hdr, b) ==> InBlock(hdr, b, c);
  }

  lemma Ascending(hdr: Mem, fl: seq<nat>)
    requires Sorted(hdr, fl)
    ensures forall j, k :: 0 <= j < k < |fl| ==> fl[j] < fl[k]
  {
  }

  lemma InsertSorted(hdr: Mem, fl: seq<nat>, bs: set<nat>, tile: map<nat, nat>, b: nat, i: nat)
    requires Sorted(hdr, fl) && Blocks(fl) <= bs && Tiled(hdr, bs, tile) && b in bs && Fits(hdr, fl, b, i)
    ensures Sorted(Inserted(hdr, fl[i], b), fl[..i + 1] + [b] + fl[i + 1..])
  {
    Ascending(hdr, fl);
    forall k | 0 <= k < |fl|
      ensures k <= i ==> End(hdr, fl[k]) <= b
      ensures i < k ==> End(hdr, b) <= fl[k]
    {
      if 0 < k { assert fl[k] in Blocks(fl); }
      if 0 < k <= i { Disjoint(hdr, bs, tile, fl[k], b); }
      if i < k { Disjoint(hdr, bs, tile, b, fl[k]); }
    }
    InsertOrdered(hdr, fl, b, i);
  }

  lemma InsertOrdered(hdr: Mem, fl: seq<nat>, b: nat, i: nat)
    requires Sorted(hdr, fl) && i < |fl| && b in hdr && hdr[b].size >= 1 && BASE < b
    requires forall k :: 0 <= k <= i ==> End(hdr, fl[k]) <= b && fl[k] < b
    requires forall k :: i < k < |fl| ==> End(hdr, b) <= fl[k]
    ensures Sorted(Inserted(hdr, fl[i], b), fl[..i + 1] + [b] + fl[i + 1..])
  {
    var fl' := fl[..i + 1] + [b] + fl[i + 1..];
    var hdr' := Inserted(hdr, fl[i], b);
    assert forall c :: c in hdr ==> hdr'[c].size == hdr[c].size;
    forall k: nat | k < |fl'|
      ensures fl'[k] in hdr && (k > 0 ==> hdr[fl'[k]].size >= 1 && BASE < fl'[k])
    {
      InsertAt(fl, b, i, k);
    }
    InsertAt(fl, b, i, 0);
    forall j: nat, k: nat | j < k < |fl'|
      ensures End(hdr, fl'[j]) <= fl'[k]
    {
      InsertPair(hdr, fl, b, i, j, k);
    }
  }

  lemma InsertPair(hdr: Mem, fl: seq<nat>, b: nat, i: nat, j: nat, k: nat)
    requires Sorted(hdr, fl) && i < |fl| && b in hdr && j < k < |fl| + 1
    requires forall h :: 0 <= h <= i ==> End(hdr, fl[h]) <= b && fl[h] < b
    requires forall h :: i < h < |fl| ==> End(hdr, b) <= fl[h]
    ensures var fl' := fl[..i + 1] + [b] + fl[i + 1..]; fl'[j] in hdr && End(hdr, fl'[j]) <= fl'[k]
  {
    InsertAt(fl, b, i, j);
    InsertAt(fl, b, i, k);
  }

  lemma InsertAt(fl: seq<nat>, b: nat, i: nat, k: nat)
    requires i < |fl| && k < |fl| + 1
    ensures (fl[..i + 1] + [b] + fl[i + 1..])[k] == if k <= i then fl[k] else if k == i + 1 then b else fl[k - 1]
  {
  }

  lemma InsertLinked(hdr: Mem, fl: seq<nat>, b: nat, i: nat)
    requires Sorted(hdr, fl) && Linked(hdr, fl) && Fits(hdr, fl, b, i) && b in hdr
    ensures var fl' := fl[..i + 1] + [b] + fl[i + 1..];
            var hdr' := Inserted(hdr, fl[i], b);
            (forall k :: 0 <= k < |fl'| ==> fl'[k] in hdr') && Linked(hdr', fl')
  {
    var fl' := fl[..i + 1] + [b] + fl[i + 1..];
    var hdr' := Inserted(hdr, fl[i], b);
    assert hdr[fl[i]].ptr == Next(fl, i);
    forall k: nat | k < |fl'|
      ensures hdr'[fl'[k]].ptr == Next(fl', k)
    {
      if k < i { assert hdr[fl[k]].ptr == Next(fl, k); }
      if k > i + 1 { assert hdr[fl[k - 1]].ptr == Next(fl, k - 1); }
    }
  }

  lemma InsertBlocks(fl: seq<nat>, b: nat, i: nat)
    requires i < |fl|
    ensures Blocks(fl[..i + 1] + [b] + fl[i + 1..]) == Blocks(fl) + {b}
  {
    var fl' := fl[..i + 1] + [b] + fl[i + 1..];
    assert fl'[i + 1] == b;
    forall k | 1 <= k < |fl|
      ensures fl[k] in Blocks(fl')
    {
      assert fl[k] == fl'[if k <= i then k else k + 1];
    }
  }

  /** Links do not matter to the tiling, only sizes. */
  lemma Retiled(hdr: Mem, hdr': Mem, bs: set<nat>, tile: map<nat, nat>)
    requires Tiled(hdr, bs, tile)
    requires forall b :: b in bs ==> b in hdr' && hdr'[b].size == hdr[b].size
    ensures Tiled(hdr', bs, tile)
  {
    forall b: nat, u: nat | b in bs
      ensures InBlock(hdr', b, u) == InBlock(hdr, b, u)
    {
    }
  }

  // ---- merging a block with the next

  function Merged(hdr: Mem, b: nat, c: nat): Mem
    requires b in hdr && c in hdr
  {
    hdr[b := Header(hdr[c].ptr, hdr[b].size + hdr[c].size)]
  }

  ghost function MergedTile(tile: map<nat, nat>, b: nat, c: nat): map<nat, nat> {
    map u | u in tile :: if tile[u] == c then b else tile[u]
  }

  lemma MergeSorted(hdr: Mem, fl: seq<nat>, i: nat)
    requires Sorted(hdr, fl) && 1 <= i < |fl| - 1 && End(hdr, fl[i]) == fl[i + 1]
    ensures Sorted(Merged(hdr, fl[i], fl[i + 1]), fl[..i + 1] + fl[i + 2..])
  {
    var hdr' := Merged(hdr, fl[i], fl[i + 1]);
    var fl' := fl[..i + 1] + fl[i + 2..];
    forall j, k | 0 <= j < k < |fl'|
      ensures End(hdr', fl'[j]) <= fl'[k]
    {
      if j == i {
        assert fl'[k] == fl[k + 1];
        assert End(hdr, fl[i + 1]) <= fl[k + 1];
      }
    }
  }

  lemma MergeLinked(hdr: Mem, fl: seq<nat>, i: nat)
    requires Sorted(hdr, fl) && Linked(hdr, fl) && 1 <= i < |fl| - 1
    ensures var hdr' := Merged(hdr, fl[i], fl[i + 1]);
            var fl' := fl[..i + 1] + fl[i + 2..];
            (forall k :: 0 <= k < |fl'| ==> fl'[k] in hdr') && Linked(hdr', fl')
  {
    var hdr' := Merged(hdr, fl[i], fl[i + 1]);
    var fl' := fl[..i + 1] + fl[i + 2..];
    forall k: nat | k < |fl'|
      ensures hdr'[fl'[k]].ptr == Next(fl', k)
    {
      if k < i {
        assert hdr[fl[k]].ptr == Next(fl, k);
      } else {
        assert hdr[fl[k + 1]].ptr == Next(fl, k + 1);
      }
    }
  }

  lemma MergeTiled(hdr: Mem, bs: set<nat>, tile: map<nat, nat>, b: nat, c: nat)
    requires Tiled(hdr, bs, tile) && b in bs && c in bs && End(hdr, b) == c
    ensures Tiled(Merged(hdr, b, c), bs - {c}, MergedTile(tile, b, c))
  {
    var hdr' := Merged(hdr, b, c);
    var tile' := MergedTile(tile, b, c);
    forall d: nat, u: nat | d in bs - {c}
      ensures InBlock(hdr', d, u) <==> InBlock(hdr, d, u) || (d == b && InBlock(hdr, c, u))
    {
    }
    forall u | u in tile'
      ensures tile'[u] in bs - {c} && InBlock(hdr', tile'[u], u)
    {
      assert InBlock(hdr, tile[u], u);
    }
  }

  lemma MergeBlocks(fl: seq<nat>, i: nat)
    requires 1 <= i < |fl| - 1 && forall j, k :: 0 <= j < k < |fl| ==> fl[j] < fl[k]
    ensures Blocks(fl[..i + 1] + fl[i + 2..]) == Blocks(fl) - {fl[i + 1]}
  {
    var fl' := fl[..i + 1] + fl[i + 2..];
    forall b | b in Blocks(fl) && b != fl[i + 1]
      ensures b in Blocks(fl')
    {
      var k :| 1 <= k < |fl| && fl[k] == b;
      assert fl'[if k <= i then k else k - 1] == b;
    }
    forall b | b in Blocks(fl')
      ensures b in Blocks(fl) && b != fl[i + 1]
    {
      var k :| 1 <= k < |fl'| && fl'[k] == b;
      assert b == fl[if k <= i then k else k + 1];
    }
  }

  // ---- free

  /** The headers after `free` puts block `b` behind `p`. */
  function Freed(hdr: Mem, p: nat, b: nat): Mem
    requires p in hdr && b in hdr && hdr[p].ptr in hdr
  {
    var next := hdr[p].ptr;
    var h := if b + hdr[b].size == next
             then hdr[b := Header(hdr[next].ptr, hdr[b].size + hdr[next].size)]
             else hdr[b := Header(next, hdr[b].size)];
    if p + h[p].size == b
    then h[p := Header(h[b].ptr, h[p].size + h[b].size)]
    else h[p := Header(b, h[p].size)]
  }

  lemma InsertInv(hdr: Mem, fl: seq<nat>, live: set<nat>, tile: map<nat, nat>, b: nat, i: nat)
    requires Inv(hdr, fl, live, tile) && b in live && Fits(hdr, fl, b, i)
    ensures Inv(Inserted(hdr, fl[i], b), fl[..i + 1] + [b] + fl[i + 1..], live - {b}, tile)
  {
    hide Sorted, Linked, Tiled;
    assert fl[i] in hdr && b in hdr by { InvShape(hdr, fl, live, tile); }
    InsertSorted(hdr, fl, Blocks(fl) + live, tile, b, i);
    InsertLinked(hdr, fl, b, i);
    InsertBlocks(fl, b, i);
    InsertSizes(hdr, fl, live, tile, b, i);
    Retiled(hdr, Inserted(hdr, fl[i], b), Blocks(fl) + live, tile);
    assert Blocks(fl) + live == Blocks(fl) + {b} + (live - {b});
  }

  lemma InvShape(hdr: Mem, fl: seq<nat>, live: set<nat>, tile: map<nat, nat>)
    requires Inv(hdr, fl, live, tile)
    ensures fl != [] && fl[0] == BASE && BASE in hdr && hdr[BASE].size == 0
    ensures forall k :: 0 <= k < |fl| ==> fl[k] in hdr
    ensures forall b :: b in Blocks(fl) + live ==> b in hdr && BASE < b
  {
  }

  lemma InsertSizes(hdr: Mem, fl: seq<nat>, live: set<nat>, tile: map<nat, nat>, b: nat, i: nat)
    requires Inv(hdr, fl, live, tile) && b in live && Fits(hdr, fl, b, i)
    ensures forall c :: c in Blocks(fl) + live ==>
              c in Inserted(hdr, fl[i], b) && Inserted(hdr, fl[i], b)[c].size == hdr[c].size
  {
  }

  lemma MergeInv(hdr: Mem, fl: seq<nat>, live: set<nat>, tile: map<nat, nat>, i: nat)
    requires Inv(hdr, fl, live, tile) && 1 <= i < |fl| - 1 && End(hdr, fl[i]) == fl[i + 1]
    ensures Inv(Merged(hdr, fl[i], fl[i + 1]), fl[..i + 1] + fl[i + 2..], live, MergedTile(tile, fl[i], fl[i + 1]))
  {
    MergeSorted(hdr, fl, i);
    MergeLinked(hdr, fl, i);
    Ascending(hdr, fl);
    MergeBlocks(fl, i);
    assert fl[i] in Blocks(fl) && fl[i + 1] in Blocks(fl);
    MergeTiled(hdr, Blocks(fl) + live, tile, fl[i], fl[i + 1]);
    assert Blocks(fl) - {fl[i + 1]} + live == Blocks(fl) + live - {fl[i + 1]};
  }

  /** Only the neighbours in the list can touch the block put between them. */
  lemma Neighbours(hdr: Mem, fl: seq<nat>, live: set<nat>, tile: map<nat, nat>, b: nat, i: nat, c: nat)
    requires Inv(hdr, fl, live, tile) && b in live && Fits(hdr, fl, b, i) && c in Blocks(fl)
    ensures End(hdr, c) == b ==> c == fl[i] && 0 < i
    ensures End(hdr, b) == c ==> i + 1 < |fl| && c == fl[i + 1]
  {
    var k :| 1 <= k < |fl| && fl[k] == c;
    if k < i { assert End(hdr, fl[k]) <= fl[i]; }
    if k > i + 1 {
      assert fl[i + 1] in Blocks(fl);
      Disjoint(hdr, Blocks(fl) + live, tile, b, fl[i + 1]);
      assert End(hdr, fl[i + 1]) <= fl[k];
    }
  }

  /** What `free` leaves: the same heap with the units of `b` free. */
  ghost predicate FreedInv(hdr: Mem, fl: seq<nat>, live: set<nat>, tile: map<nat, nat>, b: nat, p: nat,
                           hdr': Mem, fl': seq<nat>, tile': map<nat, nat>)
    requires Inv(hdr, fl, live, tile)
  {
    && Inv(hdr', fl', live - {b}, tile') && p in fl'
    && tile'.Keys == tile.Keys
    && Units(Blocks(fl'), tile') == Units(Blocks(fl), tile) + Units({b}, tile)
    && forall a :: a in live - {b} ==> hdr'[a] == hdr[a]
  }

  lemma FreeStep1(hdr: Mem, fl: seq<nat>, live: set<nat>, tile: map<nat, nat>, b: nat, i: nat)
    requires Inv(hdr, fl, live, tile) && Apart(hdr, Blocks(fl)) && b in live && Fits(hdr, fl, b, i)
    ensures var hdr' := Inserted(hdr, fl[i], b);
            var fl' := fl[..i + 1] + [b] + fl[i + 1..];
            && FreedInv(hdr, fl, live, tile, b, fl[i], hdr', fl', tile)
            && (forall c, d :: c in Blocks(fl') && d in Blocks(fl') && End(hdr', c) == d ==>
                  (c == fl[i] && 0 < i && d == b) || (c == b && i + 1 < |fl| && d == fl[i + 1]))
  {
    hide Sorted, Linked, Tiled;
    InvShape(hdr, fl, live, tile);
    InsertInv(hdr, fl, live, tile, b, i);
    InsertBlocks(fl, b, i);
    InsertSizes(hdr, fl, live, tile, b, i);
    var fl' := fl[..i + 1] + [b] + fl[i + 1..];
    assert fl'[i] == fl[i];
    forall c | c in Blocks(fl)
      ensures End(hdr, c) == b ==> c == fl[i] && 0 < i
      ensures End(hdr, b) == c ==> i + 1 < |fl| && c == fl[i + 1]
    {
      Neighbours(hdr, fl, live, tile, b, i, c);
    }
    assert hdr[b].size >= 1 by { LiveSize(hdr, fl, live, tile, b); }
  }

  lemma LiveSize(hdr: Mem, fl: seq<nat>, live: set<nat>, tile: map<nat, nat>, b: nat)
    requires Inv(hdr, fl, live, tile) && b in Blocks(fl) + live
    ensures b in hdr && hdr[b].size >= 1
  {
  }

  lemma MergeStep(hdr: Mem, fl: seq<nat>, live: set<nat>, tile: map<nat, nat>, i: nat)
    requires Inv(hdr, fl, live, tile) && 1 <= i < |fl| - 1 && End(hdr, fl[i]) == fl[i + 1]
    ensures var hdr' := Merged(hdr, fl[i], fl[i + 1]);
            var fl' := fl[..i + 1] + fl[i + 2..];
            var tile' := MergedTile(tile, fl[i], fl[i + 1]);
            && Inv(hdr', fl', live, tile')
            && Blocks(fl') == Blocks(fl) - {fl[i + 1]} && fl[i] in Blocks(fl')
            && tile'.Keys == tile.Keys
            && Units(Blocks(fl'), tile') == Units(Blocks(fl), tile)
            && (forall a :: a in live ==> a in hdr && hdr'[a] == hdr[a])
            && (forall c :: c in Blocks(fl') ==> c in hdr && End(hdr', c) == if c == fl[i] then End(hdr, fl[i + 1]) else End(hdr, c))
  {
    hide Sorted, Linked, Tiled;
    InvShape(hdr, fl, live, tile);
    MergeInv(hdr, fl, live, tile, i);
    assert Sorted(hdr, fl);
    Ascending(hdr, fl);
    MergeBlocks(fl, i);
    assert fl[i] in Blocks(fl) && fl[i + 1] in Blocks(fl);
    LiveSize(hdr, fl, live, tile, fl[i]);
  }

  /** Insert, and merge with the next block if it starts where `b` ends. */
  lemma FreeStep2(hdr: Mem, fl: seq<nat>, live: set<nat>, tile: map<nat, nat>, b: nat, i: nat)
    returns (h: Mem, fl': seq<nat>, tile': map<nat, nat>)
    requires Inv(hdr, fl, live, tile) && Apart(hdr, Blocks(fl)) && b in live && Fits(hdr, fl, b, i)
    ensures fl[i] in hdr && b in hdr && hdr[fl[i]].ptr in hdr
    ensures FreedInv(hdr, fl, live, tile, b, fl[i], h, fl', tile')
    ensures h == (var next := hdr[fl[i]].ptr;
                  if b + hdr[b].size == next
                  then hdr[b := Header(hdr[next].ptr, hdr[b].size + hdr[next].size)]
                  else hdr[b := Header(next, hdr[b].size)])[fl[i] := Header(b, hdr[fl[i]].size)]
    ensures i + 1 < |fl'| && fl'[i] == fl[i] && fl'[i + 1] == b
    ensures forall c, d :: c in Blocks(fl') && d in Blocks(fl') && End(h, c) == d ==> c == fl[i] && 0 < i && d == b
  {
    hide Sorted, Linked, Tiled, Units, Blocks, MergedTile;
    InvShape(hdr, fl, live, tile);
    LinkAt(hdr, fl, live, tile, i);
    FreeStep1(hdr, fl, live, tile, b, i);
    InsertBlocks(fl, b, i);
    h := Inserted(hdr, fl[i], b);
    fl' := fl[..i + 1] + [b] + fl[i + 1..];
    tile' := tile;
    if End(hdr, b) == hdr[fl[i]].ptr {
      assert fl'[i + 1] == b && fl'[i + 2] == fl[i + 1];
      MergeStep(h, fl', live - {b}, tile', i + 1);
      h := Merged(h, b, fl[i + 1]);
      tile' := MergedTile(tile', b, fl[i + 1]);
      fl' := fl'[..i + 2] + fl'[i + 3..];
    }
  }

  /** `free` at the right place keeps the list, the tiling and the absence of
      free neighbours, and frees exactly the units of `b`. */
  lemma FreeKeeps(hdr: Mem, fl: seq<nat>, live: set<nat>, tile: map<nat, nat>, b: nat, i: nat) returns (fl': seq<nat>, tile': map<nat, nat>)
    requires Inv(hdr, fl, live, tile) && Apart(hdr, Blocks(fl)) && b in live && Fits(hdr, fl, b, i)
    ensures fl[i] in hdr && b in hdr && hdr[fl[i]].ptr in hdr
    ensures FreedInv(hdr, fl, live, tile, b, fl[i], Freed(hdr, fl[i], b), fl', tile')
    ensures Apart(Freed(hdr, fl[i], b), Blocks(fl'))
    ensures Reaches(Freed(hdr, fl[i], b), Blocks(fl'), hdr[b].size)
  {
    hide Sorted, Linked, Tiled;
    InvShape(hdr, fl, live, tile);
    var h;
    h, fl', tile' := FreeStep2(hdr, fl, live, tile, b, i);
    assert b in Blocks(fl');
    if End(h, fl[i]) == b {
      MergeStep(h, fl', live - {b}, tile', i);
      assert fl'[..i + 1][i] == fl[i];
      h := Merged(h, fl[i], b);
      tile' := MergedTile(tile', fl[i], b);
      fl' := fl'[..i + 1] + fl'[i + 2..];
      assert fl[i] in Blocks(fl');
    }
    assert h == Freed(hdr, fl[i], b);
  }

  /** Some free block has `n` units or more. */
  ghost predicate Reaches(hdr: Mem, free: set<nat>, n: nat)
    requires forall b :: b in free ==> b in hdr
  {
    exists b :: b in free && hdr[b].size >= n
  }

  lemma LinkAt(hdr: Mem, fl: seq<nat>, live: set<nat>, tile: map<nat, nat>, i: nat)
    requires Inv(hdr, fl, live, tile) && i < |fl|
    ensures fl[i] in hdr && hdr[fl[i]].ptr == Next(fl, i) && Next(fl, i) in hdr
    ensures i + 1 < |fl| ==> fl[i] < fl[i + 1] && Next(fl, i) in Blocks(fl)
  {
  }

  // ---- malloc

  lemma UnlinkSorted(hdr: Mem, fl: seq<nat>, i: nat)
    requires Sorted(hdr, fl) && 1 <= i < |fl|
    ensures Sorted(hdr[fl[i - 1] := Header(hdr[fl[i]].ptr, hdr[fl[i - 1]].size)], fl[..i] + fl[i + 1..])
  {
    var hdr' := hdr[fl[i - 1] := Header(hdr[fl[i]].ptr, hdr[fl[i - 1]].size)];
    var fl' := fl[..i] + fl[i + 1..];
    forall j, k | 0 <= j < k < |fl'|
      ensures End(hdr', fl'[j]) <= fl'[k]
    {
    }
  }

  lemma UnlinkLinked(hdr: Mem, fl: seq<nat>, i: nat)
    requires Sorted(hdr, fl) && Linked(hdr, fl) && 1 <= i < |fl|
    ensures var hdr' := hdr[fl[i - 1] := Header(hdr[fl[i]].ptr, hdr[fl[i - 1]].size)];
            var fl' := fl[..i] + fl[i + 1..];
            (forall k :: 0 <= k < |fl'| ==> fl'[k] in hdr') && Linked(hdr', fl')
  {
    var hdr' := hdr[fl[i - 1] := Header(hdr[fl[i]].ptr, hdr[fl[i - 1]].size)];
    var fl' := fl[..i] + fl[i + 1..];
    Ascending(hdr, fl);
    assert hdr[fl[i]].ptr == Next(fl, i);
    forall k: nat | k < |fl'|
      ensures fl'[k] in hdr' && hdr'[fl'[k]].ptr == Next(fl', k)
    {
      if k < i - 1 { assert hdr[fl[k]].ptr == Next(fl, k); }
      if k >= i { assert hdr[fl[k + 1]].ptr == Next(fl, k + 1); }
    }
  }

  lemma UnlinkBlocks(fl: seq<nat>, i: nat)
    requires 1 <= i < |fl| && forall j, k :: 0 <= j < k < |fl| ==> fl[j] < fl[k]
    ensures Blocks(fl[..i] + fl[i + 1..]) == Blocks(fl) - {fl[i]}
  {
    var fl' := fl[..i] + fl[i + 1..];
    forall b | b in Blocks(fl) && b != fl[i]
      ensures b in Blocks(fl')
    {
      var k :| 1 <= k < |fl| && fl[k] == b;
      assert fl'[if k < i then k else k - 1] == b;
    }
    forall b | b in Blocks(fl')
      ensures b in Blocks(fl) && b != fl[i]
    {
      var k :| 1 <= k < |fl'| && fl'[k] == b;
      assert b == fl[if k < i then k else k + 1];
    }
  }

  /** A block of exactly the right size leaves the list. */
  lemma TakeWhole(hdr: Mem, fl: seq<nat>, live: set<nat>, tile: map<nat, nat>, i: nat)
    requires Inv(hdr, fl, live, tile) && Apart(hdr, Blocks(fl)) && 1 <= i < |fl|
    ensures var hdr' := hdr[fl[i - 1] := Header(hdr[fl[i]].ptr, hdr[fl[i - 1]].size)];
            var fl' := fl[..i] + fl[i + 1..];
            && Inv(hdr', fl', live + {fl[i]}, tile) && Apart(hdr', Blocks(fl'))
            && fl[i] !in live && fl[i - 1] in fl'
            && Units(Blocks(fl'), tile) + Units({fl[i]}, tile) == Units(Blocks(fl), tile)
            && Units(Blocks(fl'), tile) !! Units({fl[i]}, tile)
            && hdr'[fl[i]] == hdr[fl[i]] && forall a :: a in live ==> a in hdr && hdr'[a] == hdr[a]
  {
    hide Linked, Tiled;
    UnlinkSorted(hdr, fl, i);
    UnlinkLinked(hdr, fl, i);
    Ascending(hdr, fl);
    UnlinkBlocks(fl, i);
    InvShape(hdr, fl, live, tile);
    assert fl[i] in Blocks(fl);
    var hdr' := hdr[fl[i - 1] := Header(hdr[fl[i]].ptr, hdr[fl[i - 1]].size)];
    var fl' := fl[..i] + fl[i + 1..];
    assert fl'[i - 1] == fl[i - 1];
    assert 1 < i ==> fl[i - 1] in Blocks(fl);
    Retiled(hdr, hdr', Blocks(fl) + live, tile);
    assert Blocks(fl) - {fl[i]} + (live + {fl[i]}) == Blocks(fl) + live;
  }

  /** The tail of a larger block: the rest stays in the list. */
  function Split(hdr: Mem, p: nat, n: nat): Mem
    requires p in hdr && 1 <= n < hdr[p].size
  {
    var q := p + hdr[p].size - n;
    hdr[p := Header(hdr[p].ptr, hdr[p].size - n)][q := Header(if q in hdr then hdr[q].ptr else 0, n)]
  }

  lemma SplitTiled(hdr: Mem, bs: set<nat>, tile: map<nat, nat>, p: nat, n: nat)
    requires Tiled(hdr, bs, tile) && p in bs && 1 <= n < hdr[p].size
    ensures var q := p + hdr[p].size - n;
            && q !in bs && p < q
            && Tiled(Split(hdr, p, n), bs + {q}, SplitTile(tile, p, q))
  {
    var q := p + hdr[p].size - n;
    var hdr' := Split(hdr, p, n);
    var tile' := SplitTile(tile, p, q);
    assert InBlock(hdr, p, q);
    assert q in bs ==> InBlock(hdr, q, q);
    forall d: nat, u: nat | d in bs + {q}
      ensures InBlock(hdr', d, u) <==> if d == q then InBlock(hdr, p, u) && q <= u else InBlock(hdr, d, u) && (d == p ==> u < q)
    {
    }
    forall u | u in tile'
      ensures tile'[u] in bs + {q} && InBlock(hdr', tile'[u], u)
    {
      assert InBlock(hdr, tile[u], u);
    }
  }

  ghost function SplitTile(tile: map<nat, nat>, p: nat, q: nat): map<nat, nat> {
    map u | u in tile :: if tile[u] == p && q <= u then q else tile[u]
  }

  lemma SplitSorted(hdr: Mem, fl: seq<nat>, i: nat, n: nat)
    requires Sorted(hdr, fl) && 1 <= i < |fl| && 1 <= n < hdr[fl[i]].size
    ensures forall k :: 0 <= k < |fl| ==> fl[k] != fl[i] + hdr[fl[i]].size - n
    ensures Sorted(Split(hdr, fl[i], n), fl)
  {
    var hdr' := Split(hdr, fl[i], n);
    Ascending(hdr, fl);
    forall k | 0 <= k < |fl|
      ensures fl[k] != fl[i] + hdr[fl[i]].size - n
    {
      if k > i { assert End(hdr, fl[i]) <= fl[k]; }
    }
    forall k | 0 <= k < |fl|
      ensures fl[k] in hdr' && hdr'[fl[k]].size == if k == i then hdr[fl[k]].size - n else hdr[fl[k]].size
    {
    }
  }

  lemma SplitLinked(hdr: Mem, fl: seq<nat>, i: nat, n: nat)
    requires Sorted(hdr, fl) && Linked(hdr, fl) && 1 <= i < |fl| && 1 <= n < hdr[fl[i]].size
    requires forall k :: 0 <= k < |fl| ==> fl[k] != fl[i] + hdr[fl[i]].size - n
    ensures (forall k :: 0 <= k < |fl| ==> fl[k] in Split(hdr, fl[i], n)) && Linked(Split(hdr, fl[i], n), fl)
  {
    var hdr' := Split(hdr, fl[i], n);
    forall k: nat | k < |fl|
      ensures fl[k] in hdr' && hdr'[fl[k]].ptr == Next(fl, k)
    {
      assert hdr[fl[k]].ptr == Next(fl, k);
    }
  }

  lemma NoTile(hdr: Mem, bs: set<nat>, tile: map<nat, nat>, q: nat)
    requires Tiled(hdr, bs, tile) && q !in bs
    ensures forall u :: u in tile ==> tile[u] != q
  {
  }

  lemma SplitUnits(free: set<nat>, tile: map<nat, nat>, p: nat, q: nat)
    requires p in free && q !in free && forall u :: u in tile ==> tile[u] != q
    ensures var tile' := SplitTile(tile, p, q);
            && Units(free, tile') + Units({q}, tile') == Units(free, tile)
            && Units(free, tile') !! Units({q}, tile')
  {
  }

  lemma TakeTail(hdr: Mem, fl: seq<nat>, live: set<nat>, tile: map<nat, nat>, i: nat, n: nat)
    requires Inv(hdr, fl, live, tile) && Apart(hdr, Blocks(fl)) && 1 <= i < |fl| && fl[i] in hdr && 1 <= n < hdr[fl[i]].size
    ensures var q := fl[i] + hdr[fl[i]].size - n;
            var hdr' := Split(hdr, fl[i], n);
            var tile' := SplitTile(tile, fl[i], q);
            && q !in live && Inv(hdr', fl, live + {q}, tile') && Apart(hdr', Blocks(fl))
            && tile'.Keys == tile.Keys
            && Units(Blocks(fl), tile') + Units({q}, tile') == Units(Blocks(fl), tile)
            && Units(Blocks(fl), tile') !! Units({q}, tile')
            && hdr'[q].size == n && forall a :: a in live ==> a in hdr && hdr'[a] == hdr[a]
  {
    hide Tiled;
    var p := fl[i];
    var q := p + hdr[p].size - n;
    var hdr' := Split(hdr, p, n);
    assert p in Blocks(fl);
    InvShape(hdr, fl, live, tile);
    SplitSorted(hdr, fl, i, n);
    SplitLinked(hdr, fl, i, n);
    SplitTiled(hdr, Blocks(fl) + live, tile, p, n);
    NoTile(hdr, Blocks(fl) + live, tile, q);
    hide Sorted, Linked, Units, SplitTile;
    SplitUnits(Blocks(fl), tile, p, q);
    assert Blocks(fl) + (live + {q}) == Blocks(fl) + live + {q};
    forall b, c | b in Blocks(fl) && c in Blocks(fl)
      ensures End(hdr', b) != c
    {
      assert b == p ==> End(hdr', b) == q;
    }
  }

  // ---- the allocator

  /** Index of `a` in the list. */
  ghost function IndexOf(fl: seq<nat>, a: nat): (i: nat)
    requires a in fl
    ensures i < |fl| && fl[i] == a
  {
    if fl[0] == a then 0 else 1 + IndexOf(fl[1..], a)
  }

  /** Where block `b` belongs. */
  ghost function PlaceFor(hdr: Mem, fl: seq<nat>, b: nat, i: nat): (r: nat)
    requires Sorted(hdr, fl) && i < |fl| && fl[i] < b
    ensures Fits(hdr, fl, b, r) || (r < |fl| && b in fl)
    decreases |fl| - i
  {
    if i + 1 < |fl| && fl[i + 1] < b then PlaceFor(hdr, fl, b, i + 1) else i
  }

  /** The search loop of `free` stops at `p` exactly when `p` is the place. */
  lemma StopsAtPlace(hdr: Mem, fl: seq<nat>, live: set<nat>, tile: map<nat, nat>, b: nat, j: nat)
    requires Inv(hdr, fl, live, tile) && b in live && j < |fl|
    ensures var p, q := fl[j], Next(fl, j);
            ((b > p && b < q) || (p >= q && (b > p || b < q))) <==> Fits(hdr, fl, b, j)
  {
    Ascending(hdr, fl);
    assert b !in Blocks(fl);
    assert forall k :: 1 <= k < |fl| ==> fl[k] in Blocks(fl);
  }

  lemma PlaceBefore(hdr: Mem, fl: seq<nat>, live: set<nat>, tile: map<nat, nat>, b: nat, j: nat)
    requires Inv(hdr, fl, live, tile) && Fits(hdr, fl, b, j)
    ensures fl[j] < b && forall c :: c in fl ==> c <= fl[j] || b < c
  {
    Ascending(hdr, fl);
    forall c | c in fl
      ensures c <= fl[j] || b < c
    {
      var k :| 0 <= k < |fl| && fl[k] == c;
      if k > j { assert fl[j + 1] <= fl[k]; }
    }
  }

  class Heap {
    var hdr: Mem
    var freep: nat                 // 0 before the first call
    ghost var fl: seq<nat>
    ghost var live: set<nat>       // headers of the blocks handed out
    ghost var tile: map<nat, nat>
    var brk: nat                   // the kernel's end of memory: all units obtained lie below

    ghost predicate Valid()
      reads this
    {
      && BASE < brk && (forall u :: u in tile ==> u < brk)
      && if freep == 0 then fl == [] && live == {} && tile == map[]
         else Inv(hdr, fl, live, tile) && Apart(hdr, Blocks(fl)) && freep in fl
    }

    /** Units in free blocks, and in all blocks. */
    ghost function FreeSet(): set<nat>
      reads this
    {
      Units(Blocks(fl), tile)
    }

    constructor (start: nat)
      requires BASE < start
      ensures Valid() && live == {} && tile == map[] && brk == start
    {
      hdr, freep := map[], 0;
      fl, live, tile, brk := [], {}, map[], start;
    }

    /** Walks the circle from `freep` to the free block that `bp` comes after. */
    method FindPlace(bp: nat) returns (p: nat, ghost j: nat)
      requires Valid() && bp in live
      ensures j < |fl| && p == fl[j] && Inv(hdr, fl, live, tile) && Fits(hdr, fl, bp, j)
    {
      hide Sorted, Linked, Tiled, Apart, Fits;
      InvShape(hdr, fl, live, tile);
      p := freep;
      j := IndexOf(fl, freep);
      ghost var t := PlaceFor(hdr, fl, bp, 0);
      PlaceFits(hdr, fl, live, tile, bp);
      while !(bp > p && bp < hdr[p].ptr)
        invariant j < |fl| && p == fl[j]
        decreases if j <= t then t - j else |fl| + t - j
      {
        LinkAt(hdr, fl, live, tile, j);
        StopsAtPlace(hdr, fl, live, tile, bp, j);
        if p >= hdr[p].ptr && (bp > p || bp < hdr[p].ptr) { break; }
        p := hdr[p].ptr;
        j := if j + 1 < |fl| then j + 1 else 0;
      }
      LinkAt(hdr, fl, live, tile, j);
      StopsAtPlace(hdr, fl, live, tile, bp, j);
    }

    /** Gives block `bp` back. */
    method Free(bp: nat)
      requires Valid() && bp in live
      modifies this
      ensures Valid() && freep != 0 && brk == old(brk)
      ensures live == old(live) - {bp} && tile.Keys == old(tile).Keys
      ensures FreeSet() == old(FreeSet()) + Units({bp}, old(tile))
      ensures forall a :: a in live ==> a in hdr && a in old(hdr) && hdr[a] == old(hdr)[a]
      ensures (forall b :: b in Blocks(fl) ==> b in hdr) && bp in old(hdr) && Reaches(hdr, Blocks(fl), old(hdr)[bp].size)
      ensures freep < bp && forall b :: b in old(fl) ==> b <= freep || bp < b
    {
      hide Sorted, Linked, Tiled, Apart, Fits, Reaches;
      InvShape(hdr, fl, live, tile);
      var p;
      ghost var j;
      p, j := FindPlace(bp);
      PlaceBefore(hdr, fl, live, tile, bp, j);
      ghost var fl', tile' := FreeKeeps(hdr, fl, live, tile, bp, j);
      ghost var hdr0 := hdr;
      var next := hdr[p].ptr;
      if bp + hdr[bp].size == next {
        hdr := hdr[bp := Header(hdr[next].ptr, hdr[bp].size + hdr[next].size)];
      } else {
        hdr := hdr[bp := Header(next, hdr[bp].size)];
      }
      if p + hdr[p].size == bp {
        hdr := hdr[p := Header(hdr[bp].ptr, hdr[p].size + hdr[bp].size)];
      } else {
        hdr := hdr[p := Header(bp, hdr[p].size)];
      }
      assert hdr == Freed(hdr0, p, bp);
      freep := p;
      fl, live, tile := fl', live - {bp}, tile';
      InvShape(hdr, fl, live, tile);
      assert freep != 0 by { ListNonzero(hdr, fl, live, tile, freep); }
    }

    /** Fresh memory at `grant` (0: sbrk refused) joins the free list. */
    method Morecore(nu: nat, grant: nat) returns (p: nat)
      requires Valid() && freep != 0 && (grant == 0 || brk <= grant)
      modifies this
      ensures Valid() && freep != 0 && live == old(live)
      ensures (p == 0 <==> grant == 0) && (p != 0 ==> p == freep)
      ensures p == 0 ==> hdr == old(hdr) && fl == old(fl) && tile == old(tile) && freep == old(freep) && brk == old(brk)
      ensures p != 0 ==>
                && tile.Keys == old(tile).Keys + Range(grant, Core(nu)) && brk == grant + (if nu < 4096 then 4096 else nu)
                && FreeSet() == old(FreeSet()) + Range(grant, Core(nu))
                && (forall b :: b in Blocks(fl) ==> b in hdr) && Reaches(hdr, Blocks(fl), nu)
      ensures forall a :: a in live ==> a in hdr && a in old(hdr) && hdr[a] == old(hdr)[a]
    {
      hide Inv, Apart, Reaches, Blocks, Units;
      InvShape(hdr, fl, live, tile);
      var n := if nu < MINCORE then MINCORE else nu;
      if grant == 0 { return 0; }
      GrowInv(hdr, fl, live, tile, brk, grant, n);
      hdr := hdr[grant := Header(if grant in hdr then hdr[grant].ptr else 0, n)];
      live := live + {grant};
      tile := tile + map u | u in Range(grant, n) :: grant;
      brk := grant + n;
      Free(grant);
      assert live == old(live);
      ReachesLess(hdr, Blocks(fl), n, nu);
      p := freep;
    }

    /** Hands out a block for `nbytes` bytes and returns the address after its
        header, or 0 when no block is big enough and sbrk refuses: the end of the first
        block that is big enough, going round from `freep`. sbrk is asked at most once, and
        only if there is none; `grant` is the memory it gives, if it gives what is asked
        for: HeapGrant says when it can. */
    method Malloc(nbytes: nat, grant: nat) returns (r: nat)
      requires Valid() && nbytes < U32 && (grant == 0 || (brk <= grant && nbytes <= MOSTBYTES))
      modifies this
      ensures Valid()
      ensures r == 0 ==> grant == 0 && live == old(live) && tile.Keys == old(tile).Keys && FreeSet() == old(FreeSet())
      ensures r != 0 ==>
                && r - 1 !in old(live) && live == old(live) + {r - 1}
                && r - 1 in hdr && hdr[r - 1].size == UnitsFor(nbytes) && 16 * (hdr[r - 1].size - 2) < nbytes <= 16 * (hdr[r - 1].size - 1)
                && (tile.Keys == old(tile).Keys || (grant != 0 && tile.Keys == old(tile).Keys + Range(grant, Core(UnitsFor(nbytes)))))
                && FreeSet() + Units({r - 1}, tile) == old(FreeSet()) + (tile.Keys - old(tile).Keys)
                && FreeSet() !! Units({r - 1}, tile)
      ensures forall a :: a in old(live) ==> a in hdr && a in old(hdr) && hdr[a] == old(hdr)[a]
      ensures r == 0 || tile.Keys != old(tile).Keys ==>
                forall b :: b in old(Blocks(fl)) ==> b in old(hdr) && 16 * (old(hdr)[b].size - 1) < nbytes
      ensures r != 0 && tile.Keys == old(tile).Keys ==>
                exists f: nat, k: nat ::
                  && NextFit(old(hdr), old(fl), (nbytes + 15) / 16 + 1, f, k) && old(fl)[f] == old(freep)
                  && r - 1 == End(old(hdr), old(fl)[k]) - ((nbytes + 15) / 16 + 1)
    {
      hide Inv, Apart, Reaches, Blocks, Units, Seen, NextFit;
      var n := (nbytes + 15) / 16 + 1;
      if freep == 0 {
        FirstList(hdr);
        hdr, freep := hdr[BASE := Header(BASE, 0)], BASE;
        fl := [BASE];
        NoFit(hdr, n);
      }
      assert FreeSet() == old(FreeSet()) by { EmptyUnits(old(fl), fl); }
      ghost var hdr1, fl1 := hdr, fl;
      r := Search(n, grant);
      if r == 0 || tile.Keys != old(tile).Keys { AllSmall(hdr1, fl1, nbytes); }
    }

    /** The loop of malloc. */
    method Search(n: nat, grant: nat) returns (r: nat)
      requires Valid() && freep != 0 && 1 <= n && (grant == 0 || brk <= grant)
      modifies this
      ensures Valid()
      ensures r == 0 ==> grant == 0 && live == old(live) && tile == old(tile) && FreeSet() == old(FreeSet())
      ensures r != 0 ==>
                && r - 1 !in old(live) && live == old(live) + {r - 1} && r - 1 in hdr && hdr[r - 1].size == n
                && (tile.Keys == old(tile).Keys || (grant != 0 && tile.Keys == old(tile).Keys + Range(grant, Core(n))))
                && FreeSet() + Units({r - 1}, tile) == old(FreeSet()) + (tile.Keys - old(tile).Keys)
                && FreeSet() !! Units({r - 1}, tile)
      ensures forall a :: a in old(live) ==> a in hdr && a in old(hdr) && hdr[a] == old(hdr)[a]
      ensures r == 0 || tile.Keys != old(tile).Keys ==>
                (forall b :: b in old(Blocks(fl)) ==> b in old(hdr)) && !Reaches(old(hdr), old(Blocks(fl)), n)
      ensures r != 0 && tile.Keys == old(tile).Keys ==>
                exists f: nat, k: nat ::
                  NextFit(old(hdr), old(fl), n, f, k) && old(fl)[f] == old(freep) && r - 1 == End(old(hdr), old(fl)[k]) - n
    {
      hide Inv, Apart, Reaches, Blocks, Units, Seen, NextFit;
      InvShape(hdr, fl, live, tile);
      var prevp := freep;
      ghost var f: nat := IndexOf(fl, freep);
      ghost var i: nat := f;
      NothingSeen(hdr, fl, n, f);
      ghost var grown := false;
      while true
        invariant Valid() && freep != 0 && live == old(live)
        invariant f < |fl| && fl[f] == freep && i < |fl| && fl[i] == prevp
        invariant Seen(hdr, fl, n, f, i)
        invariant !grown ==> tile == old(tile) && hdr == old(hdr) && fl == old(fl) && freep == old(freep) && (grant == 0 || brk <= grant)
        invariant grown ==> grant != 0 && grant !in old(tile)
        invariant grown ==> tile.Keys == old(tile).Keys + Range(grant, Core(n)) && FreeSet() == old(FreeSet()) + Range(grant, Core(n))
        invariant grown ==> (forall b :: b in old(Blocks(fl)) ==> b in old(hdr)) && !Reaches(old(hdr), old(Blocks(fl)), n)
        invariant grown ==> (forall b :: b in Blocks(fl) ==> b in hdr) && Reaches(hdr, Blocks(fl), n)
        invariant forall a :: a in live ==> a in hdr && a in old(hdr) && hdr[a] == old(hdr)[a]
        decreases !grown, if i < f then f - i else |fl| - i + f
      {
        LinkAt(hdr, fl, live, tile, i);
        InvShape(hdr, fl, live, tile);
        var p := hdr[prevp].ptr;
        ghost var j: nat := if i + 1 < |fl| then i + 1 else 0;
        if hdr[p].size >= n {
          ListNonzero(hdr, fl, live, tile, prevp);
          FoundNext(hdr, fl, n, f, i, j);
          r := Take(p, prevp, j, n);
          return;
        }
        if p == freep {
          SeenAll(hdr, fl, live, tile, n, f, i);
          var q := Morecore(n, grant);
          if q == 0 { return 0; }
          grown := true;
          f := IndexOf(fl, freep);
          i := f;
          NothingSeen(hdr, fl, n, f);
          prevp := q;
        } else {
          SeenMore(hdr, fl, live, tile, n, f, i);
          i := j;
          prevp := p;
        }
      }
    }

    /** Takes `n` units from free block `p`, which follows `prevp`: all of it, or its tail. */
    method Take(p: nat, prevp: nat, ghost j: nat, n: nat) returns (r: nat)
      requires Valid() && freep != 0 && 1 <= j < |fl| && p == fl[j] && prevp == fl[j - 1]
      requires p in hdr && prevp in hdr && 1 <= n <= hdr[p].size
      modifies this
      ensures Valid() && freep != 0 && brk == old(brk) && tile.Keys == old(tile).Keys
      ensures r != 0 && r - 1 !in old(live) && live == old(live) + {r - 1}
      ensures r - 1 in hdr && hdr[r - 1].size == n && r - 1 == old(End(hdr, p)) - n
      ensures FreeSet() + Units({r - 1}, tile) == old(FreeSet()) && FreeSet() !! Units({r - 1}, tile)
      ensures forall a :: a in old(live) ==> a in hdr && a in old(hdr) && hdr[a] == old(hdr)[a]
    {
      hide Inv, Apart, Blocks, Units;
      InvShape(hdr, fl, live, tile);
      ListNonzero(hdr, fl, live, tile, prevp);
      if hdr[p].size == n {
        TakeWhole(hdr, fl, live, tile, j);
        hdr := hdr[prevp := Header(hdr[p].ptr, hdr[prevp].size)];
        fl, live := fl[..j] + fl[j + 1..], live + {p};
        r := p + 1;
      } else {
        TakeTail(hdr, fl, live, tile, j, n);
        var q := p + hdr[p].size - n;
        hdr := Split(hdr, p, n);
        live, tile := live + {q}, SplitTile(tile, p, q);
        r := q + 1;
      }
      freep := prevp;
    }
  }

  /** Going round from index `f`, the blocks after it up to index `i` are too small. */
  ghost predicate Seen(hdr: Mem, fl: seq<nat>, n: nat, f: nat, i: nat) {
    forall k :: 0 <= k < |fl| && (if f <= i then f < k <= i else f < k || k <= i) ==>
      fl[k] in hdr && hdr[fl[k]].size < n
  }

  /** Going round from index `f`, block `k` is the first with `n` units. */
  ghost predicate NextFit(hdr: Mem, fl: seq<nat>, n: nat, f: nat, k: nat) {
    && f < |fl| && k < |fl| && fl[k] in hdr && hdr[fl[k]].size >= n
    && forall m :: 0 <= m < |fl| && (if f < k then f < m < k else f < m || m < k) ==> fl[m] in hdr && hdr[fl[m]].size < n
  }

  lemma AllSmall(hdr: Mem, fl: seq<nat>, nbytes: nat)
    requires (forall b :: b in Blocks(fl) ==> b in hdr) && !Reaches(hdr, Blocks(fl), (nbytes + 15) / 16 + 1)
    ensures forall b :: b in Blocks(fl) ==> b in hdr && 16 * (hdr[b].size - 1) < nbytes
  {
    hide Blocks;
    forall b | b in Blocks(fl)
      ensures 16 * (hdr[b].size - 1) < nbytes
    {
      assert hdr[b].size < (nbytes + 15) / 16 + 1;
    }
  }

  lemma FoundNext(hdr: Mem, fl: seq<nat>, n: nat, f: nat, i: nat, k: nat)
    requires f < |fl| && i < |fl| && Seen(hdr, fl, n, f, i) && k == (if i + 1 < |fl| then i + 1 else 0)
    requires fl[k] in hdr && hdr[fl[k]].size >= n
    ensures NextFit(hdr, fl, n, f, k)
  {
  }

  lemma NothingSeen(hdr: Mem, fl: seq<nat>, n: nat, f: nat)
    ensures Seen(hdr, fl, n, f, f)
  {
  }

  lemma SeenMore(hdr: Mem, fl: seq<nat>, live: set<nat>, tile: map<nat, nat>, n: nat, f: nat, i: nat)
    requires Inv(hdr, fl, live, tile) && f < |fl| && i < |fl| && Seen(hdr, fl, n, f, i)
    requires Next(fl, i) in hdr && hdr[Next(fl, i)].size < n && Next(fl, i) != fl[f]
    ensures Seen(hdr, fl, n, f, if i + 1 < |fl| then i + 1 else 0)
  {
  }

  /** Back at the start, every free block was too small. */
  lemma SeenAll(hdr: Mem, fl: seq<nat>, live: set<nat>, tile: map<nat, nat>, n: nat, f: nat, i: nat)
    requires Inv(hdr, fl, live, tile) && f < |fl| && i < |fl| && Seen(hdr, fl, n, f, i)
    requires Next(fl, i) in hdr && hdr[Next(fl, i)].size < n && Next(fl, i) == fl[f]
    ensures (forall b :: b in Blocks(fl) ==> b in hdr) && !Reaches(hdr, Blocks(fl), n)
  {
    Ascending(hdr, fl);
  }

  lemma FirstList(hdr: Mem)
    ensures Inv(hdr[BASE := Header(BASE, 0)], [BASE], {}, map[]) && Blocks([BASE]) == {}
    ensures Apart(hdr[BASE := Header(BASE, 0)], Blocks([BASE]))
  {
  }

  /** The list of the static header alone. */
  lemma NoFit(hdr: Mem, n: nat)
    requires BASE in hdr && hdr[BASE].size < n
    ensures Blocks([]) == Blocks([BASE]) == {} && forall f: nat, k: nat :: !NextFit(hdr, [BASE], n, f, k)
  {
  }

  lemma EmptyUnits(fl: seq<nat>, fl': seq<nat>)
    ensures Units(Blocks(fl), map[]) == Units(Blocks(fl'), map[])
  {
  }

  /** Header units for a request: the payload rounded up, plus the header. */
  /** The largest request whose size in bytes, header included, is an `int`. */
  const MOSTBYTES: nat := 0x7fff_ffe0

  function UnitsFor(nbytes: nat): nat {
    (nbytes + 15) / 16 + 1
  }

  function Core(nu: nat): nat {
    if nu < MINCORE then MINCORE else nu
  }

  predicate Within(u: nat, a: nat, n: nat) {
    a <= u < a + n
  }

  ghost function Range(a: nat, n: nat): set<nat> {
    set u: nat | a <= u < a + n && Within(u, a, n)
  }

  lemma SameList(hdr: Mem, hdr': Mem, fl: seq<nat>)
    requires Sorted(hdr, fl) && Linked(hdr, fl)
    requires forall k :: 0 <= k < |fl| ==> fl[k] in hdr' && hdr'[fl[k]] == hdr[fl[k]]
    ensures Sorted(hdr', fl) && Linked(hdr', fl)
  {
  }

  lemma TileBelow(hdr: Mem, bs: set<nat>, tile: map<nat, nat>, brk: nat)
    requires Tiled(hdr, bs, tile) && forall u :: u in tile ==> u < brk
    ensures forall c :: c in bs ==> c in hdr && c < brk && End(hdr, c) <= brk
  {
    forall c | c in bs
      ensures c < brk && End(hdr, c) <= brk
    {
      assert InBlock(hdr, c, End(hdr, c) - 1);
    }
  }

  lemma ReachesLess(hdr: Mem, free: set<nat>, n: nat, m: nat)
    requires (forall b :: b in free ==> b in hdr) && Reaches(hdr, free, n) && m <= n
    ensures Reaches(hdr, free, m)
  {
  }

  /** A block above everything else can be added as a live one. */
  lemma GrowInv(hdr: Mem, fl: seq<nat>, live: set<nat>, tile: map<nat, nat>, brk: nat, b: nat, n: nat)
    requires Inv(hdr, fl, live, tile) && Apart(hdr, Blocks(fl)) && (forall u :: u in tile ==> u < brk) && BASE < brk <= b && 1 <= n
    ensures var hdr' := hdr[b := Header(if b in hdr then hdr[b].ptr else 0, n)];
            var tile' := tile + map u | u in Range(b, n) :: b;
            && b !in live && b !in fl
            && Inv(hdr', fl, live + {b}, tile') && Apart(hdr', Blocks(fl))
            && Units(Blocks(fl), tile') == Units(Blocks(fl), tile) && Units({b}, tile') == Range(b, n)
  {
    hide Sorted, Linked, Tiled;
    var hdr' := hdr[b := Header(if b in hdr then hdr[b].ptr else 0, n)];
    var bs := Blocks(fl) + live;
    InvShape(hdr, fl, live, tile);
    TileBelow(hdr, bs, tile, brk);
    forall k | 0 <= k < |fl|
      ensures fl[k] != b
    {
      assert 1 <= k ==> fl[k] in Blocks(fl);
    }
    SameList(hdr, hdr', fl);
    assert Blocks(fl) + (live + {b}) == bs + {b};
    GrowTiled(hdr, bs, tile, b, n);
    GrowUnits(hdr, fl, live, tile, brk, b, n);
  }

  lemma GrowUnits(hdr: Mem, fl: seq<nat>, live: set<nat>, tile: map<nat, nat>, brk: nat, b: nat, n: nat)
    requires Inv(hdr, fl, live, tile) && (forall u :: u in tile ==> u < brk) && BASE < brk <= b && 1 <= n
    requires b !in Blocks(fl) + live
    ensures var tile' := tile + map u | u in Range(b, n) :: b;
            Units(Blocks(fl), tile') == Units(Blocks(fl), tile) && Units({b}, tile') == Range(b, n)
  {
    hide Sorted, Linked;
  }

  lemma GrowTiled(hdr: Mem, bs: set<nat>, tile: map<nat, nat>, b: nat, n: nat)
    requires Tiled(hdr, bs, tile) && BASE < b && 1 <= n
    requires forall c :: c in bs ==> c in hdr && c < b && End(hdr, c) <= b
    ensures Tiled(hdr[b := Header(if b in hdr then hdr[b].ptr else 0, n)], bs + {b}, tile + map u | u in Range(b, n) :: b)
  {
    var hdr' := hdr[b := Header(if b in hdr then hdr[b].ptr else 0, n)];
    var tile' := tile + map u | u in Range(b, n) :: b;
    forall d: nat, u: nat | d in bs + {b}
      ensures InBlock(hdr', d, u) <==> if d == b then u in Range(b, n) else InBlock(hdr, d, u)
    {
    }
    forall u | u in tile'
      ensures tile'[u] in bs + {b} && InBlock(hdr', tile'[u], u)
    {
      assert u in tile ==> InBlock(hdr, tile[u], u);
    }
  }

  lemma ListNonzero(hdr: Mem, fl: seq<nat>, live: set<nat>, tile: map<nat, nat>, p: nat)
    requires Inv(hdr, fl, live, tile) && p in fl
    ensures p != 0
  {
    var i := IndexOf(fl, p);
  }

  lemma PlaceFits(hdr: Mem, fl: seq<nat>, live: set<nat>, tile: map<nat, nat>, b: nat)
    requires Inv(hdr, fl, live, tile) && b in live
    ensures Fits(hdr, fl, b, PlaceFor(hdr, fl, b, 0))
  {
    assert b !in Blocks(fl);
    assert forall k :: 1 <= k < |fl| ==> fl[k] in Blocks(fl);
  }

  // ---- what the invariant means, and runs

  ghost function SizeSum(hdr: Mem, bs: set<nat>): nat
    requires forall b :: b in bs ==> b in hdr
  {
    if bs == {} then 0 else var b :| b in bs; hdr[b].size + SizeSum(hdr, bs - {b})
  }

  lemma RangeSize(a: nat, n: nat)
    ensures |Range(a, n)| == n
  {
    if n > 0 {
      RangeSize(a, n - 1);
      assert Range(a, n) == Range(a, n - 1) + {a + n - 1};
    } else {
      assert Range(a, n) == {};
    }
  }

  lemma {:induction false} UnitsCount(hdr: Mem, all: set<nat>, tile: map<nat, nat>, bs: set<nat>)
    requires Tiled(hdr, all, tile) && bs <= all
    ensures |Units(bs, tile)| == SizeSum(hdr, bs)
  {
    if bs == {} {
      assert Units(bs, tile) == {};
    } else {
      var b :| b in bs && SizeSum(hdr, bs) == hdr[b].size + SizeSum(hdr, bs - {b});
      UnitsCount(hdr, all, tile, bs - {b});
      forall u: nat
        ensures u in Units({b}, tile) <==> u in Range(b, hdr[b].size)
      {
        assert InBlock(hdr, b, u) <==> Within(u, b, hdr[b].size);
      }
      assert Units({b}, tile) == Range(b, hdr[b].size);
      RangeSize(b, hdr[b].size);
      assert Units(bs, tile) == Units({b}, tile) + Units(bs - {b}, tile);
    }
  }

  /** The free list is circular and in address order, and no two free blocks touch. */
  lemma FreeListMeans(hdr: Mem, fl: seq<nat>, live: set<nat>, tile: map<nat, nat>, i: nat)
    requires Inv(hdr, fl, live, tile) && Apart(hdr, Blocks(fl)) && i < |fl|
    ensures fl[i] in hdr && hdr[fl[i]].ptr == Next(fl, i)
    ensures i + 1 < |fl| ==> End(hdr, fl[i]) < Next(fl, i)
    ensures i + 1 == |fl| ==> Next(fl, i) == BASE
  {
    assert 0 < i ==> fl[i] in Blocks(fl);
    assert i + 1 < |fl| ==> fl[i + 1] in Blocks(fl);
  }

  /** Blocks, free or live, never overlap; free plus live units are exactly the units obtained. */
  lemma Conserved(hdr: Mem, fl: seq<nat>, live: set<nat>, tile: map<nat, nat>)
    requires Inv(hdr, fl, live, tile)
    ensures forall b, c :: b in Blocks(fl) + live && c in Blocks(fl) + live && b < c ==> b in hdr && End(hdr, b) <= c
    ensures (forall b :: b in Blocks(fl) + live ==> b in hdr) && |tile| == SizeSum(hdr, Blocks(fl)) + SizeSum(hdr, live)
  {
    hide Sorted, Linked, SizeSum, Units;
    var bs := Blocks(fl) + live;
    InvShape(hdr, fl, live, tile);
    forall b, c | b in bs && c in bs && b < c
      ensures End(hdr, b) <= c
    {
      Disjoint(hdr, bs, tile, b, c);
    }
    UnitsAdd(hdr, Blocks(fl), live, tile);
  }

  lemma UnitsAdd(hdr: Mem, a: set<nat>, b: set<nat>, tile: map<nat, nat>)
    requires Tiled(hdr, a + b, tile) && a !! b
    ensures (forall x :: x in a + b ==> x in hdr) && |tile| == SizeSum(hdr, a) + SizeSum(hdr, b)
  {
    UnitsCount(hdr, a + b, tile, a);
    UnitsCount(hdr, a + b, tile, b);
    hide SizeSum;
    assert tile.Keys == Units(a, tile) + Units(b, tile);
    assert Units(a, tile) !! Units(b, tile);
    assert |tile| == |tile.Keys|;
  }

  /** A client: allocate, with sbrk refusing or granting memory `gap` above the
      break, or release a pointer it holds (others are never passed to free). */
  datatype Call = Alloc(nbytes: nat, granted: bool, gap: nat) | Release(ptr: nat)

  /** The headers behind a set of pointers. */
  ghost function Headers(held: set<nat>): set<nat> {
    set x | x in held && x != 0 :: x - 1
  }

  lemma HeadersOf(held: set<nat>, r: nat)
    requires r != 0
    ensures Headers(held + {r}) == Headers(held) + {r - 1}
    ensures Headers(held - {r}) == Headers(held) - {r - 1}
    ensures r in held <==> r - 1 in Headers(held)
  {
    forall x: nat
      ensures x in Headers(held + {r}) <==> x in Headers(held) || x == r - 1
      ensures x in Headers(held - {r}) <==> x in Headers(held) && x != r - 1
    {
      assert x in Headers(held + {r}) <==> x + 1 in held + {r};
      assert x in Headers(held - {r}) <==> x + 1 in held - {r};
      assert x in Headers(held) <==> x + 1 in held;
    }
    assert r - 1 in Headers(held) <==> r in held;
  }

  /** Every sequence of calls keeps the heap valid; the blocks out are those held. */
  method Run(h: Heap, calls: seq<Call>) returns (held: set<nat>)
    requires h.Valid() && h.live == {}
    requires forall t :: 0 <= t < |calls| && calls[t].Alloc? ==> calls[t].nbytes < U32 && (calls[t].granted ==> calls[t].nbytes <= MOSTBYTES)
    modifies h
    ensures h.Valid() && 0 !in held && h.live == Headers(held)
  {
    hide Inv, Apart, Blocks, Units, Reaches;
    held := {};
    for t := 0 to |calls|
      invariant h.Valid() && 0 !in held && h.live == Headers(held)
    {
      hide Headers;
      match calls[t] {
        case Alloc(nbytes, granted, gap) =>
          var r := h.Malloc(nbytes, if granted then h.brk + gap else 0);
          if r != 0 {
            HeadersOf(held, r);
            held := held + {r};
          }
        case Release(ptr) =>
          if ptr in held {
            HeadersOf(held, ptr);
            h.Free(ptr - 1);
            held := held - {ptr};
          }
      }
    }
  }
}
