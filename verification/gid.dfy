/**
 * `Map::get_tileset_by_gid`: the tileset owning a global tile id is the one
 * with the largest `first_gid` not above it. The scan compares through
 * `first_gid as i32` against a running maximum that starts at -1, so a
 * tileset whose `first_gid` is 2^31 or more (negative as an `i32`) is never
 * chosen, and with a strict `>` the earliest of equal candidates is kept.
 */
module GidResolution {
  import opened Wrappers
  import opened Decimal
  import opened Maps

  /** `n as i32` for a `u32` `n`: the same bits read as two's complement. */
  function AsI32(n: u32): (r: int)
    ensures -0x8000_0000 <= r < 0x8000_0000
    ensures (r - n) % U32_LIMIT == 0
  {
    if n < 0x8000_0000 then n else n - U32_LIMIT
  }

  /** A tileset the scan can select for `gid`. */
  predicate Qualifies(t: Tileset, gid: u32) {
    t.firstGid < 0x8000_0000 && t.firstGid <= gid
  }

  /**
   * The reference answer, stated as a position in `tilesets`: `None` when
   * nothing qualifies, otherwise a qualifying tileset with the largest
   * `firstGid` and no qualifying tileset before it with the same `firstGid`.
   */
  ghost predicate IsResolution(tilesets: seq<Tileset>, gid: u32, r: Option<nat>) {
    match r
    case None => forall i :: 0 <= i < |tilesets| ==> !Qualifies(tilesets[i], gid)
    case Some(k) =>
      && k < |tilesets|
      && Qualifies(tilesets[k], gid)
      && (forall i :: 0 <= i < |tilesets| && Qualifies(tilesets[i], gid) ==>
            tilesets[i].firstGid <= tilesets[k].firstGid)
      && (forall i :: 0 <= i < k && Qualifies(tilesets[i], gid) ==>
            tilesets[i].firstGid < tilesets[k].firstGid)
  }

  /** The `for` loop of the source from position `i`, with `maximum_gid` and `maximum_ts` as accumulators. */
  function Scan(tilesets: seq<Tileset>, gid: u32, i: nat, maximumGid: int, best: Option<nat>): Option<nat>
    requires i <= |tilesets|
    decreases |tilesets| - i
  {
    if i == |tilesets| then best
    else if AsI32(tilesets[i].firstGid) > maximumGid && tilesets[i].firstGid <= gid then
      Scan(tilesets, gid, i + 1, AsI32(tilesets[i].firstGid), Some(i))
    else
      Scan(tilesets, gid, i + 1, maximumGid, best)
  }

  /** What the accumulators say after the first `i` tilesets. */
  ghost predicate ScanInvariant(tilesets: seq<Tileset>, gid: u32, i: nat, maximumGid: int, best: Option<nat>)
    requires i <= |tilesets|
  {
    match best
    case None =>
      maximumGid == -1 && forall j :: 0 <= j < i ==> !Qualifies(tilesets[j], gid)
    case Some(k) =>
      && k < i
      && Qualifies(tilesets[k], gid)
      && maximumGid == tilesets[k].firstGid
      && (forall j :: 0 <= j < i && Qualifies(tilesets[j], gid) ==> tilesets[j].firstGid <= tilesets[k].firstGid)
      && (forall j :: 0 <= j < k && Qualifies(tilesets[j], gid) ==> tilesets[j].firstGid < tilesets[k].firstGid)
  }

  lemma {:induction false} ScanResolves(tilesets: seq<Tileset>, gid: u32, i: nat, maximumGid: int, best: Option<nat>)
    requires i <= |tilesets|
    requires ScanInvariant(tilesets, gid, i, maximumGid, best)
    ensures IsResolution(tilesets, gid, Scan(tilesets, gid, i, maximumGid, best))
    decreases |tilesets| - i
  {
    if i < |tilesets| {
      var t := tilesets[i];
      if AsI32(t.firstGid) > maximumGid && t.firstGid <= gid {
        assert Qualifies(t, gid);
        ScanResolves(tilesets, gid, i + 1, AsI32(t.firstGid), Some(i));
      } else {
        assert Qualifies(t, gid) ==> best.Some? && t.firstGid <= maximumGid;
        ScanResolves(tilesets, gid, i + 1, maximumGid, best);
      }
    }
  }

  /** The position of the tileset `get_tileset_by_gid` returns a reference to. */
  function TilesetIndexByGid(tilesets: seq<Tileset>, gid: u32): (r: Option<nat>)
    ensures IsResolution(tilesets, gid, r)
  {
    ScanResolves(tilesets, gid, 0, -1, None);
    Scan(tilesets, gid, 0, -1, None)
  }

  /** `Map::get_tileset_by_gid`. */
  function GetTilesetByGid(m: Map, gid: u32): (r: Option<Tileset>)
    ensures r.None? <==> forall t :: t in m.tilesets ==> !Qualifies(t, gid)
    ensures r.Some? ==> r.value in m.tilesets && r.value.firstGid <= gid
    ensures r.Some? ==> forall t :: t in m.tilesets && Qualifies(t, gid) ==> t.firstGid <= r.value.firstGid
    ensures r.Some? ==> exists k: nat :: IsResolution(m.tilesets, gid, Some(k)) && r.value == m.tilesets[k]
  {
    match TilesetIndexByGid(m.tilesets, gid)
    case None => None
    case Some(k) => Some(m.tilesets[k])
  }

  /** The reference answer is unique, so it pins down the scan's result. */
  lemma ResolutionIsUnique(tilesets: seq<Tileset>, gid: u32, r1: Option<nat>, r2: Option<nat>)
    requires IsResolution(tilesets, gid, r1) && IsResolution(tilesets, gid, r2)
    ensures r1 == r2
  {
    if r1.Some? && r2.Some? {
      var k1, k2 := r1.value, r2.value;
      assert tilesets[k1].firstGid == tilesets[k2].firstGid;
    }
  }

  /** Among tilesets sharing the winning `firstGid`, the first one in the vector is chosen. */
  lemma {:induction false} EarliestOfEqualFirstGids(tilesets: seq<Tileset>, gid: u32, i: nat, j: nat)
    requires i < j < |tilesets|
    requires tilesets[i].firstGid == tilesets[j].firstGid
    ensures TilesetIndexByGid(tilesets, gid) != Some(j)
  {
  }

  /** A tileset whose `firstGid` reads as negative through `as i32` is never returned. */
  lemma HighFirstGidNeverChosen(tilesets: seq<Tileset>, gid: u32, k: nat)
    requires k < |tilesets| && tilesets[k].firstGid >= 0x8000_0000
    ensures TilesetIndexByGid(tilesets, gid) != Some(k)
  {
  }

  /** With no tilesets every lookup fails. */
  lemma NoTilesetsNoResolution(m: Map, gid: u32)
    requires |m.tilesets| == 0
    ensures GetTilesetByGid(m, gid) == None
  {
  }

  /** Tilesets starting at 1, 50 and 100. */
  lemma ResolutionExample(a: Tileset, b: Tileset, c: Tileset)
    requires a.firstGid == 1 && b.firstGid == 50 && c.firstGid == 100
    ensures TilesetIndexByGid([a, b, c], 49) == Some(0)
    ensures TilesetIndexByGid([a, b, c], 50) == Some(1)
    ensures TilesetIndexByGid([a, b, c], 99) == Some(1)
    ensures TilesetIndexByGid([a, b, c], 100) == Some(2)
    ensures TilesetIndexByGid([a, b, c], 0) == None
  {
    var ts := [a, b, c];
    ResolutionIsUnique(ts, 49, TilesetIndexByGid(ts, 49), Some(0));
    ResolutionIsUnique(ts, 50, TilesetIndexByGid(ts, 50), Some(1));
    ResolutionIsUnique(ts, 99, TilesetIndexByGid(ts, 99), Some(1));
    ResolutionIsUnique(ts, 100, TilesetIndexByGid(ts, 100), Some(2));
    ResolutionIsUnique(ts, 0, TilesetIndexByGid(ts, 0), None);
  }
}
