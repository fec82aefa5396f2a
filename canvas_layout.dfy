/**
 * What the canvas hands to the grid engine (src/components/sheet/Canvas.tsx): the
 * geometry projection of the blocks, each block's stacking tier, and the compaction
 * and collision policy chosen by the store's compact switch.
 */
module CanvasLayout {

  import opened Wrappers
  import opened SheetModel
  import opened SheetStore

  /** `blocks.map(({i, x, y, w, h}) => ({i, x, y, w, h}))`. */
  function Project(bs: seq<Block>): (r: seq<LayoutItem>)
    ensures |r| == |bs|
    ensures forall k :: 0 <= k < |bs| ==> r[k].i == bs[k].i && HasGeometryOf(bs[k], r[k])
  {
    seq(|bs|, k requires 0 <= k < |bs| => LayoutItem(bs[k].i, bs[k].x, bs[k].y, bs[k].w, bs[k].h))
  }

  lemma ProjectKeepsIdsUnique(bs: seq<Block>)
    requires UniqueIds(bs)
    ensures UniqueEntryIds(Project(bs))
  {
  }

  /**
   * If the grid engine hands back the layout it was given, syncing it changes nothing:
   * projection and `UpdateLayout` are inverse when block ids are unique.
   */
  lemma SyncOwnProjection(s: SheetState)
    requires UniqueIds(s.blocks)
    ensures UpdateLayout(s, Project(s.blocks)) == s
  {
    var p := Project(s.blocks);
    var r := UpdateLayout(s, p);
    forall k | 0 <= k < |s.blocks| ensures r.blocks[k] == s.blocks[k] {
      FindEntryUnique(p, p[k]);
    }
    assert r.blocks == s.blocks;
  }

  /** After a sync, the projection shows each block at the geometry of its entry. */
  lemma ProjectAfterSync(s: SheetState, entries: seq<LayoutItem>, k: nat)
    requires k < |s.blocks| && UniqueEntryIds(entries)
    requires exists e :: e in entries && e.i == s.blocks[k].i
    ensures var e :| e in entries && e.i == s.blocks[k].i;
      Project(UpdateLayout(s, entries).blocks)[k] == e
  {
    var e :| e in entries && e.i == s.blocks[k].i;
    FindEntryUnique(entries, e);
  }

  /**
   * The stacking tier: the middle by default, the back for containers or a `back`
   * configuration, and the front for a `front` configuration, even for a container.
   */
  function TierOf(b: Block): (t: Tier)
    ensures t == Front <==> ZIndexOf(b) == Some(Front)
    ensures t == Back <==> ZIndexOf(b) != Some(Front) && (b.kind == Container || ZIndexOf(b) == Some(Back))
    ensures t == Middle <==> ZIndexOf(b) != Some(Front) && b.kind != Container && ZIndexOf(b) != Some(Back)
  {
    var tier := Middle;
    var tier' := if b.kind == Container || ZIndexOf(b) == Some(Back) then Back else tier;
    if ZIndexOf(b) == Some(Front) then Front else tier'
  }

  /**
   * A new block takes the tier it asks for, except that a container goes to the back unless
   * it asks for the front; with none asked for, a container goes to the back and any other
   * block to the middle.
   */
  lemma AddedBlockTier(s: SheetState, freshId: string, kind: BlockType, config: Config)
    ensures var b := AddBlock(s, freshId, kind, config).blocks[|s.blocks|];
      TierOf(b) == match config.zIndex
        case Some(Front) => Front
        case Some(Back) => Back
        case Some(Middle) => if kind == Container then Back else Middle
        case None => if kind == Container then Back else Middle
  {
  }

  datatype Compaction = Vertical

  /** The grid engine's policy: how it compacts and whether it stops blocks from overlapping. */
  datatype GridPolicy = GridPolicy(compactType: Option<Compaction>, preventCollision: bool)

  /** Compact mode compacts vertically and lets blocks push each other; free mode keeps them apart. */
  function PolicyFor(isCompact: bool): (p: GridPolicy)
    ensures p.compactType == Some(Vertical) <==> isCompact
    ensures p.compactType.None? <==> !isCompact
    ensures p.preventCollision <==> !isCompact
  {
    GridPolicy(if isCompact then Some(Vertical) else None, if isCompact then false else true)
  }

  /** Toggling the switch swaps both halves of the policy and touches no geometry. */
  lemma ToggleSwapsPolicy(s: SheetState)
    ensures var p, q := PolicyFor(s.isCompact), PolicyFor(ToggleCompact(s).isCompact);
      q.compactType.Some? == p.preventCollision && q.preventCollision == p.compactType.Some?
    ensures Project(ToggleCompact(s).blocks) == Project(s.blocks)
  {
  }

}
