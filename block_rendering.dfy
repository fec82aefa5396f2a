/**
 * The plain logic inside the block renderer (src/components/sheet/BlockRenderer.tsx): the
 * row editing of list blocks, which writes back through the store's data merge, and the
 * defaulting of a header's level and a shape's kind.
 */
module BlockRendering {

  import opened Wrappers
  import opened SheetModel
  import opened SheetStore

  /** The rows a new list block shows before any edit. */
  const DefaultItems: seq<string> := ["Item 1", "Item 2"]

  /** The rows of a list block: its `items` when they are a list of strings, the two default rows otherwise. */
  function ItemsOf(data: Data): (r: seq<string>)
    ensures "items" in data && data["items"].StrList? ==> r == data["items"].items
    ensures !("items" in data && data["items"].StrList?) ==> r == ["Item 1", "Item 2"]
  {
    if "items" in data && data["items"].StrList? then data["items"].items else DefaultItems
  }

  /** The data patch `{ items: newItems }` every row edit hands to the store (BlockRenderer.tsx:155, 158, 162). */
  function ItemsPatch(items: seq<string>): Data
  {
    map["items" := StrList(items)]
  }

  /** Overwrites row `idx`; the row index always comes from the rendered rows, so it is in range. */
  function UpdateItem(items: seq<string>, idx: nat, v: string): (r: seq<string>)
    requires idx < |items|
    ensures |r| == |items| && r[idx] == v
    ensures forall k :: 0 <= k < |items| && k != idx ==> r[k] == items[k]
  {
    items[idx := v]
  }

  /** Appends one empty row. */
  function AddItem(items: seq<string>): (r: seq<string>)
    ensures |r| == |items| + 1 && r[..|items|] == items && r[|items|] == ""
  {
    items + [""]
  }

  /** `items.filter((_, i) => i !== idx)`: drops the row at position `idx`, if there is one. */
  function RemoveItem(items: seq<string>, idx: int): (r: seq<string>)
    ensures 0 <= idx < |items| ==> r == items[..idx] + items[idx + 1..]
    ensures !(0 <= idx < |items|) ==> r == items
  {
    if items == [] then []
    else
      var rest := RemoveItem(items[1..], idx - 1);
      if idx == 0 then rest
      else
        assert 0 < idx < |items| ==> items[1..][..idx - 1] == items[1..idx];
        assert 0 < idx < |items| ==> items[..idx] == [items[0]] + items[1..idx];
        [items[0]] + rest
  }

  lemma RemoveItemShape(items: seq<string>, idx: int)
    requires 0 <= idx < |items|
    ensures var r := RemoveItem(items, idx);
      && |r| == |items| - 1
      && (forall k :: 0 <= k < idx ==> r[k] == items[k])
      && (forall k :: idx <= k < |r| ==> r[k] == items[k + 1])
  {
  }

  datatype Key = Enter | Backspace | OtherKey

  /**
   * A key press in row `idx`: Enter appends a row; Backspace on an empty row removes it
   * unless it is the only row; anything else changes nothing. `None` means the store is
   * not called.
   */
  function KeyDown(items: seq<string>, key: Key, idx: int): (r: Option<seq<string>>)
    ensures key == Enter ==> r == Some(AddItem(items))
    ensures key == Backspace ==> (r.Some? <==> 0 <= idx < |items| && items[idx] == "" && |items| > 1)
    ensures key == Backspace && r.Some? ==> r.value == RemoveItem(items, idx) && |r.value| == |items| - 1
    ensures key == OtherKey ==> r.None?
    ensures r.Some? ==> |r.value| >= 1
  {
    if key == Enter then Some(AddItem(items))
    else if key == Backspace && 0 <= idx < |items| && items[idx] == "" && |items| > 1 then
      Some(RemoveItem(items, idx))
    else None
  }

  /**
   * Writing rows back through the store: the block with that id then reads back exactly
   * those rows, keeps every other data key, and no other block changes.
   */
  lemma ListEditRoundTrip(s: SheetState, k: nat, rows: seq<string>)
    requires k < |s.blocks|
    ensures var r := UpdateBlockData(s, s.blocks[k].i, ItemsPatch(rows));
      && ItemsOf(r.blocks[k].data) == rows
      && (forall key :: key in s.blocks[k].data && key != "items" ==>
            key in r.blocks[k].data && r.blocks[k].data[key] == s.blocks[k].data[key])
      && (forall j :: 0 <= j < |s.blocks| && s.blocks[j].i != s.blocks[k].i ==> r.blocks[j] == s.blocks[j])
  {
  }

  /** Enter on any row of a list block grows the rows it reads back by one empty row. */
  lemma EnterGrowsList(s: SheetState, k: nat, idx: int)
    requires k < |s.blocks|
    ensures var items := ItemsOf(s.blocks[k].data);
      var r := UpdateBlockData(s, s.blocks[k].i, ItemsPatch(KeyDown(items, Enter, idx).value));
      ItemsOf(r.blocks[k].data) == items + [""]
  {
    var items := ItemsOf(s.blocks[k].data);
    ListEditRoundTrip(s, k, AddItem(items));
  }

  // ---------------------------------------------------------------- headers and shapes

  /** A header's level: the configured one, 1 when none is set. */
  function HeaderLevel(config: Option<Config>): (l: Level)
    ensures config.Some? && config.value.level.Some? ==> l == config.value.level.value
    ensures (config.None? || config.value.level.None?) ==> l == L1
  {
    match config
    case Some(Config(Some(level), _, _, _)) => level
    case _ => L1
  }

  /** The theme's header class a level selects. */
  datatype HeaderClass = ThemeH1 | ThemeH2

  function HeaderClassFor(l: Level): (c: HeaderClass)
    ensures c == ThemeH1 <==> l == L1
    ensures c == ThemeH2 <==> l != L1
  {
    if l == L1 then ThemeH1 else ThemeH2
  }

  /** A header block with no level configured is drawn with the theme's first-level class. */
  lemma UnsetLevelIsH1(b: Block)
    requires b.config.None? || b.config.value.level.None?
    ensures HeaderClassFor(HeaderLevel(b.config)) == ThemeH1
  {
  }

  /** A shape's kind: the configured one, a square when none is set. */
  function ShapeKindOf(config: Option<Config>): (k: ShapeKind)
    ensures config.Some? && config.value.shapeType.Some? ==> k == config.value.shapeType.value
    ensures (config.None? || config.value.shapeType.None?) ==> k == Square
  {
    match config
    case Some(Config(_, Some(shape), _, _)) => shape
    case _ => Square
  }

  /** The corner modifier added to the theme's shape class. */
  datatype Corner = RoundedFull | RoundedXl

  /** How a shape is drawn: the heart glyph, or a box with an optional corner modifier. */
  datatype ShapeRendering = HeartGlyph | Box(corner: Option<Corner>)

  function RenderShape(kind: ShapeKind): (r: ShapeRendering)
    ensures r == HeartGlyph <==> kind == Heart
    ensures r == Box(Some(RoundedFull)) <==> kind == Circle
    ensures r == Box(Some(RoundedXl)) <==> kind == Rounded
    ensures r == Box(None) <==> kind == Square
  {
    var corner := if kind == Circle then Some(RoundedFull) else None;
    var corner' := if kind == Rounded then Some(RoundedXl) else corner;
    assert corner'.None? <==> kind == Square || kind == Heart;
    if kind == Heart then HeartGlyph else Box(corner')
  }

}
