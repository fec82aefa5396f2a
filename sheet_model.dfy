/**
 * The shapes of the sheet store: blocks, their configuration and content, the global
 * style and the whole sheet state (src/store/useSheetStore.ts).
 */
module SheetModel {

  import opened Wrappers

  /** The closed set of block variants. The source's `type` field is called `kind` here. */
  datatype BlockType = Text | Image | Header | FormBox | Shape | Divider | List | Container

  /** The coarse stacking tier of a block. */
  datatype Tier = Back | Middle | Front

  /** Heading level 1, 2 or 3. */
  datatype Level = L1 | L2 | L3

  datatype ShapeKind = Square | Circle | Rounded | Heart

  /** Per-block configuration; every key is optional and `None` is an absent key. */
  datatype Config = Config(
    level: Option<Level>,
    shapeType: Option<ShapeKind>,
    labelText: Option<string>,
    zIndex: Option<Tier>)

  /** The configuration `{}`. */
  const EmptyConfig := Config(None, None, None, None)

  /**
   * A value stored under a key of a block's free-form `data`: a string (text, label,
   * image data URI), a list of strings (list rows) or any other value, kept opaque.
   */
  datatype Value = Str(s: string) | StrList(items: seq<string>) | Other(token: nat)

  type Data = map<string, Value>

  /** A row coordinate; `Append` is the unbounded row that asks the grid engine to place the block below all content. */
  datatype Y = Row(n: int) | Append

  datatype Block = Block(
    i: string,
    x: int,
    y: Y,
    w: int,
    h: int,
    kind: BlockType,
    data: Data,
    config: Option<Config>)

  /** The four font slots of the global style. */
  datatype FontTag = H1 | H2 | H3 | Body

  datatype Fonts = Fonts(h1: string, h2: string, h3: string, body: string)

  /** The keys of the theme registry. */
  datatype ThemeKey = Simple | Medieval | Cyberpunk

  datatype SheetStyle = SheetStyle(theme: ThemeKey, fonts: Fonts)

  datatype SheetState = SheetState(blocks: seq<Block>, globalStyle: SheetStyle, isCompact: bool)

  /** One entry of a grid layout, `{i, x, y, w, h}`. */
  datatype LayoutItem = LayoutItem(i: string, x: int, y: Y, w: int, h: int)

  /** No two blocks share an id. */
  predicate UniqueIds(bs: seq<Block>)
  {
    forall j, k :: 0 <= j < k < |bs| ==> bs[j].i != bs[k].i
  }

  /** No two layout entries share an id. */
  predicate UniqueEntryIds(entries: seq<LayoutItem>)
  {
    forall j, k :: 0 <= j < k < |entries| ==> entries[j].i != entries[k].i
  }

  /** The ids in use. */
  function Ids(bs: seq<Block>): set<string>
  {
    set b | b in bs :: b.i
  }

  /** Two blocks agree on everything but their geometry. */
  predicate SameIdentity(a: Block, b: Block)
  {
    a.i == b.i && a.kind == b.kind && a.data == b.data && a.config == b.config
  }

  /** The block's geometry is the entry's. */
  predicate HasGeometryOf(b: Block, e: LayoutItem)
  {
    b.x == e.x && b.y == e.y && b.w == e.w && b.h == e.h
  }

  function FontOf(f: Fonts, tag: FontTag): string
  {
    match tag
    case H1 => f.h1
    case H2 => f.h2
    case H3 => f.h3
    case Body => f.body
  }

  /** The stacking tier a block's configuration asks for, if any. */
  function ZIndexOf(b: Block): Option<Tier>
  {
    match b.config
    case None => None
    case Some(c) => c.zIndex
  }

}
