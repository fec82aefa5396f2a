/**
 * The sheet block store (src/store/useSheetStore.ts). Every operation of the store is a
 * copy-on-write updater from one state to the next; here each is a function on
 * `SheetState`, and a session of store calls is `Run` over a sequence of `Action`s.
 */
module SheetStore {

  import opened Wrappers
  import opened SheetModel

  /** The seeded state of a fresh store: one example text block, the simple theme, free placement. */
  function InitialState(): (s: SheetState)
    ensures |s.blocks| == 1 && UniqueIds(s.blocks)
    ensures s.blocks[0].i == "1" && s.blocks[0].kind == Text
    ensures s.blocks[0].x == 0 && s.blocks[0].y == Row(0) && s.blocks[0].w == 4 && s.blocks[0].h == 2
    ensures s.blocks[0].data == map["text" := Str("Character Name")] && s.blocks[0].config.None?
    ensures s.globalStyle.theme == Simple
    ensures s.globalStyle.fonts == Fonts("serif", "serif", "serif", "sans-serif")
    ensures !s.isCompact
  {
    SheetState(
      [Block("1", 0, Row(0), 4, 2, Text, map["text" := Str("Character Name")], None)],
      SheetStyle(Simple, Fonts("serif", "serif", "serif", "sans-serif")),
      false)
  }

  // ---------------------------------------------------------------- global settings

  /** Flips the compaction switch; blocks and style are untouched. */
  function ToggleCompact(s: SheetState): (r: SheetState)
    ensures r.isCompact == !s.isCompact
    ensures r.blocks == s.blocks && r.globalStyle == s.globalStyle
  {
    s.(isCompact := !s.isCompact)
  }

  lemma ToggleCompactTwice(s: SheetState)
    ensures ToggleCompact(ToggleCompact(s)) == s
  {
  }

  /** `{ ...fonts, [tag]: name }`. */
  function WithFont(f: Fonts, tag: FontTag, name: string): (r: Fonts)
    ensures FontOf(r, tag) == name
    ensures forall t :: t != tag ==> FontOf(r, t) == FontOf(f, t)
  {
    match tag
    case H1 => f.(h1 := name)
    case H2 => f.(h2 := name)
    case H3 => f.(h3 := name)
    case Body => f.(body := name)
  }

  /** Sets one font slot; the other three slots, the theme, the blocks and the switch are kept. */
  function SetGlobalFont(s: SheetState, tag: FontTag, name: string): (r: SheetState)
    ensures FontOf(r.globalStyle.fonts, tag) == name
    ensures forall t :: t != tag ==> FontOf(r.globalStyle.fonts, t) == FontOf(s.globalStyle.fonts, t)
    ensures r.globalStyle.theme == s.globalStyle.theme
    ensures r.blocks == s.blocks && r.isCompact == s.isCompact
  {
    s.(globalStyle := s.globalStyle.(fonts := WithFont(s.globalStyle.fonts, tag, name)))
  }

  /** Selects a theme; the fonts, the blocks and the switch are kept. */
  function SetTheme(s: SheetState, theme: ThemeKey): (r: SheetState)
    ensures r.globalStyle.theme == theme && r.globalStyle.fonts == s.globalStyle.fonts
    ensures r.blocks == s.blocks && r.isCompact == s.isCompact
  {
    s.(globalStyle := s.globalStyle.(theme := theme))
  }

  // ---------------------------------------------------------------- addBlock

  /** `{ ...base, ...over }`: every key present in `over` wins, every other key comes from `base`. */
  function MergeConfig(base: Config, over: Config): (r: Config)
    ensures over.level.Some? ==> r.level == over.level
    ensures over.level.None? ==> r.level == base.level
    ensures over.shapeType.Some? ==> r.shapeType == over.shapeType
    ensures over.shapeType.None? ==> r.shapeType == base.shapeType
    ensures over.labelText.Some? ==> r.labelText == over.labelText
    ensures over.labelText.None? ==> r.labelText == base.labelText
    ensures over.zIndex.Some? ==> r.zIndex == over.zIndex
    ensures over.zIndex.None? ==> r.zIndex == base.zIndex
  {
    Config(
      if over.level.Some? then over.level else base.level,
      if over.shapeType.Some? then over.shapeType else base.shapeType,
      if over.labelText.Some? then over.labelText else base.labelText,
      if over.zIndex.Some? then over.zIndex else base.zIndex)
  }

  /** The configuration every new block starts from: the middle tier. */
  const DefaultConfig := EmptyConfig.(zIndex := Some(Middle))

  /**
   * Appends one new block with id `freshId` (the store draws it from a random UUID source),
   * at column 0 below all content, 4 wide and 2 high, with empty data and the caller's
   * configuration over the middle-tier default.
   */
  function AddBlock(s: SheetState, freshId: string, kind: BlockType, config: Config): (r: SheetState)
    ensures |r.blocks| == |s.blocks| + 1 && r.blocks[..|s.blocks|] == s.blocks
    ensures var b := r.blocks[|s.blocks|];
      && b.i == freshId && b.kind == kind
      && b.x == 0 && b.y == Append && b.w == 4 && b.h == 2
      && b.data == map[]
      && b.config.Some?
      && b.config.value.zIndex == (if config.zIndex.Some? then config.zIndex else Some(Middle))
      && b.config.value.level == config.level
      && b.config.value.shapeType == config.shapeType
      && b.config.value.labelText == config.labelText
    ensures r.globalStyle == s.globalStyle && r.isCompact == s.isCompact
  {
    var b := Block(freshId, 0, Append, 4, 2, kind, map[], Some(MergeConfig(DefaultConfig, config)));
    s.(blocks := s.blocks + [b])
  }

  lemma AddBlockKeepsIdsUnique(s: SheetState, freshId: string, kind: BlockType, config: Config)
    requires UniqueIds(s.blocks) && freshId !in Ids(s.blocks)
    ensures UniqueIds(AddBlock(s, freshId, kind, config).blocks)
    ensures Ids(AddBlock(s, freshId, kind, config).blocks) == Ids(s.blocks) + {freshId}
  {
    var r := AddBlock(s, freshId, kind, config).blocks;
    var n := |s.blocks|;
    forall j, k | 0 <= j < k < |r| ensures r[j].i != r[k].i {
      if k == n {
        assert r[j] == s.blocks[j];
        assert r[j] in s.blocks;
      }
    }
    assert r == s.blocks + [r[n]];
  }

  // ---------------------------------------------------------------- updateLayout

  /** `entries.find(l => l.i === id)`: the first entry carrying `id`, if any. */
  function FindEntry(entries: seq<LayoutItem>, id: string): (r: Option<LayoutItem>)
    ensures r.None? <==> forall e :: e in entries ==> e.i != id
    ensures r.Some? ==> exists k :: 0 <= k < |entries| && entries[k] == r.value && r.value.i == id
                                    && forall j :: 0 <= j < k ==> entries[j].i != id
  {
    if entries == [] then None
    else if entries[0].i == id then Some(entries[0])
    else
      var r := FindEntry(entries[1..], id);
      assert forall e :: e in entries ==> e == entries[0] || e in entries[1..];
      if r.Some? then
        var k :| 0 <= k < |entries[1..]| && entries[1..][k] == r.value && r.value.i == id
                 && forall j :: 0 <= j < k ==> entries[1..][j].i != id;
        assert entries[k + 1] == r.value;
        r
      else r
  }

  /**
   * The `map` callback of the sync (useSheetStore.ts:110-122): one block takes its geometry
   * from its entry if it has one, otherwise it is untouched.
   */
  function SyncBlock(b: Block, entries: seq<LayoutItem>): Block
  {
    match FindEntry(entries, b.i)
    case Some(e) => b.(x := e.x, y := e.y, w := e.w, h := e.h)
    case None => b
  }

  /**
   * Writes the geometry emitted by the grid engine back into the blocks, matched by id:
   * order, ids, types, data and configuration are kept; a block takes x, y, w, h from the
   * first entry with its id, and a block without an entry is unchanged.
   */
  function UpdateLayout(s: SheetState, entries: seq<LayoutItem>): (r: SheetState)
    ensures |r.blocks| == |s.blocks|
    ensures forall k :: 0 <= k < |s.blocks| ==> SameIdentity(r.blocks[k], s.blocks[k])
    ensures forall k :: 0 <= k < |s.blocks| ==>
      match FindEntry(entries, s.blocks[k].i)
      case Some(e) => HasGeometryOf(r.blocks[k], e)
      case None => r.blocks[k] == s.blocks[k]
    ensures r.globalStyle == s.globalStyle && r.isCompact == s.isCompact
  {
    s.(blocks := seq(|s.blocks|, k requires 0 <= k < |s.blocks| => SyncBlock(s.blocks[k], entries)))
  }

  /** When the entry ids are unique, `FindEntry` returns the one entry with that id. */
  lemma {:induction false} FindEntryUnique(entries: seq<LayoutItem>, e: LayoutItem)
    requires UniqueEntryIds(entries) && e in entries
    ensures FindEntry(entries, e.i) == Some(e)
  {
    if entries[0] != e {
      var k :| 0 <= k < |entries| && entries[k] == e;
      assert entries[1..][k - 1] == e;
      FindEntryUnique(entries[1..], e);
    }
  }

  /** With unique ids the order of the emitted layout does not matter: only which entries it holds. */
  lemma UpdateLayoutIgnoresEntryOrder(s: SheetState, e1: seq<LayoutItem>, e2: seq<LayoutItem>)
    requires UniqueEntryIds(e1) && UniqueEntryIds(e2)
    requires forall e :: e in e1 <==> e in e2
    ensures UpdateLayout(s, e1) == UpdateLayout(s, e2)
  {
    forall k | 0 <= k < |s.blocks| ensures FindEntry(e1, s.blocks[k].i) == FindEntry(e2, s.blocks[k].i) {
      var id := s.blocks[k].i;
      match FindEntry(e1, id)
      case Some(e) =>
        FindEntryUnique(e2, e);
      case None =>
        match FindEntry(e2, id)
        case Some(e) =>
          FindEntryUnique(e1, e);
        case None =>
    }
    var r1, r2 := UpdateLayout(s, e1), UpdateLayout(s, e2);
    assert r1.blocks == r2.blocks by {
      forall k | 0 <= k < |s.blocks| ensures r1.blocks[k] == r2.blocks[k] {
        assert r1.blocks[k] == SyncBlock(s.blocks[k], e1);
      }
    }
  }

  // ---------------------------------------------------------------- updateBlockData

  /** `{ ...current, ...patch }`: a shallow merge where the patch's keys win. */
  function MergeData(current: Data, patch: Data): (r: Data)
    ensures r.Keys == current.Keys + patch.Keys
    ensures forall key :: key in patch ==> r[key] == patch[key]
    ensures forall key :: key in current && key !in patch ==> r[key] == current[key]
  {
    current + patch
  }

  /**
   * Merges `patch` into the data of every block whose id is `id`; every other block, and every
   * other field, is unchanged, and an unknown id leaves the whole state as it was.
   */
  function UpdateBlockData(s: SheetState, id: string, patch: Data): (r: SheetState)
    ensures |r.blocks| == |s.blocks|
    ensures forall k :: 0 <= k < |s.blocks| && s.blocks[k].i == id ==>
      r.blocks[k] == s.blocks[k].(data := MergeData(s.blocks[k].data, patch))
    ensures forall k :: 0 <= k < |s.blocks| && s.blocks[k].i != id ==> r.blocks[k] == s.blocks[k]
    ensures id !in Ids(s.blocks) ==> r == s
    ensures r.globalStyle == s.globalStyle && r.isCompact == s.isCompact
  {
    var r := s.(blocks := seq(|s.blocks|, k requires 0 <= k < |s.blocks| =>
      var b := s.blocks[k];
      if b.i == id then b.(data := MergeData(b.data, patch)) else b));
    assert id !in Ids(s.blocks) ==> r.blocks == s.blocks by {
      if id !in Ids(s.blocks) {
        forall k | 0 <= k < |s.blocks| ensures r.blocks[k] == s.blocks[k] {
          assert s.blocks[k] in s.blocks;
        }
      }
    }
    r
  }

  /** Two successive patches of one block are one patch with their merge: earlier keys survive later ones. */
  lemma UpdateBlockDataTwice(s: SheetState, id: string, p1: Data, p2: Data)
    ensures UpdateBlockData(UpdateBlockData(s, id, p1), id, p2) == UpdateBlockData(s, id, MergeData(p1, p2))
  {
    var a := UpdateBlockData(UpdateBlockData(s, id, p1), id, p2);
    var b := UpdateBlockData(s, id, MergeData(p1, p2));
    forall k | 0 <= k < |s.blocks| ensures a.blocks[k] == b.blocks[k] {
      if s.blocks[k].i == id {
        MergeDataAssociative(s.blocks[k].data, p1, p2);
      }
    }
    assert a.blocks == b.blocks;
  }

  lemma MergeDataAssociative(d: Data, p1: Data, p2: Data)
    ensures MergeData(MergeData(d, p1), p2) == MergeData(d, MergeData(p1, p2))
  {
    var l, r := MergeData(MergeData(d, p1), p2), MergeData(d, MergeData(p1, p2));
    assert l.Keys == r.Keys;
    forall key | key in l ensures l[key] == r[key] {
    }
  }

  /** Updating data never changes, adds or drops an id. */
  lemma UpdateBlockDataKeepsIds(s: SheetState, id: string, patch: Data)
    ensures var r := UpdateBlockData(s, id, patch);
      forall k :: 0 <= k < |s.blocks| ==> SameGeometryAndId(r.blocks[k], s.blocks[k])
    ensures UniqueIds(s.blocks) ==> UniqueIds(UpdateBlockData(s, id, patch).blocks)
  {
  }

  predicate SameGeometryAndId(a: Block, b: Block)
  {
    a.i == b.i && a.kind == b.kind && a.x == b.x && a.y == b.y && a.w == b.w && a.h == b.h && a.config == b.config
  }

  // ---------------------------------------------------------------- removeBlock

  /** `blocks.filter(b => b.i !== id)`. */
  function Without(bs: seq<Block>, id: string): (r: seq<Block>)
    ensures forall b :: b in r <==> b in bs && b.i != id
    ensures |r| <= |bs|
    ensures id !in Ids(bs) ==> r == bs
  {
    if bs == [] then []
    else
      var rest := Without(bs[1..], id);
      assert forall b :: b in bs <==> b == bs[0] || b in bs[1..];
      assert Ids(bs[1..]) <= Ids(bs);
      (if bs[0].i == id then [] else [bs[0]]) + rest
  }

  /** Removes the blocks with id `id`; the rest keep their order, and an unknown id is a no-op. */
  function RemoveBlock(s: SheetState, id: string): (r: SheetState)
    ensures forall b :: b in r.blocks <==> b in s.blocks && b.i != id
    ensures id !in Ids(r.blocks)
    ensures id !in Ids(s.blocks) ==> r == s
    ensures r.globalStyle == s.globalStyle && r.isCompact == s.isCompact
  {
    s.(blocks := Without(s.blocks, id))
  }

  /** With unique ids, removing the id of block k cuts out exactly that block and keeps the others in order. */
  lemma RemoveBlockAt(s: SheetState, k: nat)
    requires UniqueIds(s.blocks) && k < |s.blocks|
    ensures RemoveBlock(s, s.blocks[k].i).blocks == s.blocks[..k] + s.blocks[k + 1..]
  {
    OthersKeepTheirIds(s.blocks, k);
    assert s.blocks == s.blocks[..k] + [s.blocks[k]] + s.blocks[k + 1..];
    WithoutMiddle(s.blocks[..k], s.blocks[k], s.blocks[k + 1..]);
  }

  /** Removing the id of a block that is the only one carrying it cuts out just that block. */
  lemma WithoutMiddle(a: seq<Block>, b: Block, c: seq<Block>)
    requires Without(a, b.i) == a && Without(c, b.i) == c
    ensures Without(a + [b] + c, b.i) == a + c
  {
    assert [b][1..] == [];
    assert Without([b], b.i) == [];
    WithoutAppend([b], c, b.i);
    assert Without([b] + c, b.i) == c;
    WithoutAppend(a, [b] + c, b.i);
    assert a + [b] + c == a + ([b] + c);
  }

  /** With unique ids, the blocks before and after block k do not carry its id. */
  lemma OthersKeepTheirIds(bs: seq<Block>, k: nat)
    requires UniqueIds(bs) && k < |bs|
    ensures Without(bs[..k], bs[k].i) == bs[..k]
    ensures Without(bs[k + 1..], bs[k].i) == bs[k + 1..]
  {
    var id := bs[k].i;
    var a, c := bs[..k], bs[k + 1..];
    forall j | 0 <= j < |a| ensures a[j].i != id {
      assert a[j] == bs[j];
    }
    IdAbsent(a, id);
    forall j | 0 <= j < |c| ensures c[j].i != id {
      assert c[j] == bs[k + 1 + j];
    }
    IdAbsent(c, id);
  }

  /** An id carried by no position of the list is not in use. */
  lemma IdAbsent(bs: seq<Block>, id: string)
    requires forall j :: 0 <= j < |bs| ==> bs[j].i != id
    ensures Without(bs, id) == bs
  {
    forall b | b in bs ensures b.i != id {
      var j :| 0 <= j < |bs| && bs[j] == b;
    }
  }

  /** Filtering distributes over concatenation, so the survivors keep their relative order. */
  lemma {:induction false} WithoutAppend(a: seq<Block>, b: seq<Block>, id: string)
    ensures Without(a + b, id) == Without(a, id) + Without(b, id)
  {
    if a == [] {
      assert a + b == b;
    } else {
      assert (a + b)[1..] == a[1..] + b;
      WithoutAppend(a[1..], b, id);
    }
  }

  lemma UniqueCons(b: Block, t: seq<Block>)
    ensures UniqueIds([b] + t) <==> b.i !in Ids(t) && UniqueIds(t)
  {
    var s := [b] + t;
    if UniqueIds(s) {
      forall c | c in t ensures c.i != b.i {
        var k :| 0 <= k < |t| && t[k] == c;
        assert s[0] == b && s[k + 1] == c;
        assert s[0].i != s[k + 1].i;
      }
      forall j, k | 0 <= j < k < |t| ensures t[j].i != t[k].i {
        assert s[j + 1] == t[j] && s[k + 1] == t[k];
      }
    }
    if b.i !in Ids(t) && UniqueIds(t) {
      forall j, k | 0 <= j < k < |s| ensures s[j].i != s[k].i {
        if j == 0 {
          assert s[k] in t;
        } else {
          assert s[j] == t[j - 1] && s[k] == t[k - 1];
        }
      }
    }
  }

  /** Removing blocks keeps the ids unique. */
  lemma {:induction false} WithoutKeepsIdsUnique(bs: seq<Block>, id: string)
    requires UniqueIds(bs)
    ensures UniqueIds(Without(bs, id))
  {
    if bs != [] {
      assert bs == [bs[0]] + bs[1..];
      UniqueCons(bs[0], bs[1..]);
      WithoutKeepsIdsUnique(bs[1..], id);
      var rest := Without(bs[1..], id);
      if bs[0].i != id {
        assert Ids(rest) <= Ids(bs[1..]);
        UniqueCons(bs[0], rest);
      }
    }
  }

  /** With unique ids, removing a present id drops exactly one block. */
  lemma {:induction false} WithoutDropsOne(bs: seq<Block>, id: string)
    requires UniqueIds(bs) && id in Ids(bs)
    ensures |Without(bs, id)| == |bs| - 1
  {
    assert bs == [bs[0]] + bs[1..];
    UniqueCons(bs[0], bs[1..]);
    if bs[0].i == id {
      assert Without(bs[1..], id) == bs[1..];
    } else {
      var c :| c in bs && c.i == id;
      assert c in bs[1..];
      WithoutDropsOne(bs[1..], id);
    }
  }

  // ---------------------------------------------------------------- sessions

  /** One call into the store. `Add` carries the id the store would draw at random. */
  datatype Action =
    | Add(freshId: string, kind: BlockType, config: Config)
    | Layout(entries: seq<LayoutItem>)
    | Patch(id: string, patch: Data)
    | Remove(id: string)
    | Theme(theme: ThemeKey)
    | Font(tag: FontTag, name: string)
    | Toggle

  function Apply(s: SheetState, a: Action): SheetState
  {
    match a
    case Add(id, kind, config) => AddBlock(s, id, kind, config)
    case Layout(entries) => UpdateLayout(s, entries)
    case Patch(id, patch) => UpdateBlockData(s, id, patch)
    case Remove(id) => RemoveBlock(s, id)
    case Theme(theme) => SetTheme(s, theme)
    case Font(tag, name) => SetGlobalFont(s, tag, name)
    case Toggle => ToggleCompact(s)
  }

  /** The assumption on the id source: a drawn id is not already in use. */
  predicate Admissible(s: SheetState, a: Action)
  {
    a.Add? ==> a.freshId !in Ids(s.blocks)
  }

  /** Every store operation keeps block ids pairwise distinct. */
  lemma ApplyKeepsIdsUnique(s: SheetState, a: Action)
    requires UniqueIds(s.blocks) && Admissible(s, a)
    ensures UniqueIds(Apply(s, a).blocks)
  {
    match a
    case Add(id, kind, config) => AddBlockKeepsIdsUnique(s, id, kind, config);
    case Layout(entries) =>
    case Patch(id, patch) =>
    case Remove(id) => WithoutKeepsIdsUnique(s.blocks, id);
    case Theme(_) =>
    case Font(_, _) =>
    case Toggle =>
  }

  /** The state after a sequence of store calls, each applied to the latest state. */
  function Run(s: SheetState, actions: seq<Action>): SheetState
    decreases |actions|
  {
    if actions == [] then s else Run(Apply(s, actions[0]), actions[1..])
  }

  predicate AdmissibleRun(s: SheetState, actions: seq<Action>)
    decreases |actions|
  {
    actions == [] || (Admissible(s, actions[0]) && AdmissibleRun(Apply(s, actions[0]), actions[1..]))
  }

  /** Ids stay unique across any session whose new ids are fresh. */
  lemma {:induction false} RunKeepsIdsUnique(s: SheetState, actions: seq<Action>)
    requires UniqueIds(s.blocks) && AdmissibleRun(s, actions)
    ensures UniqueIds(Run(s, actions).blocks)
    decreases |actions|
  {
    if actions != [] {
      ApplyKeepsIdsUnique(s, actions[0]);
      RunKeepsIdsUnique(Apply(s, actions[0]), actions[1..]);
    }
  }

  /** From the seeded state, every session with fresh new ids has unique block ids. */
  lemma SessionIdsUnique(actions: seq<Action>)
    requires AdmissibleRun(InitialState(), actions)
    ensures UniqueIds(Run(InitialState(), actions).blocks)
  {
    RunKeepsIdsUnique(InitialState(), actions);
  }

}
