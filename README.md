# Character sheet block store, in Dafny

A model of the state core of a browser editor for character sheets. A sheet is an ordered
list of typed blocks (text, image, header, form box, shape, divider, list, container). Each
block sits on a grid at `x, y` with span `w, h`, carries free-form `data` and an optional
`config`. The sheet also holds a global style (a theme key and four font slots) and a
compact switch that picks the grid engine's compaction and collision policy.

The model has five modules:

- `Wrappers` holds `Option`.
- `SheetModel` holds the shapes of blocks, configuration, style and state. The block's
  `type` field is called `kind`, and the config key `label` is called `labelText`: both
  names are Dafny keywords. The unbounded row `y: Infinity` that a new block gets is the
  constructor `Append` of `Y`. `data` is a map from string keys to `Value`, which is a
  string, a list of strings, or an opaque other value.
- `SheetStore` holds the seven store operations of `src/store/useSheetStore.ts`. Each one
  is a pure function from one `SheetState` to the next, as the source's copy-on-write
  updaters are. A session of store calls is `Run` over a sequence of `Action`s. The random
  UUID drawn by `addBlock` is the `freshId` argument. `Admissible` states the one
  assumption placed on it: the drawn id is not already in use.
- `BlockRendering` holds the row editing of list blocks and the header-level and shape-kind
  defaults of `src/components/sheet/BlockRenderer.tsx`. A row edit reaches the store as a
  data patch `{items: rows}`; `ListEditRoundTrip` connects the two.
- `CanvasLayout` holds the layout projection handed to the grid engine, the stacking tier
  of a block, and the grid policy derived from the compact switch
  (`src/components/sheet/Canvas.tsx`).

Two points where the code's behaviour is looser than a reader might expect:

- `removeBlock` drops every block with the given id, since it is a filter, not a single removal.
- Geometry written back by `updateLayout` is not checked: `w, h >= 1` is not an invariant
  of the code.

Canvas.tsx:50-52 computes a stacking class for every block. The element's class list at
Canvas.tsx:56 never uses it, so as written the tier has no visible effect. `TierOf` models
the tier the code computes.

## Model

| member | source | states |
|---|---|---|
| `SheetStore.InitialState` | src/store/useSheetStore.ts:57-73 | a fresh store holds exactly one text block with id "1" at (0,0) spanning 4x2 and text "Character Name", its ids are unique, the theme is simple, fonts are serif/serif/serif/sans-serif, compact is off |
| `SheetStore.ToggleCompact` | src/store/useSheetStore.ts:75 | the switch is negated; blocks and style are unchanged |
| `SheetStore.ToggleCompactTwice` | src/store/useSheetStore.ts:75 | toggling twice gives back the same state |
| `SheetStore.WithFont` | src/store/useSheetStore.ts:80 | the named slot takes the new font and the other three slots keep theirs |
| `SheetStore.SetGlobalFont` | src/store/useSheetStore.ts:76-82 | only the named font slot changes; the other slots, the theme, the blocks and the switch are kept |
| `SheetStore.SetTheme` | src/store/useSheetStore.ts:83-86 | only the theme changes; fonts, blocks and switch are kept |
| `SheetStore.MergeConfig` | src/store/useSheetStore.ts:100 | each configuration key present in the override wins, every other key comes from the base |
| `SheetStore.AddBlock` | src/store/useSheetStore.ts:87-105 | exactly one block is appended and the old blocks are an unchanged prefix; the new block has the given id and type, x=0, the append row, 4x2, empty data, and the caller's config over the middle tier |
| `SheetStore.AddBlockKeepsIdsUnique` | src/store/useSheetStore.ts:89-103 | with a fresh id, adding keeps ids pairwise distinct and adds exactly that id to the ids in use |
| `SheetStore.FindEntry` | src/store/useSheetStore.ts:111 | the result is absent exactly when no entry has the id; otherwise it is the entry with that id at the first position where the id occurs |
| `SheetStore.UpdateLayout` | src/store/useSheetStore.ts:107-124 | length, order, id, type, data and config of every block are kept; a block with an entry takes x,y,w,h from the first such entry; a block without one is unchanged; style and switch are kept |
| `SheetStore.FindEntryUnique` | src/store/useSheetStore.ts:111 | when entry ids are unique, looking up an entry's id returns that entry |
| `SheetStore.UpdateLayoutIgnoresEntryOrder` | src/store/useSheetStore.ts:107-124 | for two id-unique layouts holding the same entries, the synced states are equal whatever the entry order |
| `SheetStore.MergeData` | src/store/useSheetStore.ts:127 | shallow merge: the keys are the union, patch keys take the patch's values, all other keys keep theirs |
| `SheetStore.UpdateBlockData` | src/store/useSheetStore.ts:125-128 | the matching block's data becomes its old data merged with the patch; every other block and field is unchanged; an unknown id leaves the state identical |
| `SheetStore.UpdateBlockDataTwice` | src/store/useSheetStore.ts:125-128 | patching a block twice equals one patch with the merge of both, so keys of the first patch survive the second |
| `SheetStore.UpdateBlockDataKeepsIds` | src/store/useSheetStore.ts:125-128 | a data update changes no id, type, geometry or config, so it keeps ids unique |
| `SheetStore.Without` | src/store/useSheetStore.ts:131 | a block survives exactly when it was present and its id differs; an id not in use gives back the same list |
| `SheetStore.RemoveBlock` | src/store/useSheetStore.ts:129-132 | the kept blocks are exactly those whose id differs; the id is no longer in use; an unknown id leaves the state identical; style and switch are kept |
| `SheetStore.RemoveBlockAt` | src/store/useSheetStore.ts:129-132 | with unique ids, removing the id of block k gives the blocks before k followed by the blocks after k, in their original order |
| `SheetStore.WithoutAppend` | src/store/useSheetStore.ts:131 | removal distributes over concatenation, so the survivors keep their relative order |
| `SheetStore.WithoutKeepsIdsUnique` | src/store/useSheetStore.ts:129-132 | removing keeps ids pairwise distinct |
| `SheetStore.WithoutDropsOne` | src/store/useSheetStore.ts:129-132 | with unique ids, removing an id in use shortens the list by exactly one |
| `SheetStore.ApplyKeepsIdsUnique` | src/store/useSheetStore.ts:75-132 | each of the seven operations keeps block ids pairwise distinct, given a fresh id for an added block |
| `SheetStore.RunKeepsIdsUnique` | src/store/useSheetStore.ts:52-133 | any sequence of store calls whose added ids are fresh keeps block ids pairwise distinct |
| `SheetStore.SessionIdsUnique` | src/store/useSheetStore.ts:57-132 | starting from the seeded state, every such session has unique block ids |
| `BlockRendering.ItemsOf` | src/components/sheet/BlockRenderer.tsx:150 | the rows are the stored string list, or "Item 1","Item 2" when there is none |
| `BlockRendering.UpdateItem` | src/components/sheet/BlockRenderer.tsx:152-156 | for an in-range row the length is kept, that row takes the new value and every other row is unchanged |
| `BlockRendering.AddItem` | src/components/sheet/BlockRenderer.tsx:158 | the old rows are kept as a prefix and one empty row follows |
| `BlockRendering.RemoveItem` | src/components/sheet/BlockRenderer.tsx:160-163 | an in-range row is cut out with the rows before and after it kept in order; an out-of-range index changes nothing |
| `BlockRendering.RemoveItemShape` | src/components/sheet/BlockRenderer.tsx:160-163 | removing an in-range row shortens the list by one, keeps the rows before it and shifts the rows after it down by one |
| `BlockRendering.KeyDown` | src/components/sheet/BlockRenderer.tsx:166-176 | Enter appends a row; Backspace removes row idx exactly when it exists, is empty and is not the only row; other keys do nothing; no outcome empties the list |
| `BlockRendering.ListEditRoundTrip` | src/components/sheet/BlockRenderer.tsx:152-163 | rows written back through the data merge read back unchanged, the block's other data keys survive, and no other block changes |
| `BlockRendering.EnterGrowsList` | src/components/sheet/BlockRenderer.tsx:158-171 | after Enter the list block reads back its old rows followed by one empty row |
| `BlockRendering.HeaderLevel` | src/components/sheet/BlockRenderer.tsx:25 | a header's level is the configured one, and 1 when none is set |
| `BlockRendering.HeaderClassFor` | src/components/sheet/BlockRenderer.tsx:28 | level 1 selects the theme's h1 class and every other level selects h2 |
| `BlockRendering.UnsetLevelIsH1` | src/components/sheet/BlockRenderer.tsx:25-28 | a header with no configured level is drawn with the h1 class |
| `BlockRendering.ShapeKindOf` | src/components/sheet/BlockRenderer.tsx:82 | a shape's kind is the configured one, and a square when none is set |
| `BlockRendering.RenderShape` | src/components/sheet/BlockRenderer.tsx:85-102 | a heart alone takes the glyph branch; circle adds the full rounding, rounded the large rounding, and a square no modifier |
| `CanvasLayout.Project` | src/components/sheet/Canvas.tsx:17 | the projection has the blocks' length and order, and entry k carries exactly the id and geometry of block k |
| `CanvasLayout.ProjectKeepsIdsUnique` | src/components/sheet/Canvas.tsx:17 | unique block ids give unique layout ids |
| `CanvasLayout.SyncOwnProjection` | src/components/sheet/Canvas.tsx:17-45 | syncing back the layout the canvas handed out leaves the state unchanged when ids are unique |
| `CanvasLayout.ProjectAfterSync` | src/components/sheet/Canvas.tsx:17-45 | after a sync with an id-unique layout, a block with an entry projects to exactly that entry |
| `CanvasLayout.TierOf` | src/components/sheet/Canvas.tsx:50-52 | the tier is front exactly when front is configured; back exactly when front is not configured and the block is a container or back is configured; middle otherwise |
| `CanvasLayout.AddedBlockTier` | src/components/sheet/Canvas.tsx:50-52 | a new block takes the tier it asks for, except that a container goes to the back unless it asks for the front; with none asked for, a container goes to the back and any other block to the middle |
| `CanvasLayout.PolicyFor` | src/components/sheet/Canvas.tsx:40-46 | compaction is vertical exactly when compact is on and absent otherwise; collision prevention is exactly compact being off |
| `CanvasLayout.ToggleSwapsPolicy` | src/components/sheet/Canvas.tsx:40-46 | toggling the switch swaps compaction and collision prevention and leaves the projected layout unchanged |

## Left out

- Persistence to local storage under the key "rpg-sheet-storage" (useSheetStore.ts:53,134) is storage I/O inside a library, so it is not modelled. A JSON snapshot would also turn the unbounded row into `null`.
- Nothing in the store recovers from a failed write or a malformed snapshot. That behaviour belongs to the persistence library, which is not part of this model.
- The random UUID source (useSheetStore.ts:89) is a parameter, `freshId`. Its uniqueness is an assumption (`Admissible`), not something proved.
- The grid engine itself is not modelled: collision resolution, vertical compaction, breakpoints and where an appended block lands (Canvas.tsx:36-48). Only its policy inputs and the sync contract are.
- JSX, class names and styling are not modelled. Neither are the image upload through `FileReader` (BlockRenderer.tsx:239-248), the theme table, export, hooks, routing and the sidebar wiring.
- The text, form-box and header inputs of the renderer are not modelled separately. Each only calls `updateBlockData` with a one-key patch, which `UpdateBlockData` covers.
- BlockRendering.ItemsOf: a stored `items` value that is not a list of strings yields the default rows. In JavaScript a non-empty string there would be used as is, but nothing in the code stores one.
- SheetStore.MergeConfig: a configuration key that is present but set to `undefined` is treated as absent. In JavaScript the spread would copy the `undefined`.
- Coordinates are unbounded integers. JavaScript numbers, with fractions and `NaN`, are not modelled.
- A block with no `data` object is modelled as one with empty data, since spreading `undefined` gives `{}`.
