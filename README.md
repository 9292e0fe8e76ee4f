# js-games common library: a verified model

This project models the game logic in `js/common.js` of js-games, a small browser grid game.
It is written in Dafny and its properties are proved.

- **State store.** Every game object keeps its props and state in a `StateObject`. This is a
  JavaScript object tree addressed by dotted keys such as `"stat.health"`. `getValue` walks a
  key and falls back to a default. `setValue` writes a dotted leaf in place, replaces the value,
  or merges an object into it.
- **Fields.** A field is one grid cell (Road, Spawn, Wall, Goal). It has an index, an offset
  (column, row), a size, four corner points and the links to its four neighbours.
- **Stage.** `makeMatrix` builds the rows × cols grid of fields in scan order. It types each
  cell from the goal/spawn/wall coordinate lists, places it, sums the stage width and height
  and collects the per-type lists. `makeMatrixLink` rebuilds the grid and links every field to
  its orthogonal neighbours. The `matrix` getter flattens the grid. `init` builds, links and
  hands the spawn fields out to the users.
- **Players.** Damage resolution (`hitted`, `attack`, `died`) and placement on a field
  (`setField`, `setOffset`).
- **Controller.** The key-code tables of the input modes and `compare`, which maps a key code
  to UP/DOWN/LEFT/RIGHT/ACTION/UNKNOWN. Besides `arrow` and `wasd`, a mode that names the
  `action` table or a property inherited from `Object.prototype` gets no move keys, only F,
  and any other mode throws.
- **Move.** The stage manager's key handler moves the user onto the linked field in the
  pressed direction.

## Modules

| file | module | what it holds |
|---|---|---|
| `wrappers.dfy` | `Wrappers` | `Option` and `Result` (a `TypeError` stands for a thrown TypeError) |
| `state_store.dfy` | `StateStore` | value trees, `Split`/`Join`, `Lookup` (getValue) and `Store` (setValue), `class StateObject` |
| `controls.dfy` | `Controls` | `Mode`, `Command`, `KeyMap`, `GetKeyMap`, `Compare` |
| `fields.dfy` | `Fields` | `FieldType`, `Point`, `Corners`, `Links`, `class Field` |
| `players.dfy` | `Players` | `Stat`, `TakeHit`, `class Player` |
| `stages.dfy` | `Stages` | grid layout, per-type lists, links, the getter, spawn hand-out, `class Stage`, `MoveUser` |

Where the source updates objects in place, the model is imperative. `Field`, `Player`,
`Stage` and `StateObject` are classes whose methods update their fields. `makeMatrix` and
`makeMatrixLink` keep their loops. Each loop is proved against specification functions:
`KindOf`, `CornersOf`, `Flatten`, `OfKind`, `Neighbours` and `AssignedSpawn`. The lemmas
about those functions carry the properties listed below.

The store is modelled on its own, as a value tree. The classes keep their state in plain
fields rather than in a store. Every `getState`/`setState` path those classes use is a plain
path whose last segment does not repeat. For such a path, `StorePath` shows that a write
succeeds exactly when every container on the way is a plain object, and throws otherwise.
`LookupAfterStore` shows that the key then reads back the written value. `StoreKeepsOtherKeys`
shows that every key branching off it reads as before. A read throws when a container on its
way is null or undefined (`LookupThrowsIff`). The stage reads `size.field` from its props, so
a stage built without a `size` prop throws in `makeMatrix`; the model reports that case.

## Model

| member | source | states |
|---|---|---|
| StateStore.Split | js/common.js:22 | `key.split(".")` always yields at least one segment, and no segment contains a dot |
| StateStore.JoinSplit | js/common.js:22 | joining the segments of a split with dots gives back the original key |
| StateStore.SplitJoin | js/common.js:45 | splitting a dot-joined list of dot-free segments gives back the list |
| StateStore.SplitPrefix | js/common.js:22 | splitting `w + t` with dot-free `w` glues `w` onto t's first segment and keeps the rest |
| StateStore.Walk | js/common.js:24-27 | the empty path reads the value itself; one step from a value that is not null or undefined never throws; any step from null or undefined throws |
| StateStore.WalkConcat | js/common.js:24-27 | reading `p + q` is reading `p` and then reading `q` from what that gave, unless `p` threw |
| StateStore.WalkThrowsIff | js/common.js:24-27 | walking a path throws exactly when some step reads a member of null or undefined |
| StateStore.Lookup | js/common.js:18-38 | getValue: with no key or a non-object value, the result is the whole value (or df if it is null/undefined); a successful result that is null/undefined is always df |
| StateStore.LookupThrowsIff | js/common.js:21-30 | on an object with a key, getValue throws exactly when an intermediate segment is null or undefined (segment 0 included, the last segment excluded) |
| StateStore.PutThenWalk | js/common.js:48-54 | writing along a writable path and reading it back yields the written value |
| StateStore.PutFrame | js/common.js:48-54 | writing along a path leaves every path that is not a prefix or extension of it unchanged |
| StateStore.ReduceUpToWrite | js/common.js:48-54 | the reduce walks without writing until the first segment equal to the last one, then writes there |
| StateStore.Reduce | js/common.js:48-54 | the reduce keeps a plain-object tree a plain object; once the last segment has been written, the rest of the reduce never ends normally: it throws or reaches the cyclic write, and leaves the tree as it was after the write |
| StateStore.SingleSegment | js/common.js:45-57 | a key that splits into one segment is that segment itself |
| StateStore.Store | js/common.js:40-67 | a falsy key changes nothing; a truthy key on a null or undefined stored value throws and changes nothing; on a primitive stored value the key replaces it; on a plain object the result is a plain object |
| StateStore.StorePath | js/common.js:40-57 | setValue on a dotted key whose last segment does not appear earlier: the path is written if every container on it is an object, otherwise it throws and the tree is unchanged |
| StateStore.LookupAfterStore | js/common.js:18-57 | after setValue(k, v) on such a path, getValue(k, df) is v (or df if v is null/undefined) |
| StateStore.StoreKeepsOtherKeys | js/common.js:18-57 | after setValue(k, v), every key that is neither a prefix nor an extension of k reads as before |
| StateStore.StoreWritesEarly | js/common.js:48-54 | when the last segment repeats at an index between the first and the last, setValue writes the path up to that index early and then throws or cycles |
| StateStore.StoreMerges | js/common.js:58-59 | setValue with an object key merges its fields, and every other field keeps its value |
| StateStore.StateObject.constructor | js/common.js:14-16 | the store starts holding the given object, or a fresh empty object when none is given |
| StateStore.StateObject.GetValue | js/common.js:18-38 | getValue on the stored value is Lookup, so LookupThrowsIff and LookupAfterStore apply to it |
| StateStore.StateObject.SetValue | js/common.js:40-67 | the new value and the outcome are those of Store on the old value, so a truthy key on a null or undefined value throws and leaves it |
| Controls.ParseMode | js/common.js:355-381 | the mode is wasd unless given; arrow exactly for "arrow" and wasd exactly for "wasd"; `keymap[mode]` is missing exactly for a name that is neither a key of `keymap` nor inherited from `Object.prototype` |
| Controls.GetKeyMap | js/common.js:451-474 | the key map throws exactly when the mode's table is missing; the defined codes are distinct; all four move keys are undefined for a table without them, and all four are defined otherwise |
| Controls.Compare | js/common.js:476-486 | compare throws exactly when getKeyMap does; with no move keys it is ACTION for F (70) and UNKNOWN for every other code |
| Controls.CompareIff | js/common.js:451-486 | in a mode with a table, compare(code) is the command c exactly when code is c's key code, and it is UNKNOWN exactly when code is none of the defined codes |
| Controls.CompareKeyOf | js/common.js:451-486 | compare(getKeyMap()[d]) == d for every command d whose code is defined |
| Fields.Fallback | js/common.js:258-262 | `o \|\| d`: d for a missing or zero number, otherwise the number; never 0 when d is not 0 |
| Fields.Field.constructor | js/common.js:257-293 | type defaults to init, index to 0, offset coordinates to 0 and size to 50 × 50 when missing or zero; the corners are the box at the origin and all links are null |
| Fields.Field.SetPos | js/common.js:295-299 | the corners become the given four points; the links stay |
| Fields.Field.SetLink | js/common.js:305-307 | the links become the given four fields; the corners stay |
| Players.TakeHit | js/common.js:195-204 | health never negative, and never raised from a non-negative start; death exactly at health 0; a dead player stays dead; damage not above the armour leaves health; otherwise health drops by the damage less any positive armour, clamped at 0 |
| Players.Player.constructor | js/common.js:146-178 | the initial stat block (level 1, exp 0, health 100, strength 10, exp limit 100), no armour, no field, and the offset from props or 0 |
| Players.Player.Hitted | js/common.js:195-204 | health becomes TakeHit's, the result is TakeHit's death flag, and nothing else changes |
| Players.Player.Attack | js/common.js:184-193 | for a Player target, the target is hit with this player's strength and the result says whether it died; for no target, nothing changes and the result is false |
| Players.Player.Died | js/common.js:206-209 | health becomes 0 and the result is true |
| Players.DiedTwice | js/common.js:206-209 | dying twice leaves the same stat block as dying once |
| Players.Player.SetField | js/common.js:223-227 | the player stands on the field and takes over its offset; stats stay |
| Players.Player.SetOffset | js/common.js:229-231 | the offset becomes (x, y); field and stats stay |
| Stages.KindOf | js/common.js:596-608 | a cell is goal when listed as goal; otherwise spawn when listed as spawn; otherwise wall when listed as wall; otherwise road; never init |
| Stages.CornersTile | js/common.js:612-630 | the cell at (x, y) starts at x cell widths and y cell heights; neighbouring cells share their edges, and each cell is one cell size wide and high |
| Stages.FlattenAt | js/common.js:528-534 | in the flattened grid, the cell at row r, column c sits at position r*cols + c |
| Stages.FlattenLength | js/common.js:528-534 | the flattened grid has rows*cols cells |
| Stages.FlattenLaid | js/common.js:580-645 | in a built grid, the flattening lists cells in index order, each inside the grid and at its own offset |
| Stages.OfKindMembers | js/common.js:596-608 | a cell is in the list of a type exactly when it is in the grid and has that type |
| Stages.OfKindBelow | js/common.js:596-608 | picking out one type keeps every index below a bound the whole sequence respects |
| Stages.OfKindIncreasing | js/common.js:596-608 | each per-type list inherits the scan's increasing index order |
| Stages.OfKindSnoc | js/common.js:596-608 | pushing a cell extends the list of its own type and no other |
| Stages.ByKindSnoc | js/common.js:596-608 | scanning one more cell (not init) pushes it onto the lists of the scan so far, as makeMatrix's if-chain does |
| Stages.ContentsPush | js/common.js:596-608 | a push adds the cell to exactly one of the four lists |
| Stages.OfKindPartition | js/common.js:596-608 | without init cells, the four lists together hold each cell exactly as often as the sequence does |
| Stages.TypeListsPartition | js/common.js:580-608 | goals, spawners, walls and roads partition the rows*cols cells, each list in row-major order |
| Stages.AddCell | js/common.js:584-635 | one step of the inner loop: the new cell joins the row, keeps the row laid out and placed, and is pushed onto the list of its type |
| Stages.NewCell | js/common.js:584-632 | a fresh cell with index r*cols + c, offset (c, r), the type KindOf gives and the stage cell size, placed at CornersOf(c, r), unlinked |
| Stages.LayRow | js/common.js:582-645 | the inner loop lays out the row's cells and the type lists become those of the scan including the row; width grows by the row on the first row only, height by one cell |
| Stages.LaidSnoc | js/common.js:580-645 | appending the next row keeps the grid laid out, and the flattening grows by that row |
| Stages.LayGrid | js/common.js:580-645 | the two loops give a rows × cols grid whose rows are placed and unlinked, of fresh cells, with the per-type lists of its scan, width cols*w (0 without rows) and height rows*h (0 without columns) |
| Stages.LayRows | js/common.js:565-645 | LayGrid's row-by-row result restated as the single Grid fact that StoreGrid and the built stage use: a placed rows × cols grid with its per-type lists and size, every cell fresh and still unlinked |
| Stages.Stage.constructor | js/common.js:493-526 | the map size is `size.maps`, or 5 × 5 when there is no `size` prop or it has no `maps`; the field size comes from `size.field`; the matrix, sizes and type lists start empty |
| Stages.Stage.StoreGrid | js/common.js:576-657 | after the reads, the stored matrix, width, height and type lists are those of a freshly built grid, whose cells are all unlinked |
| Stages.Stage.MakeMatrix | js/common.js:565-657 | without a `size` prop, reading `size.field` throws and nothing changes; otherwise the stored matrix, width, height and type lists are those of a freshly built grid, whose cells are all unlinked |
| Stages.Neighbours | js/common.js:663-692 | a link is null exactly at the grid edge in its direction, and otherwise it is the adjacent cell in that direction |
| Stages.NeighboursMutual | js/common.js:663-692 | links are mutual: A.RIGHT is B exactly when B.LEFT is A, and A.DOWN is B exactly when B.UP is A |
| Stages.LinkField | js/common.js:666-692 | one field gets its in-grid neighbour in each direction, or null past the edge; its corners stay |
| Stages.LinkedByScan | js/common.js:665-693 | linking every cell of the flattening links every cell of the grid |
| Stages.LinkAll | js/common.js:665-693 | after the pass every cell carries the links of its position, and no cell's corners change |
| Stages.Stage.MakeMatrixLink | js/common.js:659-694 | without a `size` prop makeMatrix throws and nothing changes; otherwise the matrix is rebuilt, and with rows it is fully linked, while with no rows the flattening throws and the empty matrix stays unlinked; the result says whether it completed |
| Stages.MatrixView | js/common.js:528-534 | with zero or one row the getter returns the rows as they are; with more it returns a flat list of cells |
| Stages.Stage.Matrix | js/common.js:528-534 | the `matrix` getter is MatrixView of the stored rows, so MatrixViewRowMajor applies to it |
| Stages.MatrixViewRowMajor | js/common.js:528-534 | with more than one row, the getter lists the cell at row r, column c at r*cols + c; with one row it returns the matrix itself |
| Stages.AssignedSpawn | js/common.js:548-557 | a spawner handed to a player comes from the spawner list, and only a user among those already served receives one |
| Stages.DistinctUsersSpawn | js/common.js:548-557 | with distinct users, the k-th user gets the k-th spawner when there is one and none otherwise |
| Stages.AbsentUserSpawn | js/common.js:548-557 | a player that is not a user gets no spawner |
| Stages.Stage.AssignSpawns | js/common.js:548-557 | each user stands on the spawner AssignedSpawn gives it, with its offset; users without one keep their field and offset; stats stay; a built, linked grid stays so |
| Stages.Stage.Init | js/common.js:536-563 | without a `size` prop init throws in its first makeMatrix and nothing changes; otherwise the grid is built and, when there are rows, linked and its spawners handed out; with no rows init throws before touching any user |
| Stages.Step | js/common.js:820-828 | the field reached by a command is the link of the user's field in that direction; ACTION, UNKNOWN and no field reach nothing |
| Stages.MoveUser | js/common.js:820-828 | the user moves exactly when it stands on a field that links onward in the pressed direction, and then takes that field and its offset; otherwise nothing changes |

## Left out

- Canvas drawing (`DrawUtil`, `drawMatrix`, `drawPlayers`, `draw`), the canvas sizing in `init` and the Stage constructor's `canvas.getContext("2d")` call, which throws when no canvas is given: these only touch the 2D context and DOM.
- `Controller.init`/`bindEvents`/`unbindEvents`, the `window` handler and the `StageManager` canvas: DOM event plumbing. The key handler's logic is `MoveUser`.
- `StageManager.init`'s object set-up and `render`: the set-up is fixed literals, and `render` depends on `requestAnimationFrame`.
- `StateUtil.genUuid`: it depends on `Math.random`. `StateUtil.freeze`: it relies on `Object.freeze`. The `StateUtil` accessors are thin wrappers over `StateObject`.
- `Player.levelUp`: it reads an undefined `state.level`, so its result is NaN. The empty stubs (`init`, `incExp`, `join`, `leave`, `start`, `finish`, `Job`, `Item`, …) and `console.log` are omitted too.
- `Field.setOffset` and the field `settings` block: makeMatrix never changes a field's offset, so `kind`, `index`, `offset` and `size` are constants.
- `Field`'s `type` getter: it reads the type prop, which is the constant `kind`.
- Store values: primitive leaves have no members. Reading `"abc".length` gives undefined in the model.
- Store values: arrays, class instances and functions are not represented; a value is undefined, null, a number, string or boolean leaf, or a plain object. Reading or writing through such a value along a dotted path (`"maps.size.0"`, `"maps.matrix.length"`, a write into an array element) is therefore not modelled: the model reads a member of a leaf as undefined and throws on a write into one. Prototype keys such as `constructor` are not modelled in the store.
- Store values: sharing between trees is not modelled; a tree is a value, not a reference graph.
- StateStore.Store: reports a cyclic write (the value written into itself) as `Cyclic` with the tree at that point. It does not model the reads that follow on the cyclic object.
- StateStore.Lookup: takes the key as a string, and "" stands for every falsy key. A key that is not a string throws in the source (`split` is not a function); that case is not modelled.
- Stages.Stage.constructor: a `size` prop that is present but not null is taken as an object. A primitive `size` reads as one without `maps` or `field`, as in the source. A null `size` behaves like a missing one (makeMatrix throws reading `size.field`), so `None` stands for both.
- Controls.ParseMode: the mode is a string or absent. A mode passed explicitly as undefined, or as a non-string, is not modelled.
- Stages.StageProps: rows and cols are natural numbers. A negative map size is not modelled; the loops would treat it as 0.
- Players.Player.Hitted: the damage parameter has no default. `hitted()` with no argument is `Hitted(0)`.
- Players.Player: armour is a number here, and no armour stands as 0. The source reads the `equipment.armour` object reference with default 0.
- Players.Player.Attack: the target is a Player or null. Other non-Player targets behave like null.
- Stages.MoveUser: returns false where the handler throws: no field, ACTION/UNKNOWN, or a null link (read before its null check). The throw itself is not modelled.
- Integers are unbounded. The source's coordinates and sizes are small doubles, so no overflow or rounding arises in the modelled range.
