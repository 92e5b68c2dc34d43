# Sparse Game of Life: codec and generation step

This project models the engine of the `cogl` sketch (`007_cogl/main.js`). It is an
unbounded, sparse Conway's Game of Life. The board is a set of live keys, one
natural number per live cell. The model has three parts.

- **Codec** (`codec.dfy`, module `Codec`):
  - The zig-zag fold `bijectIntToNat` is `Fold`, and its inverse `iBijectIntToNat` is `Unfold`.
  - The Cantor pairing `cantor` is `Cantor`, and its inverse `icantor` is `Icantor`.
  - `Cantor` and `Icantor` use the sketch's closed forms `((x + y) * (x + y + 1)) / 2 + y` and `(w * w + w) / 2`.
  - The recursive `Triangle` is the reference definition of the triangular numbers. `TriangleClosedForm` links the two.
  - `Math.floor((Math.sqrt(8p + 1) - 1) / 2)` becomes `Diagonal`, built on an exact integer square root, `FloorSqrt`.
- **Rule** (`rules.dfy`, module `Rules`):
  - `Shift` re-encodes the cell next to a decoded key, as the step's `cantor(cell.x + i, cell.y + j)` does.
  - `Neighbourhood` is the set of the eight keys around a key.
  - B3/S23 is stated declaratively. `Survivors`, `Births` and `NextGen` describe the next generation as a set.
- **Engine** (`engine.dfy`, module `Engine`):
  - `Cogl` is a class with the sketch's two sets `current` and `next` as fields.
  - `ScanNeighbours` is the nested `i`/`j` offset loop with its `continue` at the centre.
  - `LivePhase` and `DeadPhase` are the two loops of `draw`.
  - `Step` runs both phases, then installs `next` as `current` and empties `next`.
  - `Step` is proved to produce `NextGen` of the old generation.
  - The reset seeds the R-pentomino through `Seed`.

The phases iterate over a set in an unspecified order, which stands for JavaScript's
`Set` insertion order. The proofs hold for every order. The dead phase uses the same
`ScanNeighbours` as the live phase and ignores its dead set, because the sketch's
dead-phase loop only counts.

## Model

| member | source | states |
|---|---|---|
| Codec.Fold | 007_cogl/main.js:10-16 | The fold is a natural, and it is even exactly when the input is non-negative. |
| Codec.Unfold | 007_cogl/main.js:18-24 | Folding the unfolded value gives the natural back, and the result is non-negative exactly for even inputs. |
| Codec.UnfoldFold | 007_cogl/main.js:10-24 | Unfolding undoes folding on every integer. |
| Codec.TriangleClosedForm | 007_cogl/main.js:30 | The closed form `(w * w + w) / 2` equals the triangular number 0 + 1 + ... + w. |
| Codec.TriangleGrows | 007_cogl/main.js:34-35 | A later diagonal starts no earlier than the end of an earlier one. |
| Codec.Cantor | 007_cogl/main.js:26-31 | The key of (x, y) lies on diagonal `Fold(x) + Fold(y)`, at position `Fold(y)` within it. |
| Codec.FloorSqrt | 007_cogl/main.js:34 | The result r is the floor square root: `r * r <= n < (r + 1) * (r + 1)`. |
| Codec.DiagonalBounds | 007_cogl/main.js:34 | `(s - 1) / 2` from the floor root s of `8p + 1` is the diagonal whose key range holds p. |
| Codec.Diagonal | 007_cogl/main.js:34 | The computed diagonal w satisfies `Triangle(w) <= p < Triangle(w + 1)`. |
| Codec.DiagonalUnique | 007_cogl/main.js:34 | Exactly one diagonal holds a key. |
| Codec.Icantor | 007_cogl/main.js:33-40 | Encoding the decoded cell gives the key back: `Cantor(Icantor(p)) == p` for every natural p. |
| Codec.IcantorCantor | 007_cogl/main.js:26-40 | Decoding undoes encoding for all integers x and y. |
| Codec.CantorInjective | 007_cogl/main.js:26-40 | Distinct cells get distinct keys. |
| Rules.Shift | 007_cogl/main.js:179-191 | The re-encoded neighbour key decodes to the cell offset by (dx, dy). |
| Rules.ShiftInjective | 007_cogl/main.js:185-191 | Different offsets from one cell give different keys. |
| Rules.ShiftBack | 007_cogl/main.js:185-191 | Shifting by (-dx, -dy) undoes a shift by (dx, dy). |
| Rules.NeighbourhoodShifts | 007_cogl/main.js:185-191 | A key is in the neighbourhood exactly when it is one of the eight non-zero offsets in {-1,0,1}² away. |
| Rules.NeighbourhoodIsMoore | 007_cogl/main.js:185-191 | In decoded coordinates, a key is a neighbour exactly when its cell differs and lies within one step on each axis. |
| Rules.NeighbourhoodSymmetric | 007_cogl/main.js:185-191 | If m is a neighbour of k, then k is a neighbour of m. |
| Rules.NotOwnNeighbour | 007_cogl/main.js:187-189 | The skipped centre means a cell is never its own neighbour. |
| Rules.NeighbourhoodSize | 007_cogl/main.js:185-190 | The loops visit eight distinct neighbour keys. |
| Rules.Survivors | 007_cogl/main.js:200-203 | A live cell survives exactly when it has 2 or 3 live neighbours. |
| Rules.Births | 007_cogl/main.js:225-228 | A candidate is born exactly when it has 3 live neighbours. |
| Rules.BornOnlyNearLife | 007_cogl/main.js:206-229 | A dead cell that the rule brings to life has a live neighbour. |
| Rules.NextGenRule | 007_cogl/main.js:175-231 | A key is in `NextGen` exactly when the rule keeps it or brings it to life. |
| Rules.StepSplit | 007_cogl/main.js:175-231 | When the candidates are exactly the dead cells next to life, survivors plus births equal `NextGen`. |
| Rules.SingletonDies | 007_cogl/main.js:175-231 | A lone live cell dies, and nothing is born around it. |
| Rules.EmptyStaysEmpty | 007_cogl/main.js:175-231 | An empty generation yields an empty generation. |
| Engine.SeedMembers | 007_cogl/main.js:61-72 | A key is in the seed built from a list of cells exactly when it decodes to one of them. |
| Engine.SeedSize | 007_cogl/main.js:61-72 | Pairwise distinct cells give a seed with as many keys as cells. |
| Engine.RPentomino | 007_cogl/main.js:61-72 | The reset seed has five keys. |
| Engine.RPentominoCells | 007_cogl/main.js:61-67 | The reset seed holds exactly the keys of the cells (80,31), (80,32), (80,30), (79,31) and (81,32). |
| Engine.ScanStep | 007_cogl/main.js:187-197 | One pass of the inner loop body skips the centre, counts a live neighbour, or collects a dead one, and keeps the scan state. |
| Engine.ScanNeighbours | 007_cogl/main.js:184-198 | The nested offset loops return the number of live neighbours and the set of dead neighbours. |
| Engine.Cogl.constructor | 007_cogl/main.js:69-74 | A new simulation holds the R-pentomino and an empty `next`. |
| Engine.Cogl.Reset | 007_cogl/main.js:61-74 | A reset replaces both sets: `current` is the R-pentomino and `next` is empty. |
| Engine.Cogl.LivePhase | 007_cogl/main.js:176-204 | Only `next` changes, and it becomes the survivors. `deadTestCells` holds exactly the non-live neighbours of live cells. |
| Engine.Cogl.DeadPhase | 007_cogl/main.js:206-229 | Only `next` changes: the candidates with exactly 3 live neighbours are added to it. |
| Engine.Cogl.Step | 007_cogl/main.js:175-231 | After a step, `current` is `NextGen` of the old `current`, and `next` is empty again. |

## Left out

- Rendering is not modelled: `background`, `translate`, `scale`, `push`/`pop`, `colorMode`, `fill`, `noStroke`, `rect` and `console.log` are p5.js calls with no behaviour on the board (lines 161-173, 180-182, 233-243).
- The hue, `time` and `deltaTime` are floating-point colour and timing, and they do not affect the board (lines 173, 245).
- The pause and single-frame guard of `draw` (lines 158-159) and the frame counter are not modelled. `Step` is one pass through the guarded block.
- Mouse panning, keyboard handling and `toggleSimulationPaused` are not modelled, because they are UI event plumbing (lines 6-8, 79-141).
- The window-size fields of a reset (`xCellCount`, `yCellCount`, `aspectRatio`) and the view fields of `gfx` are not modelled, because the engine never reads them (lines 42-59, 76).
- Codec.Diagonal: JavaScript computes the diagonal with the floating-point `Math.sqrt`. The model uses the exact floor root, so it does not capture IEEE rounding for very large keys.
- Codec.Cantor: JavaScript numbers are doubles. Integers above 2^53 lose precision there, but the model uses unbounded integers.
- Engine.Cogl.Step: the final `new Set([...cogl.next])` copies the set. Sets are values here, so the copy is a plain assignment.
- The other sketches in the repository (`001_basic` to `006_arrays`) are not part of this model. They are floating-point animation demos.
