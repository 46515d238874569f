# Chill Beach sand and water automata in Dafny

This project models the two particle automata of the Chill Beach toy:
- the sand simulator, `SandSimulator` in `src/chill_game/sand.py`;
- the water simulator, `WaterSimulator` in `src/chill_game/water.py`.

Each simulator keeps two structures that must agree:
- a list of particles;
- a sparse grid from a cell `(x, y)` to the particle standing on it.

Particles are spawned below the beach line. Each frame, every particle gets one gravity pass, lowest row first. Water runs several passes per frame and then removes any particle above the beach line.

## Layout

- `occupancy.dfy`, module `Occupancy`: the pieces both simulators share.
  - `Cell`.
  - The agreement invariant `Consistent(cells, grid)`. The grid maps a cell to the list index of its particle; the index stands for the Python object the grid stores.
  - The grid edit a move performs, `Relocate`.
  - The bottom-up visiting order. This is Python's stable `sorted(..., key=-y)`, computed by insertion sort (`BottomUpOrder`).
- `sand.dfy`, module `Sand`:
  - the grain record and the palette;
  - the gravity rule for one grain (`GrainTarget`) and for a whole pass (`GravityPass`), written as functions;
  - the class `SandSimulator`. Its methods update `particles`, `grid` and `currentColorIdx` in place and are proved equal to those functions.
- `water.dfy`, module `Water`:
  - the water rule for one particle (`FlowTarget`), one pass (`FlowPass`) and `n` passes (`FlowPasses`);
  - removal above the beach line (`Kept`);
  - the class `WaterSimulator`. Its `Update` runs the nested loops of the source, and `UpdateParticle` runs the early-return search over candidate cells.

The random module becomes explicit inputs:
- A sand pass takes `coins: nat -> bool`. `coins(k)` is the 0.5 coin drawn by the k-th grain the pass visits.
- A water update takes `draws: nat -> nat -> WaterDraw`. `draws(it)(k)` is what the k-th particle visited in pass `it` draws:
  - the order of the shuffled diagonals;
  - the order of the shuffled sideways neighbours;
  - whether the 0.3 coin for the two-cell hop passes.

`pyxel.width` and `pyxel.height` are constructor parameters. The game runs at 128 by 128 (`src/chill_game/main.py:13`) with the beach line at 40 + 25 = 65 (`src/chill_game/main.py:16-18`).

## Model

| member | source | states |
|---|---|---|
| Occupancy.ConsistentIsInjective | src/chill_game/sand.py:34-39 | when list and grid agree, no two particles share a cell |
| Occupancy.KeysAreCells | src/chill_game/water.py:36-38 | a cell is a grid key exactly when some listed particle stands on it |
| Occupancy.GridDeterminedByCells | src/chill_game/water.py:20-22 | two grids that agree with the same list are equal: the grid carries no information of its own |
| Occupancy.GridSize | src/chill_game/sand.py:16-18 | the grid holds exactly one key per particle |
| Occupancy.Relocate | src/chill_game/sand.py:69-72 | deleting the old key and entering the new one leaves the other keys and their particles untouched and maps the new key to the moved particle |
| Occupancy.MovePreservesConsistent | src/chill_game/sand.py:67-72 | moving a particle into a cell that is not a key keeps list and grid in agreement |
| Occupancy.AppendPreservesConsistent | src/chill_game/sand.py:37-39 | appending a particle on a cell that is not a key, and entering that key, keeps list and grid in agreement |
| Occupancy.BottomUpOrder | src/chill_game/sand.py:44 | the visiting order has one entry per particle, each a valid index |
| Occupancy.InsertByDepthSorted | src/chill_game/sand.py:44 | inserting a new largest index into a deepest-first order keeps it deepest-first (lower row first, list order within a row) and adds exactly that index |
| Occupancy.SortPrefixSorted | src/chill_game/sand.py:44 | sorting the first `n` particles lists exactly the indices below `n`, deepest first |
| Occupancy.BottomUpOrderVisitsAll | src/chill_game/water.py:56 | the order is a stable sort on `-y`: every particle exactly once, lowest row first, list order within a row |
| Sand.NextColorIndex | src/chill_game/sand.py:26-27 | the cycled color index stays within the three-color palette and differs from the old one |
| Sand.CycleThreeTimes | src/chill_game/sand.py:26-27 | three color cycles return to the starting color |
| Sand.GrainTarget | src/chill_game/sand.py:47-65 | a grain on or below the floor row stays. A target is free and one row lower, with `y < height`. Straight down wins whenever free, coin or not, with no bound on x. A diagonal needs the coin and a blocked cell below. Down-left needs `x-1 >= 0` and down-right needs `x+1 < width`. When down-left is available the outcome is down-left on a winning coin and nothing otherwise, so down-right is never tried. When down-left is not available but down-right is, the outcome is down-right on a winning coin and nothing otherwise. A grain above the floor stays only when below is taken and either the coin fails or both diagonals are unavailable |
| Sand.MoveGrain | src/chill_game/sand.py:67-72 | the moved grain takes the new cell and keeps its color, every other grain is unchanged, the grid is relocated, and list and grid still agree |
| Sand.SettleGrain | src/chill_game/sand.py:46-65 | processing one grain falls it at most one cell (same color, one row down with `y < height`; the same column, one to the left with `x >= 0`, or one to the right with `x < width`), leaves all other grains alone, and keeps list and grid in agreement |
| Sand.GravityPass | src/chill_game/sand.py:46-65 | a pass keeps list and grid in agreement and adds or removes no grain |
| Sand.GravityPassStep | src/chill_game/sand.py:46-47 | visiting one more grain of the order extends the pass by exactly one `SettleGrain` step with that grain's coin |
| Sand.PassMovesEachGrainOnce | src/chill_game/sand.py:44-65 | in a pass visiting each grain at most once, an unvisited grain stays put and a visited one falls at most one cell, keeping its color |
| Sand.PassMovesGrainOnce | src/chill_game/sand.py:44-65 | the same, for a single grain, by induction on the visits |
| Sand.PassKeepsGrainsOnBeach | src/chill_game/sand.py:41-65 | a bottom-up pass moves each grain at most once, never lifts one, keeps every color, so grains stay at or below the beach line |
| Sand.PassKeepsSandboxValid | src/chill_game/sand.py:41-65 | after a pass every grain is still at or below the beach line and painted from the palette |
| Sand.LoneGrainFalls | src/chill_game/sand.py:55-57 | a lone grain above the floor row falls exactly one cell straight down, whatever the coins |
| Sand.SandSimulator.constructor | src/chill_game/sand.py:14-20 | a new simulator has no grains, an empty grid, the three-color palette and color index 0 |
| Sand.SandSimulator.CurrentColor | src/chill_game/sand.py:22-24 | the current color is one of the palette colors |
| Sand.SandSimulator.CycleColor | src/chill_game/sand.py:26-27 | the color index advances modulo the palette size, grains and grid untouched |
| Sand.SandSimulator.AddSand | src/chill_game/sand.py:29-39 | nothing changes when `y` is above the beach line or the cell is taken. Otherwise exactly one grain in the current color is appended at `(x, y)`, and that cell maps to it |
| Sand.SandSimulator.Update | src/chill_game/sand.py:41-65 | the in-place loop over the sorted snapshot ends in the state `GravityPass` gives for the bottom-up order, keeping the simulator invariant and the color index |
| Sand.SandSimulator.SettleParticle | src/chill_game/sand.py:47-65 | the loop body for one grain has the effect `SettleGrain` describes |
| Sand.SandSimulator.MoveParticle | src/chill_game/sand.py:67-72 | delete the old key, move the grain, insert the new key: the result is `MoveGrain` |
| Water.FirstOpen | src/chill_game/water.py:84-87 | of two candidates tried in turn, the result is the first that is on screen and free of water and sand, or none when neither is |
| Water.FlowTarget | src/chill_game/water.py:64-109 | a particle on or below the floor row stays. Every target is free of water and free of sand, and is one of: straight down; down-left or down-right on screen; one or two cells sideways on screen |
| Water.Spread | src/chill_game/water.py:80-109 | when straight down is blocked, any target is free of water and sand and is a diagonal or sideways water move |
| Water.DrawDecidesSpread | src/chill_game/water.py:80-100 | the shuffle draw decides between open cells: an open diagonal is taken when it was drawn first or the other diagonal is closed; with both diagonals closed, an open side is taken when it was drawn first or the other side is closed |
| Water.StraightDownFirst | src/chill_game/water.py:75-78 | a particle above the floor row whose cell below is free in both grids always goes straight down |
| Water.SpreadOrder | src/chill_game/water.py:80-109 | move priority: a diagonal or sideways move only when straight down is blocked; sideways only when both diagonals are closed; a two-cell hop only on the hop coin with both one-cell neighbours closed; `+2` only when `-2` is closed |
| Water.StaysOnlyWhenStuck | src/chill_game/water.py:64-109 | a particle above the floor row stays only when below, both diagonals, both sides and (on the hop coin) both two-cell hops are closed |
| Water.MoveDrop | src/chill_game/water.py:111-116 | moving a drop rewrites its cell in the list and relocates its key, keeping list and grid in agreement |
| Water.FlowParticle | src/chill_game/water.py:64-109 | processing one particle moves it at most once, never into sand, leaves all others alone and keeps list and grid in agreement |
| Water.FlowPass | src/chill_game/water.py:56-59 | a pass keeps list and grid in agreement and adds or removes no particle |
| Water.FlowPassStep | src/chill_game/water.py:58-59 | visiting one more particle of the order extends the pass by exactly one `FlowParticle` step with that particle's draw |
| Water.PassMovesEachDropOnce | src/chill_game/water.py:56-59 | in a pass visiting each particle at most once, an unvisited particle stays put and a visited one makes at most one water move, never into sand |
| Water.PassMovesDropOnce | src/chill_game/water.py:56-59 | the same, for a single particle, by induction on the visits |
| Water.PassNeverLiftsDrops | src/chill_game/water.py:56-59 | a bottom-up pass lifts no particle, moves none into sand and leaves particles on the floor row in place |
| Water.FlowPasses | src/chill_game/water.py:54-59 | over any number of passes, list and grid agree, no particle is lost or rises, a moved particle is off the sand grid, and a particle on the floor row never moves |
| Water.FlowedNeverRises | src/chill_game/water.py:64-109 | one water move never rises, never enters sand and starts above the floor row |
| Water.Kept | src/chill_game/water.py:44-50 | removal keeps exactly the cells at or below the beach line, never lengthens the list, and is the identity when none is above it |
| Water.KeptExtend | src/chill_game/water.py:46-50 | looking at one more particle keeps it exactly when it is at or below the beach line |
| Water.PassesKeepWaterOnBeach | src/chill_game/water.py:52-62 | water that starts at or below the beach line is still there after any number of passes, so the removal that follows takes nothing away |
| Water.RemovalStep | src/chill_game/water.py:47-50 | one removal step drops the key of a particle above the beach line or re-indexes a kept one, keeping the partial agreement |
| Water.RemovalDone | src/chill_game/water.py:44-50 | after removal the kept list and new grid agree, and the grid keeps exactly the old keys at or below the beach line |
| Water.WaterSimulator.constructor | src/chill_game/water.py:18-22 | a new simulator has no particles and an empty grid |
| Water.WaterSimulator.AddWater | src/chill_game/water.py:24-34 | nothing changes when `y` is above the beach line or the cell already holds water. Otherwise exactly one particle is appended at `(x, y)`, and that cell maps to it |
| Water.WaterSimulator.IsWaterAt | src/chill_game/water.py:36-38 | true exactly when a water particle stands on `(x, y)` |
| Water.WaterSimulator.IsPositionBlocked | src/chill_game/water.py:40-42 | true exactly when water stands on `(x, y)` or the cell is a key of the sand grid |
| Water.WaterSimulator.RemoveWaterAtTop | src/chill_game/water.py:44-50 | the list becomes `Kept` of the old list, the grid keeps exactly the old keys at or below the beach line, and list and grid still agree |
| Water.WaterSimulator.Update | src/chill_game/water.py:52-62 | the state after `max(iterations, 0)` bottom-up passes followed by removal is `Kept` of `FlowPasses`; afterwards no particle is above the beach line |
| Water.WaterSimulator.FlowOnce | src/chill_game/water.py:56-59 | the loop over the sorted snapshot ends in the state `FlowPass` gives for the bottom-up order |
| Water.WaterSimulator.UpdateParticle | src/chill_game/water.py:64-109 | the early-return search has the effect `FlowParticle` describes |
| Water.WaterSimulator.MoveToFirstOpen | src/chill_game/water.py:84-87 | the loop over two candidates moves the particle into the one `FirstOpen` picks and reports whether it moved |
| Water.WaterSimulator.MoveParticle | src/chill_game/water.py:111-116 | delete the old key, move the particle, insert the new key: the result is `MoveDrop` |

## Left out

- Rendering is not modelled: both `draw` methods, `main.py`'s drawing and input polling, `sea.py` (float wave animation) and `settings.py` (the keyboard settings screen).
- `WaterParticle`'s random color (`water.py:11-14`) only affects drawing, so a water particle is just its cell.
- `config.py` is not part of this model. Values such as the two water passes per frame (the default `iterations = 2` of `water.py:52`) are parameters.
- Probabilities are not modelled. Every random outcome is an input, so every property holds for every outcome.
- Sand draws its 0.5 coin only when it reaches a diagonal branch, but the model gives every visited grain a coin. Unused coins have no effect, so the reachable states are the same.
- Python object identity is modelled by the list index. `WaterSimulator.RemoveWaterAtTop` is one pass that keeps or drops each particle and re-indexes the survivors' keys. The source first collects the particles to drop, then deletes their keys and removes them one at a time. Both end with the same list and the same set of keys.
- The sand code has no removal above the beach line, so the model has none. Instead it proves that grains never rise, so they stay at or below the beach line.
- Sand treats only its own grid as solid and ignores water. Water treats both grids as solid. The model keeps this asymmetry and says nothing about cells holding both materials.
- `update(sand_grid, ...)` leaving `sand_grid` unchanged needs no proof: the sand grid is an immutable map value passed in.
- Occupancy.BottomUpOrder: its own contract gives only length and index bounds. Sortedness and "each index exactly once" are the separate lemma `Occupancy.BottomUpOrderVisitsAll`.
- Horizontal bounds hold only where the source checks them. Sand's straight-down move has no x bound (`sand.py:55`), down-left checks only `x-1 >= 0` and down-right only `x+1 < width`. `main.py:42-44` can spawn a grain at a negative x. So the model promises "moves stay on screen" for y only, plus these one-sided x bounds.
