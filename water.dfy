/**
 The water automaton: particles spawned below the beach line that, in each
 of several passes per frame, fall straight down, else slide down
 diagonally, else spread sideways by one cell, else sometimes by two. Water
 treats the sand grid, handed in by the caller, as solid. Afterwards every
 particle above the beach line is removed.
 */
module Water {
  import opened Occupancy

  /** The random outcomes one particle draws in one pass: the order the
      shuffle puts the two diagonals in, the order it puts the two sideways
      neighbours in, and whether the 0.3 coin for a two-cell hop passes. */
  datatype WaterDraw = WaterDraw(diagonalLeftFirst: bool, sideLeftFirst: bool, hop: bool)

  /** The water list together with its occupancy grid. */
  type Pool = (seq<Cell>, map<Cell, nat>)

  ghost predicate Agrees(w: Pool) {
    Consistent(w.0, w.1)
  }

  /** Cell `c` is on screen and holds neither water nor sand. */
  predicate Open(grid: map<Cell, nat>, sand: map<Cell, nat>, c: Cell, width: int, height: int) {
    0 <= c.x < width && c.y < height && c !in grid && c !in sand
  }

  /** The first of two cells, tried in turn, that is open. */
  function FirstOpen(a: Cell, b: Cell, grid: map<Cell, nat>, sand: map<Cell, nat>, width: int, height: int): (t: Option<Cell>)
    ensures t.Some? ==> (t.value == a || t.value == b) && Open(grid, sand, t.value, width, height)
    ensures t.None? ==> !Open(grid, sand, a, width, height) && !Open(grid, sand, b, width, height)
    ensures Open(grid, sand, a, width, height) ==> t == Some(a)
  {
    if Open(grid, sand, a, width, height) then Some(a)
    else if Open(grid, sand, b, width, height) then Some(b)
    else None
  }

  /** The cells one water move may reach from `p`: straight down, down
      diagonally on screen, or sideways by one or two cells on screen; only
      from above the floor row. */
  predicate WaterMove(p: Cell, q: Cell, width: int, height: int) {
    && p.y < height - 1
    && (|| q == Cell(p.x, p.y + 1)
        || (q.y == p.y + 1 && (q.x == p.x - 1 || q.x == p.x + 1) && 0 <= q.x < width)
        || (q.y == p.y && (q.x == p.x - 1 || q.x == p.x + 1 || q.x == p.x - 2 || q.x == p.x + 2)
            && 0 <= q.x < width))
  }

  /** Where the water particle on `c` goes when a pass reaches it, or None
      when it stays: straight down if free of water and sand; else the first
      open diagonal in shuffled order; else the first open sideways
      neighbour in shuffled order; else, on the hop coin, the first open
      cell two to the left or two to the right. */
  function FlowTarget(grid: map<Cell, nat>, sand: map<Cell, nat>, c: Cell, d: WaterDraw, width: int, height: int): (t: Option<Cell>)
    ensures c.y >= height - 1 ==> t == None
    ensures t.Some? ==> t.value !in grid && t.value !in sand && WaterMove(c, t.value, width, height)
  {
    var below := Cell(c.x, c.y + 1);
    if c.y >= height - 1 then None
    else if below !in grid && below !in sand && below.y < height then Some(below)
    else Spread(grid, sand, c, d, width, height)
  }

  /** The move of a particle whose cell below is blocked. */
  function Spread(grid: map<Cell, nat>, sand: map<Cell, nat>, c: Cell, d: WaterDraw, width: int, height: int): (t: Option<Cell>)
    requires c.y < height - 1
    ensures t.Some? ==> t.value !in grid && t.value !in sand && WaterMove(c, t.value, width, height)
  {
    var (firstDiagonal, secondDiagonal) := DiagonalCandidates(c, d);
    var (firstSide, secondSide) := SideCandidates(c, d);
    var diagonal := FirstOpen(firstDiagonal, secondDiagonal, grid, sand, width, height);
    if diagonal.Some? then diagonal
    else
      var side := FirstOpen(firstSide, secondSide, grid, sand, width, height);
      if side.Some? then side
      else if d.hop then FirstOpen(Cell(c.x - 2, c.y), Cell(c.x + 2, c.y), grid, sand, width, height)
      else None
  }

  /** The shuffle draw decides between open cells of one kind: an open
      diagonal is taken when the draw put it first or the other diagonal is
      closed, and with both diagonals closed, the same holds for the two
      sideways neighbours. */
  lemma DrawDecidesSpread(grid: map<Cell, nat>, sand: map<Cell, nat>, c: Cell, d: WaterDraw, width: int, height: int)
    requires c.y < height - 1
    ensures var t := Spread(grid, sand, c, d, width, height);
            var dl, dr := Cell(c.x - 1, c.y + 1), Cell(c.x + 1, c.y + 1);
            && (Open(grid, sand, dl, width, height) && (d.diagonalLeftFirst || !Open(grid, sand, dr, width, height))
                ==> t == Some(dl))
            && (Open(grid, sand, dr, width, height) && (!d.diagonalLeftFirst || !Open(grid, sand, dl, width, height))
                ==> t == Some(dr))
    ensures var t := Spread(grid, sand, c, d, width, height);
            var closed := !Open(grid, sand, Cell(c.x - 1, c.y + 1), width, height)
                          && !Open(grid, sand, Cell(c.x + 1, c.y + 1), width, height);
            var l, r := Cell(c.x - 1, c.y), Cell(c.x + 1, c.y);
            && (closed && Open(grid, sand, l, width, height) && (d.sideLeftFirst || !Open(grid, sand, r, width, height))
                ==> t == Some(l))
            && (closed && Open(grid, sand, r, width, height) && (!d.sideLeftFirst || !Open(grid, sand, l, width, height))
                ==> t == Some(r))
  {
  }

  /** Straight down wins whenever it is free of water and sand, whatever is
      open diagonally or sideways. */
  lemma StraightDownFirst(grid: map<Cell, nat>, sand: map<Cell, nat>, c: Cell, d: WaterDraw, width: int, height: int)
    requires c.y < height - 1 && Cell(c.x, c.y + 1) !in grid && Cell(c.x, c.y + 1) !in sand
    ensures FlowTarget(grid, sand, c, d, width, height) == Some(Cell(c.x, c.y + 1))
  {
  }

  /** The priority of the other moves: a diagonal only when straight down is
      blocked; sideways only when both diagonals are closed too; a two-cell
      hop only on the hop coin with both one-cell neighbours closed, and to
      the right only when two to the left is closed. */
  lemma SpreadOrder(grid: map<Cell, nat>, sand: map<Cell, nat>, c: Cell, d: WaterDraw, width: int, height: int)
    ensures var t := FlowTarget(grid, sand, c, d, width, height);
            && (t.Some? && t.value != Cell(c.x, c.y + 1) ==> Cell(c.x, c.y + 1) in grid || Cell(c.x, c.y + 1) in sand)
            && (t.Some? && t.value.y == c.y ==>
                  && !Open(grid, sand, Cell(c.x - 1, c.y + 1), width, height)
                  && !Open(grid, sand, Cell(c.x + 1, c.y + 1), width, height))
            && (t.Some? && (t.value.x == c.x - 2 || t.value.x == c.x + 2) ==>
                  && d.hop
                  && !Open(grid, sand, Cell(c.x - 1, c.y), width, height)
                  && !Open(grid, sand, Cell(c.x + 1, c.y), width, height))
            && (t.Some? && t.value.x == c.x + 2 ==> !Open(grid, sand, Cell(c.x - 2, c.y), width, height))
  {
  }

  /** A particle above the floor row stays only when nothing it may try is open. */
  lemma StaysOnlyWhenStuck(grid: map<Cell, nat>, sand: map<Cell, nat>, c: Cell, d: WaterDraw, width: int, height: int)
    requires c.y < height - 1 && FlowTarget(grid, sand, c, d, width, height).None?
    ensures Cell(c.x, c.y + 1) in grid || Cell(c.x, c.y + 1) in sand
    ensures !Open(grid, sand, Cell(c.x - 1, c.y + 1), width, height)
    ensures !Open(grid, sand, Cell(c.x + 1, c.y + 1), width, height)
    ensures !Open(grid, sand, Cell(c.x - 1, c.y), width, height)
    ensures !Open(grid, sand, Cell(c.x + 1, c.y), width, height)
    ensures d.hop ==> !Open(grid, sand, Cell(c.x - 2, c.y), width, height)
                      && !Open(grid, sand, Cell(c.x + 2, c.y), width, height)
  {
  }

  /** The two diagonal cells below `c`, in the order the shuffle drew. */
  function DiagonalCandidates(c: Cell, d: WaterDraw): (Cell, Cell) {
    var belowLeft, belowRight := Cell(c.x - 1, c.y + 1), Cell(c.x + 1, c.y + 1);
    if d.diagonalLeftFirst then (belowLeft, belowRight) else (belowRight, belowLeft)
  }

  /** The two sideways neighbours of `c`, in the order the shuffle drew. */
  function SideCandidates(c: Cell, d: WaterDraw): (Cell, Cell) {
    var left, right := Cell(c.x - 1, c.y), Cell(c.x + 1, c.y);
    if d.sideLeftFirst then (left, right) else (right, left)
  }

  /** Moves water particle `i` into the free cell `to`, in the list and in the grid. */
  function MoveDrop(w: Pool, i: nat, to: Cell): (r: Pool)
    requires Agrees(w) && i < |w.0| && to !in w.1
    ensures Agrees(r)
    ensures r.0 == w.0[i := to]
    ensures r.1 == Relocate(w.1, w.0[i], to, i)
  {
    MovePreservesConsistent(w.0, w.1, i, to);
    (w.0[i := to], Relocate(w.1, w.0[i], to, i))
  }

  /** Water particle `q` is particle `p` after at most one move that keeps
      clear of `sand`. */
  predicate Flowed(p: Cell, q: Cell, sand: map<Cell, nat>, width: int, height: int) {
    q == p || (q !in sand && WaterMove(p, q, width, height))
  }

  /** The effect of processing water particle `i` once. */
  function FlowParticle(w: Pool, sand: map<Cell, nat>, i: nat, d: WaterDraw, width: int, height: int): (r: Pool)
    requires Agrees(w) && i < |w.0|
    ensures Agrees(r) && |r.0| == |w.0|
    ensures Flowed(w.0[i], r.0[i], sand, width, height)
    ensures forall j :: 0 <= j < |w.0| && j != i ==> r.0[j] == w.0[j]
  {
    match FlowTarget(w.1, sand, w.0[i], d, width, height)
    case None => w
    case Some(to) => MoveDrop(w, i, to)
  }

  // ----- Passes -----

  /** The water after one pass has visited the particles listed in `order`,
      the k-th visited one drawing `draws(k)`. */
  function FlowPass(w: Pool, sand: map<Cell, nat>, order: seq<nat>, draws: nat -> WaterDraw, width: int, height: int): (r: Pool)
    requires Agrees(w)
    requires forall k :: 0 <= k < |order| ==> order[k] < |w.0|
    ensures Agrees(r) && |r.0| == |w.0|
    decreases |order|
  {
    if order == [] then w
    else
      var n := |order| - 1;
      var mid := FlowPass(w, sand, order[..n], draws, width, height);
      FlowParticle(mid, sand, order[n], draws(n), width, height)
  }

  /** Visiting one more particle extends a pass by one `FlowParticle` step. */
  lemma FlowPassStep(w: Pool, sand: map<Cell, nat>, order: seq<nat>, k: nat, draws: nat -> WaterDraw, width: int, height: int)
    requires Agrees(w) && k < |order|
    requires forall m :: 0 <= m < |order| ==> order[m] < |w.0|
    ensures var mid := FlowPass(w, sand, order[..k], draws, width, height);
            FlowPass(w, sand, order[..k + 1], draws, width, height)
            == FlowParticle(mid, sand, order[k], draws(k), width, height)
  {
    assert order[..k + 1][..k] == order[..k];
  }

  /** In one pass a particle the pass does not visit stays put, and one it
      visits once moves at most once, never into sand. */
  lemma PassMovesEachDropOnce(w: Pool, sand: map<Cell, nat>, order: seq<nat>, draws: nat -> WaterDraw, width: int, height: int)
    requires Agrees(w)
    requires forall k :: 0 <= k < |order| ==> order[k] < |w.0|
    requires forall k, l :: 0 <= k < l < |order| ==> order[k] != order[l]
    ensures var r := FlowPass(w, sand, order, draws, width, height);
            forall j :: 0 <= j < |w.0| ==>
              && (j !in order ==> r.0[j] == w.0[j])
              && (j in order ==> Flowed(w.0[j], r.0[j], sand, width, height))
  {
    forall j | 0 <= j < |w.0| {
      PassMovesDropOnce(w, sand, order, draws, width, height, j);
    }
  }

  /** `PassMovesEachDropOnce` for the one particle `j`. */
  lemma {:induction false} PassMovesDropOnce(w: Pool, sand: map<Cell, nat>, order: seq<nat>, draws: nat -> WaterDraw, width: int, height: int, j: nat)
    requires Agrees(w) && j < |w.0|
    requires forall k :: 0 <= k < |order| ==> order[k] < |w.0|
    requires forall k, l :: 0 <= k < l < |order| ==> order[k] != order[l]
    ensures var r := FlowPass(w, sand, order, draws, width, height);
            && (j !in order ==> r.0[j] == w.0[j])
            && (j in order ==> Flowed(w.0[j], r.0[j], sand, width, height))
    decreases |order|
  {
    if order != [] {
      var n := |order| - 1;
      var prefix := order[..n];
      PassMovesDropOnce(w, sand, prefix, draws, width, height, j);
      if j == order[n] {
        assert j !in prefix;
      } else {
        assert j in order <==> j in prefix by {
          assert order == prefix + [order[n]];
        }
      }
    }
  }

  /** Water particle `q` is particle `p` after any number of moves: it has
      not risen, it stands clear of `sand` if it moved, and it did not move
      at all if it started on or below the floor row. */
  predicate Sank(p: Cell, q: Cell, sand: map<Cell, nat>, height: int) {
    q.y >= p.y && (q == p || q !in sand) && (p.y >= height - 1 ==> q == p)
  }

  /** The water after `n` passes, each visiting every particle bottom-up,
      pass `it` drawing from `draws(it)`. */
  function FlowPasses(w: Pool, sand: map<Cell, nat>, draws: nat -> nat -> WaterDraw, n: nat, width: int, height: int): (r: Pool)
    requires Agrees(w)
    ensures Agrees(r) && |r.0| == |w.0|
    ensures forall j :: 0 <= j < |w.0| ==> Sank(w.0[j], r.0[j], sand, height)
  {
    if n == 0 then w
    else
      var mid := FlowPasses(w, sand, draws, n - 1, width, height);
      PassNeverLiftsDrops(mid, sand, draws(n - 1), width, height);
      FlowPass(mid, sand, BottomUpOrder(mid.0), draws(n - 1), width, height)
  }

  /** One bottom-up pass lifts no particle, moves none into sand and leaves
      a particle on the floor row where it is. */
  lemma PassNeverLiftsDrops(w: Pool, sand: map<Cell, nat>, draws: nat -> WaterDraw, width: int, height: int)
    requires Agrees(w)
    ensures var r := FlowPass(w, sand, BottomUpOrder(w.0), draws, width, height);
            forall j :: 0 <= j < |w.0| ==> Sank(w.0[j], r.0[j], sand, height)
  {
    var order := BottomUpOrder(w.0);
    BottomUpOrderVisitsAll(w.0);
    PassMovesEachDropOnce(w, sand, order, draws, width, height);
    var r := FlowPass(w, sand, order, draws, width, height);
    forall j | 0 <= j < |w.0| ensures Sank(w.0[j], r.0[j], sand, height) {
      assert j in order;
      FlowedNeverRises(w.0[j], r.0[j], sand, width, height);
    }
  }

  /** A particle that flowed did not rise, stands clear of sand if it moved,
      and had to start above the floor row to move at all. */
  lemma FlowedNeverRises(p: Cell, q: Cell, sand: map<Cell, nat>, width: int, height: int)
    requires Flowed(p, q, sand, width, height)
    ensures Sank(p, q, sand, height)
  {
  }

  // ----- Removal above the beach line -----

  /** The particles at or below the beach line, in list order. */
  function Kept(cells: seq<Cell>, beachY: int): (r: seq<Cell>)
    ensures |r| <= |cells|
    ensures forall c :: c in r <==> c in cells && c.y >= beachY
    ensures (forall k :: 0 <= k < |cells| ==> cells[k].y >= beachY) ==> r == cells
  {
    if cells == [] then []
    else
      var n := |cells| - 1;
      var rest := Kept(cells[..n], beachY);
      assert cells == cells[..n] + [cells[n]];
      if cells[n].y >= beachY then rest + [cells[n]] else rest
  }

  /** Looking at one more particle extends the kept list by it exactly when
      it is at or below the beach line. */
  lemma KeptExtend(cells: seq<Cell>, i: nat, beachY: int)
    requires i < |cells|
    ensures Kept(cells[..i + 1], beachY)
            == if cells[i].y >= beachY then Kept(cells[..i], beachY) + [cells[i]] else Kept(cells[..i], beachY)
  {
    assert cells[..i + 1][..i] == cells[..i];
  }

  /** Every pass keeps water at or below the beach line if it starts there,
      so removal after the passes takes nothing away from such water. */
  lemma PassesKeepWaterOnBeach(w: Pool, sand: map<Cell, nat>, draws: nat -> nat -> WaterDraw, n: nat, beachY: int, width: int, height: int)
    requires Agrees(w)
    requires forall j :: 0 <= j < |w.0| ==> w.0[j].y >= beachY
    ensures var r := FlowPasses(w, sand, draws, n, width, height);
            Kept(r.0, beachY) == r.0
  {
  }

  /** Midway through removal, after the first `i` particles: the particles
      kept so far are indexed by their new position, the ones not yet
      looked at by their old one. */
  ghost predicate RemovalUpTo(cells: seq<Cell>, i: nat, kept: seq<Cell>, g: map<Cell, nat>) {
    && i <= |cells| && |kept| <= i
    && (forall m :: 0 <= m < |kept| ==> kept[m] in g && g[kept[m]] == m)
    && (forall j :: i <= j < |cells| ==> cells[j] in g && g[cells[j]] == j)
    && (forall c :: c in g ==>
          (g[c] < |kept| && kept[g[c]] == c) || (i <= g[c] < |cells| && cells[g[c]] == c))
  }

  /** Before removal looks at any particle, every one is indexed by its old position. */
  lemma RemovalStart(cells: seq<Cell>, grid: map<Cell, nat>)
    requires Consistent(cells, grid)
    ensures RemovalUpTo(cells, 0, [], grid)
  {
  }

  /** Once removal has looked at every particle, the kept list and the new
      grid agree, and the grid holds exactly the old keys at or below the
      beach line. */
  lemma RemovalDone(cells: seq<Cell>, grid: map<Cell, nat>, kept: seq<Cell>, g: map<Cell, nat>, beachY: int)
    requires Consistent(cells, grid)
    requires RemovalUpTo(cells, |cells|, kept, g) && kept == Kept(cells[..|cells|], beachY)
    ensures Consistent(kept, g)
    ensures forall c :: c in g <==> c in grid && c.y >= beachY
  {
    assert cells[..|cells|] == cells;
    KeysAreCells(cells, grid);
    KeysAreCells(kept, g);
  }

  /** Looking at one more particle: one above the beach line loses its key,
      one at or below it is re-indexed at the end of the kept list. */
  lemma RemovalStep(cells: seq<Cell>, i: nat, kept: seq<Cell>, g: map<Cell, nat>, beachY: int)
    requires RemovalUpTo(cells, i, kept, g) && i < |cells|
    ensures var c := cells[i];
            if c.y < beachY then RemovalUpTo(cells, i + 1, kept, g - {c})
            else RemovalUpTo(cells, i + 1, kept + [c], g[c := |kept|])
  {
    var c := cells[i];
    assert g[c] == i;
    if c.y < beachY {
      var g' := g - {c};
      forall d | d in g'
        ensures (g'[d] < |kept| && kept[g'[d]] == d) || (i + 1 <= g'[d] < |cells| && cells[g'[d]] == d)
      {
        assert g[d] != i;
      }
    } else {
      var g', kept' := g[c := |kept|], kept + [c];
      forall m | 0 <= m < |kept'| ensures kept'[m] in g' && g'[kept'[m]] == m {
        if m < |kept| {
          assert kept[m] != c;
        }
      }
      forall d | d in g'
        ensures (g'[d] < |kept'| && kept'[g'[d]] == d) || (i + 1 <= g'[d] < |cells| && cells[g'[d]] == d)
      {
        if d != c {
          assert g[d] != i;
        }
      }
    }
  }

  // ----- The simulator object -----

  class WaterSimulator {
    const beachY: int
    const width: int
    const height: int
    var particles: seq<Cell>
    var grid: map<Cell, nat>

    /** The water list and the water grid agree. */
    ghost predicate Valid()
      reads this
    {
      Agrees((particles, grid))
    }

    constructor (beachY: int, width: int, height: int)
      ensures Valid()
      ensures this.beachY == beachY && this.width == width && this.height == height
      ensures particles == [] && grid == map[]
    {
      this.beachY := beachY;
      this.width := width;
      this.height := height;
      particles := [];
      grid := map[];
    }

    /** Spawns water on (x, y), unless (x, y) is above the beach line or
        already holds water. */
    method AddWater(x: int, y: int)
      requires Valid()
      modifies this
      ensures Valid()
      ensures y < beachY || Cell(x, y) in old(grid) ==> particles == old(particles) && grid == old(grid)
      ensures !(y < beachY || Cell(x, y) in old(grid)) ==>
                && particles == old(particles) + [Cell(x, y)]
                && grid == old(grid)[Cell(x, y) := |old(particles)|]
    {
      if y < beachY {
        return;
      }
      if Cell(x, y) in grid {
        return;
      }
      AppendPreservesConsistent(particles, grid, Cell(x, y));
      particles := particles + [Cell(x, y)];
      grid := grid[Cell(x, y) := |particles| - 1];
    }

    /** Whether water stands on (x, y). */
    function IsWaterAt(x: int, y: int): (b: bool)
      reads this
      requires Valid()
      ensures b <==> Cell(x, y) in particles
    {
      KeysAreCells(particles, grid);
      Cell(x, y) in grid
    }

    /** Whether (x, y) holds water or sand. */
    function IsPositionBlocked(x: int, y: int, sandGrid: map<Cell, nat>): (b: bool)
      reads this
      requires Valid()
      ensures b <==> Cell(x, y) in particles || Cell(x, y) in sandGrid
    {
      KeysAreCells(particles, grid);
      Cell(x, y) in grid || Cell(x, y) in sandGrid
    }

    /** Removes every particle above the beach line from the list and the grid. */
    method RemoveWaterAtTop()
      requires Valid()
      modifies this
      ensures Valid()
      ensures particles == Kept(old(particles), beachY)
      ensures forall c :: c in grid <==> c in old(grid) && c.y >= beachY
    {
      var cells, kept: seq<Cell> := particles, [];
      var oldGrid, g: map<Cell, nat> := grid, grid;
      RemovalStart(cells, g);
      for i := 0 to |cells|
        invariant kept == Kept(cells[..i], beachY)
        invariant RemovalUpTo(cells, i, kept, g)
      {
        var c := cells[i];
        KeptExtend(cells, i, beachY);
        RemovalStep(cells, i, kept, g, beachY);
        if c.y < beachY {
          g := g - {c};
        } else {
          g := g[c := |kept|];
          kept := kept + [c];
        }
      }
      assert cells[..|cells|] == cells;
      RemovalDone(cells, oldGrid, kept, g, beachY);
      particles, grid := kept, g;
    }

    /** `iterations` passes, each visiting every particle bottom-up, then
        removal above the beach line; `draws(it)(k)` is what the k-th visited
        particle of pass `it` draws. */
    method Update(sandGrid: map<Cell, nat>, iterations: int, draws: nat -> nat -> WaterDraw)
      requires Valid()
      modifies this
      ensures Valid()
      ensures var n := if iterations < 0 then 0 else iterations;
              particles == Kept(FlowPasses((old(particles), old(grid)), sandGrid, draws, n, width, height).0, beachY)
      ensures forall c :: c in particles ==> c.y >= beachY
    {
      ghost var w0 := (particles, grid);
      var n := if iterations < 0 then 0 else iterations;
      for it := 0 to n
        invariant Valid() && |particles| == |w0.0|
        invariant (particles, grid) == FlowPasses(w0, sandGrid, draws, it, width, height)
      {
        FlowOnce(sandGrid, draws(it));
      }
      ghost var flowed := particles;
      RemoveWaterAtTop();
      assert particles == Kept(flowed, beachY);
    }

    /** One pass: every particle once, bottom-up, the k-th visited one
        drawing `draws(k)`. */
    method FlowOnce(sandGrid: map<Cell, nat>, draws: nat -> WaterDraw)
      requires Valid()
      modifies this
      ensures Valid() && |particles| == |old(particles)|
      ensures (particles, grid) == FlowPass((old(particles), old(grid)), sandGrid, BottomUpOrder(old(particles)), draws, width, height)
    {
      ghost var w1 := (particles, grid);
      var order := BottomUpOrder(particles);
      for k := 0 to |order|
        invariant Valid() && |particles| == |w1.0|
        invariant (particles, grid) == FlowPass(w1, sandGrid, order[..k], draws, width, height)
      {
        FlowPassStep(w1, sandGrid, order, k, draws, width, height);
        UpdateParticle(order[k], sandGrid, draws(k));
      }
      assert order[..|order|] == order;
    }

    /** Processes water particle `i` once. */
    method UpdateParticle(i: nat, sandGrid: map<Cell, nat>, d: WaterDraw)
      requires Valid() && i < |particles|
      modifies this
      ensures Valid()
      ensures (particles, grid) == FlowParticle((old(particles), old(grid)), sandGrid, i, d, width, height)
    {
      var p := particles[i];
      if p.y >= height - 1 {
        return;
      }
      var below := Cell(p.x, p.y + 1);
      if below !in grid && below !in sandGrid && below.y < height {
        MoveParticle(i, below);
        return;
      }
      var (firstDiagonal, secondDiagonal) := DiagonalCandidates(p, d);
      var moved := MoveToFirstOpen(i, firstDiagonal, secondDiagonal, sandGrid);
      if moved {
        return;
      }
      var (firstSide, secondSide) := SideCandidates(p, d);
      moved := MoveToFirstOpen(i, firstSide, secondSide, sandGrid);
      if moved {
        return;
      }
      if d.hop {
        // a hop stays on the particle's row, above the floor row, so the
        // vertical bound that MoveToFirstOpen also checks always holds
        moved := MoveToFirstOpen(i, Cell(p.x - 2, p.y), Cell(p.x + 2, p.y), sandGrid);
      }
    }

    /** Tries `first`, then `second`, and moves particle `i` into the first
        of them that is on screen and free of water and sand. */
    method MoveToFirstOpen(i: nat, first: Cell, second: Cell, sandGrid: map<Cell, nat>) returns (moved: bool)
      requires Valid() && i < |particles|
      modifies this
      ensures Valid()
      ensures var t := FirstOpen(first, second, old(grid), sandGrid, width, height);
              && moved == t.Some?
              && (particles, grid) == (if moved then MoveDrop((old(particles), old(grid)), i, t.value)
                                       else (old(particles), old(grid)))
    {
      var cands := [first, second];
      assert cands[0] == first && cands[1] == second;
      for k := 0 to |cands|
        invariant particles == old(particles) && grid == old(grid)
        invariant forall m :: 0 <= m < k ==> !Open(grid, sandGrid, cands[m], width, height)
      {
        var pos := cands[k];
        if 0 <= pos.x < width && pos.y < height && pos !in grid && pos !in sandGrid {
          MoveParticle(i, pos);
          return true;
        }
      }
      return false;
    }

    method MoveParticle(i: nat, to: Cell)
      requires Valid() && i < |particles| && to !in grid
      modifies this
      ensures Valid()
      ensures (particles, grid) == MoveDrop((old(particles), old(grid)), i, to)
    {
      MovePreservesConsistent(particles, grid, i, to);
      grid := Relocate(grid, particles[i], to, i);
      particles := particles[i := to];
    }
  }
}
