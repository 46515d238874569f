/**
 The sand automaton: grains with a palette color, spawned below the beach
 line, falling one cell per gravity pass straight down or, on a coin, down
 diagonally. The grid of grains is kept in agreement with the grain list.
 */
module Sand {
  import opened Occupancy

  /** One grain: its cell and its palette color. */
  datatype SandParticle = SandParticle(x: int, y: int, color: int) {
    function At(): Cell { Cell(x, y) }
  }

  /** The cells the grains stand on, in list order. */
  function Cells(ps: seq<SandParticle>): (cs: seq<Cell>)
    ensures |cs| == |ps| && forall i :: 0 <= i < |ps| ==> cs[i] == ps[i].At()
  {
    seq(|ps|, i requires 0 <= i < |ps| => ps[i].At())
  }

  /** The grain list together with its occupancy grid. */
  type Sandbox = (seq<SandParticle>, map<Cell, nat>)

  ghost predicate Agrees(s: Sandbox) {
    Consistent(Cells(s.0), s.1)
  }

  // ----- Palette -----

  /** The palette new grains are painted from: beige, yellow, orange. */
  const Palette: seq<int> := [15, 10, 9]

  /** The palette index after one color-cycle command. */
  function NextColorIndex(idx: nat): (r: nat)
    requires idx < |Palette|
    ensures r < |Palette|
    ensures r != idx
  {
    (idx + 1) % |Palette|
  }

  /** Cycling the color three times comes back to the color one started from. */
  lemma CycleThreeTimes(idx: nat)
    requires idx < |Palette|
    ensures NextColorIndex(NextColorIndex(NextColorIndex(idx))) == idx
  {
  }

  // ----- One grain -----

  /** Where the grain on cell `c` goes when a pass reaches it, or None when
      it stays: straight down if that cell is free (with no bound on x);
      otherwise, on a winning coin, down-left if free and `x - 1 >= 0`; and
      only when down-left is not available, down-right if free and
      `x + 1 < width`. */
  function GrainTarget(grid: map<Cell, nat>, c: Cell, coin: bool, width: int, height: int): (t: Option<Cell>)
    ensures c.y >= height - 1 ==> t == None
    ensures t.Some? ==> t.value !in grid && t.value.y == c.y + 1 && t.value.y < height
    ensures c.y < height - 1 && Cell(c.x, c.y + 1) !in grid ==> t == Some(Cell(c.x, c.y + 1))
    ensures t.Some? && t.value.x != c.x ==> coin && Cell(c.x, c.y + 1) in grid
    ensures t.Some? ==> t.value.x == c.x || (t.value.x == c.x - 1 && 0 <= t.value.x)
                                         || (t.value.x == c.x + 1 && t.value.x < width)
    ensures c.y < height - 1 && Cell(c.x, c.y + 1) in grid && Cell(c.x - 1, c.y + 1) !in grid && c.x - 1 >= 0
            ==> t == (if coin then Some(Cell(c.x - 1, c.y + 1)) else None)
    ensures c.y < height - 1 && Cell(c.x, c.y + 1) in grid
            && !(Cell(c.x - 1, c.y + 1) !in grid && c.x - 1 >= 0)
            && Cell(c.x + 1, c.y + 1) !in grid && c.x + 1 < width
            ==> t == (if coin then Some(Cell(c.x + 1, c.y + 1)) else None)
    ensures c.y < height - 1 && t == None ==>
              && Cell(c.x, c.y + 1) in grid
              && (!coin || ((Cell(c.x - 1, c.y + 1) in grid || c.x - 1 < 0)
                            && (Cell(c.x + 1, c.y + 1) in grid || c.x + 1 >= width)))
  {
    var below, belowLeft, belowRight := Cell(c.x, c.y + 1), Cell(c.x - 1, c.y + 1), Cell(c.x + 1, c.y + 1);
    if c.y >= height - 1 then None
    else if below !in grid && below.y < height then Some(below)
    else if belowLeft !in grid && belowLeft.x >= 0 && belowLeft.y < height then
      (if coin then Some(belowLeft) else None)
    else if belowRight !in grid && belowRight.x < width && belowRight.y < height then
      (if coin then Some(belowRight) else None)
    else None
  }

  /** Grain `q` is grain `p` after at most one gravity move: same color, and
      either the same cell or one row lower with `y < height`, in the same
      column, one to the left with `x >= 0`, or one to the right with
      `x < width`. */
  predicate Fell(p: SandParticle, q: SandParticle, width: int, height: int) {
    && q.color == p.color
    && (q == p
        || (&& q.y == p.y + 1 && q.y < height
            && (q.x == p.x || (q.x == p.x - 1 && 0 <= q.x) || (q.x == p.x + 1 && q.x < width))))
  }

  /** Moves grain `i` into the free cell `to`, in the list and in the grid. */
  function MoveGrain(s: Sandbox, i: nat, to: Cell): (r: Sandbox)
    requires Agrees(s) && i < |s.0| && to !in s.1
    ensures Agrees(r) && |r.0| == |s.0|
    ensures r.0[i] == SandParticle(to.x, to.y, s.0[i].color)
    ensures forall j :: 0 <= j < |s.0| && j != i ==> r.0[j] == s.0[j]
    ensures r.1 == Relocate(s.1, s.0[i].At(), to, i)
  {
    var ps' := s.0[i := SandParticle(to.x, to.y, s.0[i].color)];
    MovePreservesConsistent(Cells(s.0), s.1, i, to);
    assert Cells(ps') == Cells(s.0)[i := to];
    (ps', Relocate(s.1, s.0[i].At(), to, i))
  }

  /** The body of the gravity loop for grain `i`. */
  function SettleGrain(s: Sandbox, i: nat, coin: bool, width: int, height: int): (r: Sandbox)
    requires Agrees(s) && i < |s.0|
    ensures Agrees(r) && |r.0| == |s.0|
    ensures Fell(s.0[i], r.0[i], width, height)
    ensures forall j :: 0 <= j < |s.0| && j != i ==> r.0[j] == s.0[j]
  {
    match GrainTarget(s.1, s.0[i].At(), coin, width, height)
    case None => s
    case Some(to) => MoveGrain(s, i, to)
  }

  // ----- One gravity pass -----

  /** The grains after the pass has visited the grains listed in `order`,
      the k-th visited one drawing `coins(k)`. */
  function GravityPass(s: Sandbox, order: seq<nat>, coins: nat -> bool, width: int, height: int): (r: Sandbox)
    requires Agrees(s)
    requires forall k :: 0 <= k < |order| ==> order[k] < |s.0|
    ensures Agrees(r) && |r.0| == |s.0|
    decreases |order|
  {
    if order == [] then s
    else
      var n := |order| - 1;
      var mid := GravityPass(s, order[..n], coins, width, height);
      SettleGrain(mid, order[n], coins(n), width, height)
  }

  /** In one pass a grain the pass does not visit stays put, and one it
      visits once falls at most one cell, keeping its color. */
  /** Visiting one more grain extends a pass by one `SettleGrain` step. */
  lemma GravityPassStep(s: Sandbox, order: seq<nat>, k: nat, coins: nat -> bool, width: int, height: int)
    requires Agrees(s) && k < |order|
    requires forall m :: 0 <= m < |order| ==> order[m] < |s.0|
    ensures var mid := GravityPass(s, order[..k], coins, width, height);
            GravityPass(s, order[..k + 1], coins, width, height)
            == SettleGrain(mid, order[k], coins(k), width, height)
  {
    assert order[..k + 1][..k] == order[..k];
  }

  lemma PassMovesEachGrainOnce(s: Sandbox, order: seq<nat>, coins: nat -> bool, width: int, height: int)
    requires Agrees(s)
    requires forall k :: 0 <= k < |order| ==> order[k] < |s.0|
    requires forall k, l :: 0 <= k < l < |order| ==> order[k] != order[l]
    ensures var r := GravityPass(s, order, coins, width, height);
            forall j :: 0 <= j < |s.0| ==>
              && (j !in order ==> r.0[j] == s.0[j])
              && (j in order ==> Fell(s.0[j], r.0[j], width, height))
  {
    forall j | 0 <= j < |s.0| {
      PassMovesGrainOnce(s, order, coins, width, height, j);
    }
  }

  /** `PassMovesEachGrainOnce` for the one grain `j`. */
  lemma {:induction false} PassMovesGrainOnce(s: Sandbox, order: seq<nat>, coins: nat -> bool, width: int, height: int, j: nat)
    requires Agrees(s) && j < |s.0|
    requires forall k :: 0 <= k < |order| ==> order[k] < |s.0|
    requires forall k, l :: 0 <= k < l < |order| ==> order[k] != order[l]
    ensures var r := GravityPass(s, order, coins, width, height);
            && (j !in order ==> r.0[j] == s.0[j])
            && (j in order ==> Fell(s.0[j], r.0[j], width, height))
    decreases |order|
  {
    if order != [] {
      var n := |order| - 1;
      var prefix := order[..n];
      PassMovesGrainOnce(s, prefix, coins, width, height, j);
      if j == order[n] {
        assert j !in prefix;
      } else {
        assert j in order <==> j in prefix by {
          assert order == prefix + [order[n]];
        }
      }
    }
  }

  /** A full pass in bottom-up order keeps every grain's color, never lifts a
      grain, and so keeps every grain at or below the beach line. */
  lemma PassKeepsGrainsOnBeach(s: Sandbox, coins: nat -> bool, beachY: int, width: int, height: int)
    requires Agrees(s)
    requires forall j :: 0 <= j < |s.0| ==> s.0[j].y >= beachY
    ensures var r := GravityPass(s, BottomUpOrder(Cells(s.0)), coins, width, height);
            forall j :: 0 <= j < |r.0| ==>
              && Fell(s.0[j], r.0[j], width, height)
              && r.0[j].y >= s.0[j].y >= beachY
  {
    BottomUpOrderVisitsAll(Cells(s.0));
    PassMovesEachGrainOnce(s, BottomUpOrder(Cells(s.0)), coins, width, height);
  }

  /** The per-grain half of the simulator's invariant survives a pass. */
  lemma PassKeepsSandboxValid(s: Sandbox, r: Sandbox, coins: nat -> bool, beachY: int, palette: seq<int>, width: int, height: int)
    requires Agrees(s)
    requires forall j :: 0 <= j < |s.0| ==> s.0[j].y >= beachY && s.0[j].color in palette
    requires r == GravityPass(s, BottomUpOrder(Cells(s.0)), coins, width, height)
    ensures forall j :: 0 <= j < |r.0| ==> r.0[j].y >= beachY && r.0[j].color in palette
  {
    PassKeepsGrainsOnBeach(s, coins, beachY, width, height);
  }

  /** A lone grain with free space below falls exactly one cell per pass,
      whatever its coins say. */
  lemma LoneGrainFalls(p: SandParticle, coins: nat -> bool, width: int, height: int)
    requires p.y < height - 1
    ensures GravityPass(([p], map[p.At() := 0]), [0], coins, width, height).0
            == [SandParticle(p.x, p.y + 1, p.color)]
  {
    var s := ([p], map[p.At() := 0]);
    assert Cells(s.0) == [p.At()];
    assert [0][..0] == [];
  }

  // ----- The simulator object -----

  class SandSimulator {
    const beachY: int
    const width: int
    const height: int
    const colors: seq<int>
    var particles: seq<SandParticle>
    var grid: map<Cell, nat>
    var currentColorIdx: nat

    /** The grain list and the grid agree, the color index is in range, and
        every grain lies at or below the beach line in a palette color. */
    ghost predicate Valid()
      reads this
    {
      && colors == Palette
      && currentColorIdx < |colors|
      && Agrees((particles, grid))
      && forall i :: 0 <= i < |particles| ==> particles[i].y >= beachY && particles[i].color in colors
    }

    constructor (beachY: int, width: int, height: int)
      ensures Valid()
      ensures this.beachY == beachY && this.width == width && this.height == height
      ensures particles == [] && grid == map[] && currentColorIdx == 0
    {
      this.beachY := beachY;
      this.width := width;
      this.height := height;
      colors := Palette;
      particles := [];
      grid := map[];
      currentColorIdx := 0;
    }

    /** The color the next spawned grain takes. */
    function CurrentColor(): (c: int)
      reads this
      requires Valid()
      ensures c in Palette
    {
      colors[currentColorIdx]
    }

    method CycleColor()
      requires Valid()
      modifies this
      ensures Valid()
      ensures currentColorIdx == NextColorIndex(old(currentColorIdx))
      ensures particles == old(particles) && grid == old(grid)
    {
      currentColorIdx := (currentColorIdx + 1) % |colors|;
    }

    /** Spawns a grain on (x, y) in the current color, unless (x, y) is above
        the beach line or already holds a grain. */
    method AddSand(x: int, y: int)
      requires Valid()
      modifies this
      ensures Valid() && currentColorIdx == old(currentColorIdx)
      ensures y < beachY || Cell(x, y) in old(grid) ==> particles == old(particles) && grid == old(grid)
      ensures !(y < beachY || Cell(x, y) in old(grid)) ==>
                && particles == old(particles) + [SandParticle(x, y, old(CurrentColor()))]
                && grid == old(grid)[Cell(x, y) := |old(particles)|]
    {
      if y < beachY {
        return;
      }
      if Cell(x, y) in grid {
        return;
      }
      var particle := SandParticle(x, y, CurrentColor());
      AppendPreservesConsistent(Cells(particles), grid, Cell(x, y));
      assert Cells(particles + [particle]) == Cells(particles) + [Cell(x, y)];
      grid := grid[Cell(x, y) := |particles|];
      particles := particles + [particle];
    }

    /** One gravity pass; `coins(k)` is the coin the k-th visited grain draws. */
    method Update(coins: nat -> bool)
      requires Valid()
      modifies this
      ensures Valid() && currentColorIdx == old(currentColorIdx)
      ensures (particles, grid)
              == GravityPass((old(particles), old(grid)), BottomUpOrder(Cells(old(particles))), coins, width, height)
    {
      ghost var s0 := (particles, grid);
      var order := BottomUpOrder(Cells(particles));
      for k := 0 to |order|
        invariant Agrees((particles, grid)) && |particles| == |s0.0|
        invariant (particles, grid) == GravityPass(s0, order[..k], coins, width, height)
        invariant currentColorIdx == old(currentColorIdx)
      {
        GravityPassStep(s0, order, k, coins, width, height);
        SettleParticle(order[k], coins(k));
      }
      assert order[..|order|] == order;
      PassKeepsSandboxValid(s0, (particles, grid), coins, beachY, colors, width, height);
    }

    /** The body of the pass for grain `i`: straight down if free, otherwise
        one diagonal (left before right) if free and the coin allows it. */
    method SettleParticle(i: nat, coin: bool)
      requires Agrees((particles, grid)) && i < |particles|
      modifies this
      ensures (particles, grid) == SettleGrain((old(particles), old(grid)), i, coin, width, height)
      ensures currentColorIdx == old(currentColorIdx)
    {
      var p := particles[i];
      ghost var target := GrainTarget(grid, p.At(), coin, width, height);
      if p.y >= height - 1 {
        return;
      }
      var below, belowLeft, belowRight := Cell(p.x, p.y + 1), Cell(p.x - 1, p.y + 1), Cell(p.x + 1, p.y + 1);
      if below !in grid && below.y < height {
        assert target == Some(below);
        MoveParticle(i, below);
      } else if belowLeft !in grid && belowLeft.x >= 0 && belowLeft.y < height {
        assert target == if coin then Some(belowLeft) else None;
        if coin {
          MoveParticle(i, belowLeft);
        }
      } else if belowRight !in grid && belowRight.x < width && belowRight.y < height {
        assert target == if coin then Some(belowRight) else None;
        if coin {
          MoveParticle(i, belowRight);
        }
      } else {
        assert target == None;
      }
    }

    method MoveParticle(i: nat, to: Cell)
      requires Agrees((particles, grid)) && i < |particles| && to !in grid
      modifies this
      ensures (particles, grid) == MoveGrain((old(particles), old(grid)), i, to)
      ensures currentColorIdx == old(currentColorIdx)
    {
      MovePreservesConsistent(Cells(particles), grid, i, to);
      grid := Relocate(grid, particles[i].At(), to, i);
      particles := particles[i := SandParticle(to.x, to.y, particles[i].color)];
    }
  }
}
