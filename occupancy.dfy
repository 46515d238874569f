/**
 The sparse occupancy grid that both automata keep beside their particle
 list, and the bottom-up processing order both gravity passes use.

 A particle list is a sequence of cells; the grid maps a cell to the index
 of the particle standing on it. The index plays the part of the particle
 object the program's grid stores.
 */
module Occupancy {

  datatype Option<T> = None | Some(value: T)

  /** One pixel of the play-field; `y` grows downwards. */
  datatype Cell = Cell(x: int, y: int)

  /** The list and the grid agree: each particle's cell maps back to that
      particle, and each key of the grid is the cell of the particle it names. */
  ghost predicate Consistent(cells: seq<Cell>, grid: map<Cell, nat>) {
    && (forall i :: 0 <= i < |cells| ==> cells[i] in grid && grid[cells[i]] == i)
    && (forall c :: c in grid ==> grid[c] < |cells| && cells[grid[c]] == c)
  }

  /** No two particles of one material share a cell. */
  lemma ConsistentIsInjective(cells: seq<Cell>, grid: map<Cell, nat>)
    requires Consistent(cells, grid)
    ensures forall i, j :: 0 <= i < j < |cells| ==> cells[i] != cells[j]
  {
  }

  /** A cell is a key of the grid exactly when some particle stands on it. */
  lemma KeysAreCells(cells: seq<Cell>, grid: map<Cell, nat>)
    requires Consistent(cells, grid)
    ensures forall c :: c in grid <==> c in cells
  {
    forall c | c in cells ensures c in grid {
      var i :| 0 <= i < |cells| && cells[i] == c;
    }
  }

  /** The list alone determines the grid. */
  lemma GridDeterminedByCells(cells: seq<Cell>, g1: map<Cell, nat>, g2: map<Cell, nat>)
    requires Consistent(cells, g1) && Consistent(cells, g2)
    ensures g1 == g2
  {
    KeysAreCells(cells, g1);
    KeysAreCells(cells, g2);
    assert g1.Keys == g2.Keys;
    forall c | c in g1 ensures g1[c] == g2[c] {
      var i := g1[c];
      assert cells[i] == c;
    }
  }

  /** The grid holds exactly one key per particle. */
  lemma {:induction false} GridSize(cells: seq<Cell>, grid: map<Cell, nat>)
    requires Consistent(cells, grid)
    ensures |grid| == |cells|
  {
    if cells != [] {
      var n := |cells| - 1;
      var last := cells[n];
      var rest := grid - {last};
      assert Consistent(cells[..n], rest) by {
        forall i | 0 <= i < n ensures cells[..n][i] in rest && rest[cells[..n][i]] == i {
          assert grid[cells[i]] == i;
        }
        forall c | c in rest ensures rest[c] < n && cells[..n][rest[c]] == c {
          assert grid[c] != n;
        }
      }
      GridSize(cells[..n], rest);
      assert grid.Keys == rest.Keys + {last};
    }
  }

  /** The grid half of moving particle `i` from `from` to `to`: the old key
      is deleted, then the new key is entered for the same particle. */
  function Relocate(grid: map<Cell, nat>, from: Cell, to: Cell, i: nat): (g: map<Cell, nat>)
    requires from in grid
    ensures g.Keys == grid.Keys - {from} + {to}
    ensures g[to] == i
    ensures forall c :: c in grid && c != from && c != to ==> g[c] == grid[c]
  {
    (grid - {from})[to := i]
  }

  /** Moving a particle into a free cell keeps the list and the grid in agreement. */
  lemma MovePreservesConsistent(cells: seq<Cell>, grid: map<Cell, nat>, i: nat, to: Cell)
    requires Consistent(cells, grid) && i < |cells| && to !in grid
    ensures Consistent(cells[i := to], Relocate(grid, cells[i], to, i))
  {
    var cells', g := cells[i := to], Relocate(grid, cells[i], to, i);
    forall j | 0 <= j < |cells'| ensures cells'[j] in g && g[cells'[j]] == j {
      if j != i {
        assert cells[j] != cells[i];
      }
    }
  }

  /** Appending a particle on a free cell keeps the list and the grid in agreement. */
  lemma AppendPreservesConsistent(cells: seq<Cell>, grid: map<Cell, nat>, c: Cell)
    requires Consistent(cells, grid) && c !in grid
    ensures Consistent(cells + [c], grid[c := |cells|])
  {
  }

  // ----- Bottom-up processing order -----

  /** Particle `a` (on cell `p`) is processed before particle `b` (on cell
      `q`): the lower one first, and list order between particles of one row,
      as a stable sort on `-y` gives. */
  predicate Before(p: Cell, a: nat, q: Cell, b: nat) {
    p.y > q.y || (p.y == q.y && a < b)
  }

  /** `order` lists indices of `cells`, strictly ordered by `Before`. */
  ghost predicate DeepestFirst(cells: seq<Cell>, order: seq<nat>) {
    && Indexes(cells, order)
    && (forall k, l :: 0 <= k < l < |order| ==>
          Before(cells[order[k]], order[k], cells[order[l]], order[l]))
  }

  /** All entries of `order` index into `cells`. */
  predicate Indexes(cells: seq<Cell>, order: seq<nat>) {
    forall k :: 0 <= k < |order| ==> order[k] < |cells|
  }

  /** Places index `i` after every particle of `order` at least as low as
      particle `i`; the insertion step of a stable sort on `-y`. */
  function InsertByDepth(cells: seq<Cell>, order: seq<nat>, i: nat): (r: seq<nat>)
    requires i < |cells| && Indexes(cells, order)
    ensures |r| == |order| + 1 && Indexes(cells, r)
  {
    if order == [] then [i]
    else if cells[order[0]].y >= cells[i].y then [order[0]] + InsertByDepth(cells, order[1..], i)
    else [i] + order
  }

  /** Inserting an index larger than every index of a sorted order keeps it
      sorted and adds exactly that index. */
  lemma {:induction false} InsertByDepthSorted(cells: seq<Cell>, order: seq<nat>, i: nat)
    requires i < |cells| && Indexes(cells, order) && DeepestFirst(cells, order)
    requires forall k :: 0 <= k < |order| ==> order[k] < i
    ensures var r := InsertByDepth(cells, order, i);
            && DeepestFirst(cells, r)
            && forall x :: x in r <==> x in order || x == i
  {
    if order != [] {
      if cells[order[0]].y >= cells[i].y {
        var rest := InsertByDepth(cells, order[1..], i);
        InsertByDepthSorted(cells, order[1..], i);
        HeadComesFirst(cells, order, i, rest);
      } else {
        var r := [i] + order;
        forall k, l | 0 <= k < l < |r|
          ensures Before(cells[r[k]], r[k], cells[r[l]], r[l])
        {
          if k == 0 {
            assert cells[order[l - 1]].y <= cells[order[0]].y;
          } else {
            assert r[k] == order[k - 1] && r[l] == order[l - 1];
          }
        }
      }
    }
  }

  /** The head of a sorted order still precedes everything once `i` is
      inserted behind it. */
  lemma HeadComesFirst(cells: seq<Cell>, order: seq<nat>, i: nat, rest: seq<nat>)
    requires i < |cells| && DeepestFirst(cells, order) && order != []
    requires forall k :: 0 <= k < |order| ==> order[k] < i
    requires cells[order[0]].y >= cells[i].y
    requires DeepestFirst(cells, rest)
    requires forall x :: x in rest ==> x in order[1..] || x == i
    ensures DeepestFirst(cells, [order[0]] + rest)
  {
    var r := [order[0]] + rest;
    forall k, l | 0 <= k < l < |r|
      ensures Before(cells[r[k]], r[k], cells[r[l]], r[l])
    {
      if k == 0 {
        var x := r[l];
        assert x in rest;
        if x != i {
          var m :| 0 <= m < |order[1..]| && order[1..][m] == x;
          assert order[m + 1] == x;
        }
      } else {
        assert r[k] == rest[k - 1] && r[l] == rest[l - 1];
      }
    }
  }

  /** The first `n` particles in the order a stable sort on `-y` puts them. */
  function SortPrefix(cells: seq<Cell>, n: nat): (r: seq<nat>)
    requires n <= |cells|
    ensures |r| == n && Indexes(cells, r)
  {
    if n == 0 then [] else InsertByDepth(cells, SortPrefix(cells, n - 1), n - 1)
  }

  /** The sorted prefix lists exactly the first `n` indices, deepest first. */
  lemma {:induction false} SortPrefixSorted(cells: seq<Cell>, n: nat)
    requires n <= |cells|
    ensures DeepestFirst(cells, SortPrefix(cells, n))
    ensures forall i: nat :: i in SortPrefix(cells, n) <==> i < n
  {
    if n > 0 {
      var prev := SortPrefix(cells, n - 1);
      SortPrefixSorted(cells, n - 1);
      assert forall k :: 0 <= k < |prev| ==> prev[k] in prev;
      InsertByDepthSorted(cells, prev, n - 1);
    }
  }

  /** The order in which one gravity pass visits the particles: a stable
      sort of the indices on `-y`. */
  function BottomUpOrder(cells: seq<Cell>): (order: seq<nat>)
    ensures |order| == |cells| && Indexes(cells, order)
  {
    SortPrefix(cells, |cells|)
  }

  /** A pass visits every particle exactly once, lowest row first and in
      list order within a row. */
  lemma BottomUpOrderVisitsAll(cells: seq<Cell>)
    ensures var order := BottomUpOrder(cells);
            && DeepestFirst(cells, order)
            && (forall i: nat :: i in order <==> i < |cells|)
            && (forall k, l :: 0 <= k < l < |order| ==> order[k] != order[l])
  {
    SortPrefixSorted(cells, |cells|);
  }
}
