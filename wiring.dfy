/**
 * The wire tracer of wiring/src/main.rs: a wire walks the grid one cell at a
 * time from the origin, remembering the cells it visits in order (`steps`) and
 * as a map from column to the rows visited in it (`vertices`). Crossings are
 * the cells both wires visit; the answers are the smallest Manhattan distance
 * and the smallest combined step count over the crossings.
 */
module Wiring {
  import opened Options

  const I16_MIN: int := -0x8000
  const I16_MAX: int := 0x7fff

  predicate InI16(v: int)
  {
    I16_MIN <= v <= I16_MAX
  }

  /** A copy of a position, as pushed onto `steps`. */
  datatype Cell = Cell(x: int, y: int)

  /** The grid position of a wire, moved in place. */
  class Point {
    var x: int
    var y: int

    constructor (x: int, y: int)
      ensures this.x == x && this.y == y
    {
      this.x := x;
      this.y := y;
    }

    function At(): Cell
      reads this
    {
      Cell(x, y)
    }

    /** `up`: one row higher. The i16 field must not overflow. */
    method Up()
      requires y < I16_MAX
      modifies this
      ensures x == old(x) && y == old(y) + 1
    {
      y := y + 1;
    }

    /** `down`: one row lower. */
    method Down()
      requires y > I16_MIN
      modifies this
      ensures x == old(x) && y == old(y) - 1
    {
      y := y - 1;
    }

    /** `left`: one column to the left. */
    method Left()
      requires x > I16_MIN
      modifies this
      ensures x == old(x) - 1 && y == old(y)
    {
      x := x - 1;
    }

    /** `right`: one column to the right. */
    method Right()
      requires x < I16_MAX
      modifies this
      ensures x == old(x) + 1 && y == old(y)
    {
      x := x + 1;
    }
  }

  // ---------------------------------------------------------------------------
  // Directions and walks

  /** The four direction letters of a wire description. */
  predicate IsDirection(dir: char)
  {
    dir == 'R' || dir == 'U' || dir == 'L' || dir == 'D'
  }

  /** The cell one step from `c` in direction `dir`. */
  function Move(c: Cell, dir: char): Cell
    requires IsDirection(dir)
  {
    match dir
    case 'R' => Cell(c.x + 1, c.y)
    case 'U' => Cell(c.x, c.y + 1)
    case 'L' => Cell(c.x - 1, c.y)
    case 'D' => Cell(c.x, c.y - 1)
  }

  /** Two cells one unit apart horizontally or vertically. */
  predicate Adjacent(a: Cell, b: Cell)
  {
    (a.x == b.x && (b.y == a.y + 1 || b.y == a.y - 1)) ||
    (a.y == b.y && (b.x == a.x + 1 || b.x == a.x - 1))
  }

  lemma MoveIsAdjacent(c: Cell, dir: char)
    requires IsDirection(dir)
    ensures Adjacent(c, Move(c, dir))
  {
  }

  /** The `n` cells visited by `n` steps from `start` in direction `dir`. */
  function Walk(start: Cell, dir: char, n: nat): (w: seq<Cell>)
    requires IsDirection(dir)
    ensures |w| == n
  {
    if n == 0 then [] else Walk(start, dir, n - 1) + [Move(Last(start, Walk(start, dir, n - 1)), dir)]
  }

  /** The last cell of a path that started at `start` (`start` itself when empty). */
  function Last(start: Cell, path: seq<Cell>): Cell
  {
    if path == [] then start else path[|path| - 1]
  }

  /** The `i`-th cell of a walk lies `i + 1` steps out along the direction. */
  lemma {:induction false} WalkAt(start: Cell, dir: char, n: nat, i: nat)
    requires IsDirection(dir) && i < n
    ensures Walk(start, dir, n)[i] == Along(start, dir, i + 1)
    decreases n
  {
    if i < n - 1 {
      WalkAt(start, dir, n - 1, i);
    } else if n > 1 {
      WalkAt(start, dir, n - 1, n - 2);
    }
  }

  /** The cell `k` steps out from `start` in direction `dir`. */
  function Along(start: Cell, dir: char, k: int): Cell
    requires IsDirection(dir)
  {
    match dir
    case 'R' => Cell(start.x + k, start.y)
    case 'U' => Cell(start.x, start.y + k)
    case 'L' => Cell(start.x - k, start.y)
    case 'D' => Cell(start.x, start.y - k)
  }

  /** A path of unit steps from `start`. */
  ghost predicate Traced(start: Cell, path: seq<Cell>)
  {
    (path != [] ==> Adjacent(start, path[0])) &&
    forall i :: 0 < i < |path| ==> Adjacent(path[i - 1], path[i])
  }

  /** Every walk is a path of unit steps. */
  lemma {:induction false} WalkIsTraced(start: Cell, dir: char, n: nat)
    requires IsDirection(dir)
    ensures Traced(start, Walk(start, dir, n))
    decreases n
  {
    if n > 0 {
      WalkIsTraced(start, dir, n - 1);
      MoveIsAdjacent(Last(start, Walk(start, dir, n - 1)), dir);
    }
  }

  // ---------------------------------------------------------------------------
  // The column -> rows map

  /** The cells that a column -> rows map holds. */
  ghost function CellsOf(v: map<int, set<int>>): set<Cell>
  {
    set x, y | x in v && y in v[x] :: Cell(x, y)
  }

  /** The cells of a sequence. */
  ghost function Visited(s: seq<Cell>): set<Cell>
  {
    set c | c in s
  }

  /** The map after `record(x, y)`: row `y` is added to column `x`, a column
      seen for the first time gets a new set. */
  function Recorded(v: map<int, set<int>>, x: int, y: int): (r: map<int, set<int>>)
    ensures x in r && y in r[x]
    ensures forall k :: k != x ==> (k in r <==> k in v) && (k in v ==> r[k] == v[k])
    ensures CellsOf(r) == CellsOf(v) + {Cell(x, y)}
  {
    var r := v[x := (if x in v then v[x] else {}) + {y}];
    assert CellsOf(r) == CellsOf(v) + {Cell(x, y)} by {
      forall c | c in CellsOf(r) ensures c in CellsOf(v) + {Cell(x, y)} {
        if c.x != x || c.y != y {
          assert c.x in v && c.y in v[c.x];
        }
      }
      forall c | c in CellsOf(v) ensures c in CellsOf(r) {
        assert c.x in r && c.y in r[c.x];
      }
      assert Cell(x, y) in CellsOf(r) by { assert x in r && y in r[x]; }
    }
    r
  }

  /** Recording a cell twice is recording it once. */
  lemma RecordIdempotent(v: map<int, set<int>>, x: int, y: int)
    ensures Recorded(Recorded(v, x, y), x, y) == Recorded(v, x, y)
  {
    var once := Recorded(v, x, y);
    assert once[x] + {y} == once[x];
  }

  // ---------------------------------------------------------------------------
  // Wires

  class WirePath {
    var vertices: map<int, set<int>>
    var steps: seq<Cell>
    const pos: Point

    /** The path is a walk of unit steps from the origin that ends at `pos`,
        and `vertices` holds exactly its cells. */
    ghost predicate Valid()
      reads this, pos
    {
      && InI16(pos.x) && InI16(pos.y)
      && Traced(Cell(0, 0), steps)
      && pos.At() == Last(Cell(0, 0), steps)
      && CellsOf(vertices) == Visited(steps)
    }

    /** `WirePath::new`: at the origin, nothing visited (the origin is not
        recorded). */
    constructor ()
      ensures Valid() && fresh(pos)
      ensures pos.At() == Cell(0, 0) && steps == [] && vertices == map[]
    {
      vertices := map[];
      steps := [];
      pos := new Point(0, 0);
      new;
      assert CellsOf(vertices) == {};
    }

    /** `record`: adds row `y` to the set of column `x`. */
    method Record(x: int, y: int)
      modifies this`vertices
      ensures vertices == Recorded(old(vertices), x, y)
    {
      if x in vertices {
        var rows := vertices[x];
        vertices := vertices[x := rows + {y}];
      } else {
        var rows: set<int> := {};
        rows := rows + {y};
        vertices := vertices[x := rows];
      }
    }

    /** The common tail of the four moves: push a copy of the new position
        and record it. */
    method Push()
      requires Traced(Cell(0, 0), steps) && CellsOf(vertices) == Visited(steps)
      requires InI16(pos.x) && InI16(pos.y)
      requires Adjacent(Last(Cell(0, 0), steps), pos.At())
      modifies this
      ensures Valid()
      ensures steps == old(steps) + [pos.At()]
      ensures vertices == Recorded(old(vertices), pos.x, pos.y)
    {
      steps := steps + [Cell(pos.x, pos.y)];
      Record(pos.x, pos.y);
      assert Visited(steps) == Visited(old(steps)) + {pos.At()} by {
        assert steps[|steps| - 1] == pos.At();
      }
    }

    /** `up`: moves one cell up, pushes a copy of the new position onto
        `steps` and records it in `vertices`. */
    method Up()
      requires Valid() && pos.y < I16_MAX
      modifies this, pos
      ensures Valid()
      ensures pos.At() == Move(old(pos.At()), 'U')
      ensures steps == old(steps) + [pos.At()]
      ensures vertices == Recorded(old(vertices), pos.x, pos.y)
    {
      MoveIsAdjacent(pos.At(), 'U');
      pos.Up();
      Push();
    }

    /** `down`: moves one cell down, pushes a copy of the new position onto
        `steps` and records it in `vertices`. */
    method Down()
      requires Valid() && pos.y > I16_MIN
      modifies this, pos
      ensures Valid()
      ensures pos.At() == Move(old(pos.At()), 'D')
      ensures steps == old(steps) + [pos.At()]
      ensures vertices == Recorded(old(vertices), pos.x, pos.y)
    {
      MoveIsAdjacent(pos.At(), 'D');
      pos.Down();
      Push();
    }

    /** `right`: moves one cell right, pushes a copy of the new position onto
        `steps` and records it in `vertices`. */
    method Right()
      requires Valid() && pos.x < I16_MAX
      modifies this, pos
      ensures Valid()
      ensures pos.At() == Move(old(pos.At()), 'R')
      ensures steps == old(steps) + [pos.At()]
      ensures vertices == Recorded(old(vertices), pos.x, pos.y)
    {
      MoveIsAdjacent(pos.At(), 'R');
      pos.Right();
      Push();
    }

    /** `left`: moves one cell left, pushes a copy of the new position onto
        `steps` and records it in `vertices`. */
    method Left()
      requires Valid() && pos.x > I16_MIN
      modifies this, pos
      ensures Valid()
      ensures pos.At() == Move(old(pos.At()), 'L')
      ensures steps == old(steps) + [pos.At()]
      ensures vertices == Recorded(old(vertices), pos.x, pos.y)
    {
      MoveIsAdjacent(pos.At(), 'L');
      pos.Left();
      Push();
    }

    /** `intersections`: every cell that both wires have recorded, each once,
        in no particular order (the source walks a hash map and hash sets);
        `None` when there is none. */
    method Intersections(other: WirePath) returns (r: Option<seq<Cell>>)
      ensures r.None? <==> CellsOf(vertices) * CellsOf(other.vertices) == {}
      ensures r.Some? ==> Visited(r.value) == CellsOf(vertices) * CellsOf(other.vertices)
      ensures r.Some? ==> Distinct(r.value)
    {
      var intersections: seq<Cell> := [];
      var keys := vertices.Keys;
      ghost var done: set<int> := {};
      while keys != {}
        invariant keys + done == vertices.Keys && keys !! done
        invariant forall c :: c in intersections <==> c.x in done && InBoth(c, other)
        invariant Distinct(intersections)
        decreases keys
      {
        HasElement(keys);
        var x :| x in keys;
        var cols := vertices[x];
        if x in other.vertices {
          var shared := cols * other.vertices[x];
          ghost var pushed: set<int> := {};
          while shared != {}
            invariant shared + pushed == cols * other.vertices[x] && shared !! pushed
            invariant forall c :: c in intersections <==>
                        (c.x in done && InBoth(c, other)) || (c.x == x && c.y in pushed)
            invariant Distinct(intersections)
            decreases shared
          {
            HasElement(shared);
            var y :| y in shared;
            intersections := intersections + [Cell(x, y)];
            shared := shared - {y};
            pushed := pushed + {y};
          }
        }
        keys := keys - {x};
        done := done + {x};
      }
      assert Visited(intersections) == CellsOf(vertices) * CellsOf(other.vertices) by {
        forall c ensures c in Visited(intersections) <==> c in CellsOf(vertices) * CellsOf(other.vertices) {
          InCellsOf(vertices, c);
          InCellsOf(other.vertices, c);
        }
      }
      if |intersections| == 0 {
        assert Visited(intersections) == {};
        r := None;
      } else {
        assert intersections[0] in Visited(intersections);
        r := Some(intersections);
      }
    }

    /** Cell `c` is recorded by this wire and by `other`. */
    ghost predicate InBoth(c: Cell, other: WirePath)
      reads this, other
    {
      c.x in vertices && c.y in vertices[c.x] && c.x in other.vertices && c.y in other.vertices[c.x]
    }
  }

  lemma HasElement(s: set<int>)
    requires s != {}
    ensures exists x :: x in s
  {
    if forall x :: x !in s {
      assert false;
    }
  }

  lemma InCellsOf(v: map<int, set<int>>, c: Cell)
    ensures c in CellsOf(v) <==> c.x in v && c.y in v[c.x]
  {
    if c.x in v && c.y in v[c.x] {
      assert Cell(c.x, c.y) in CellsOf(v);
    }
  }

  /** No cell occurs twice. */
  predicate Distinct(s: seq<Cell>)
  {
    forall i, j :: 0 <= i < j < |s| ==> s[i] != s[j]
  }

  lemma {:induction false} LastOfWalk(start: Cell, dir: char, n: nat)
    requires IsDirection(dir)
    ensures Last(start, Walk(start, dir, n)) == Along(start, dir, n)
  {
    if n > 0 {
      WalkAt(start, dir, n, n - 1);
    }
  }

  /** The closure that `main` maps over the tokens of a wire description: a
      token `D<n>` with `D` one of `R`, `U`, `L`, `D` takes `n` single steps in
      that direction (none when `n` is not positive); any other letter does
      nothing. Every position on the way must fit the i16 coordinates. */
  method FollowToken(wire: WirePath, dir: char, dist: int)
    requires wire.Valid()
    requires IsDirection(dir) && dist > 0 ==>
               InI16(Along(wire.pos.At(), dir, dist).x) && InI16(Along(wire.pos.At(), dir, dist).y)
    modifies wire, wire.pos
    ensures wire.Valid()
    ensures IsDirection(dir) && dist > 0 ==>
              && wire.steps == old(wire.steps) + Walk(old(wire.pos.At()), dir, dist)
              && wire.pos.At() == Along(old(wire.pos.At()), dir, dist)
    ensures !(IsDirection(dir) && dist > 0) ==>
              && wire.steps == old(wire.steps)
              && wire.pos.At() == old(wire.pos.At())
              && wire.vertices == old(wire.vertices)
  {
    if IsDirection(dir) && dist > 0 {
      ghost var start, before := wire.pos.At(), wire.steps;
      for i := 0 to dist
        invariant wire.Valid()
        invariant wire.steps == before + Walk(start, dir, i)
        invariant wire.pos.At() == Along(start, dir, i)
      {
        LastOfWalk(start, dir, i);
        match dir
        case 'R' => wire.Right();
        case 'U' => wire.Up();
        case 'L' => wire.Left();
        case 'D' => wire.Down();
      }
    }
  }

  // ---------------------------------------------------------------------------
  // The two answers

  /** `Iterator::min` over a sequence of numbers. */
  function Minimum(s: seq<int>): (m: Option<int>)
    ensures m.None? <==> s == []
    ensures m.Some? ==> m.value in s && forall i :: 0 <= i < |s| ==> m.value <= s[i]
  {
    if s == [] then None
    else match Minimum(s[1..])
      case None => Some(s[0])
      case Some(rest) => Some(if s[0] <= rest then s[0] else rest)
  }

  /** `Iterator::position` with `==`: the index of the first occurrence of `c`. */
  function Position(s: seq<Cell>, c: Cell): (r: Option<nat>)
    ensures r.None? <==> c !in s
    ensures r.Some? ==> r.value < |s| && s[r.value] == c
    ensures r.Some? ==> forall j :: 0 <= j < r.value ==> s[j] != c
  {
    if s == [] then None
    else if s[0] == c then Some(0)
    else match Position(s[1..], c)
      case None => None
      case Some(i) => Some(i + 1)
  }

  /** The combined number of steps both wires take to reach `c` for the first
      time: the index of its first occurrence in each wire's steps, plus one
      per wire because the origin is not in `steps`. */
  function StepCount(steps0: seq<Cell>, steps1: seq<Cell>, c: Cell): nat
    requires c in steps0 && c in steps1
  {
    Position(steps0, c).value + Position(steps1, c).value + 2
  }

  function Abs(v: int): nat
  {
    if v < 0 then -v else v
  }

  /** `closest_intersection`: the smallest combined step count over the
      crossings of the first two wires. Both `unwrap`s need a crossing. */
  method ClosestIntersection(paths: seq<WirePath>) returns (d: nat)
    requires |paths| >= 2 && paths[0].Valid() && paths[1].Valid()
    requires CellsOf(paths[0].vertices) * CellsOf(paths[1].vertices) != {}
    ensures exists c :: c in paths[0].steps && c in paths[1].steps &&
              d == StepCount(paths[0].steps, paths[1].steps, c)
    ensures forall c :: c in paths[0].steps && c in paths[1].steps ==>
              d <= StepCount(paths[0].steps, paths[1].steps, c)
  {
    var s0, s1 := paths[0].steps, paths[1].steps;
    var found := paths[0].Intersections(paths[1]);
    var crossings := found.value;
    assert forall i :: 0 <= i < |crossings| ==> crossings[i] in Visited(crossings);
    var counts: seq<nat> := seq(|crossings|, i requires 0 <= i < |crossings| =>
                        Position(s0, crossings[i]).value + Position(s1, crossings[i]).value + 2);
    d := Minimum(counts).value;
    forall c | c in s0 && c in s1
      ensures d <= StepCount(s0, s1, c)
    {
      assert c in Visited(s0) * Visited(s1);
      var i :| 0 <= i < |crossings| && crossings[i] == c;
      assert counts[i] == StepCount(s0, s1, c);
    }
    var k :| 0 <= k < |counts| && counts[k] == d;
    assert crossings[k] in Visited(crossings);
    assert d == StepCount(s0, s1, crossings[k]);
  }

  /** The first answer of `main`: the smallest Manhattan distance from the
      origin over the crossings of two wires. The i16 `abs` and sum must not
      overflow. */
  method ClosestDistance(wire0: WirePath, wire1: WirePath) returns (d: nat)
    requires CellsOf(wire0.vertices) * CellsOf(wire1.vertices) != {}
    requires forall c :: c in CellsOf(wire0.vertices) * CellsOf(wire1.vertices) ==>
               c.x > I16_MIN && c.y > I16_MIN && Abs(c.x) + Abs(c.y) <= I16_MAX
    ensures exists c :: c in CellsOf(wire0.vertices) * CellsOf(wire1.vertices) &&
              d == Abs(c.x) + Abs(c.y)
    ensures forall c :: c in CellsOf(wire0.vertices) * CellsOf(wire1.vertices) ==>
              d <= Abs(c.x) + Abs(c.y)
  {
    var found := wire0.Intersections(wire1);
    var crossings := found.value;
    var distances: seq<nat> := seq(|crossings|, i requires 0 <= i < |crossings| =>
                           Abs(crossings[i].x) + Abs(crossings[i].y));
    d := Minimum(distances).value;
    forall c | c in CellsOf(wire0.vertices) * CellsOf(wire1.vertices)
      ensures d <= Abs(c.x) + Abs(c.y)
    {
      assert c in Visited(crossings);
      var i :| 0 <= i < |crossings| && crossings[i] == c;
      assert distances[i] == Abs(c.x) + Abs(c.y);
    }
    var k :| 0 <= k < |distances| && distances[k] == d;
    assert crossings[k] in Visited(crossings);
  }
}
