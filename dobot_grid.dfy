/**
 * Plotter calibration geometry of dobotGrid.py: the table of named reference
 * points, the inset cell corners built from a grid map, the key guard of
 * move_to_point and the motion sequences of draw_grid and draw_x, built as
 * data instead of being sent to the arm.
 */
module Dobot {

  /** A pose of the arm: position in millimetres and rotation of the end effector. */
  datatype Point = Point(x: int, y: int, z: int, r: int)

  /** A command to the arm: go home, a joint move, or a straight-line move. */
  datatype Motion = Home | MoveJ(p: Point) | MoveL(p: Point)

  /** One item of the grid map: a cell name and the keys of its four corners. */
  datatype Entry = Entry(name: string, corners: seq<string>)

  /** The same pose raised by `h` millimetres. */
  function Raised(p: Point, h: int): (q: Point)
    ensures q.x == p.x && q.y == p.y && q.r == p.r && q.z == p.z + h
  {
    p.(z := p.z + h)
  }

  // ---------------------------------------------------------------------------
  // Decimal rendering of integers, as `str` does for the cell names.
  // ---------------------------------------------------------------------------

  function DigitChar(n: int): (c: char)
    requires 0 <= n < 10
    ensures '0' <= c <= '9' && c as int - '0' as int == n
  {
    ('0' as int + n) as char
  }

  /** The decimal digits of n, most significant first, without leading zeros. */
  function Digits(n: nat): (s: string)
    ensures 1 <= |s|
    ensures forall k :: 0 <= k < |s| ==> '0' <= s[k] <= '9'
  {
    if n < 10 then [DigitChar(n)] else Digits(n / 10) + [DigitChar(n % 10)]
  }

  /** The value of a string of decimal digits. */
  function DigitsValue(s: string): nat
    requires forall k :: 0 <= k < |s| ==> '0' <= s[k] <= '9'
  {
    if |s| == 0 then 0 else 10 * DigitsValue(s[..|s| - 1]) + (s[|s| - 1] as int - '0' as int)
  }

  /** Reading back the digits of n gives n. */
  lemma {:induction false} DigitsRoundTrip(n: nat)
    ensures DigitsValue(Digits(n)) == n
  {
    if n >= 10 {
      DigitsRoundTrip(n / 10);
      var s := Digits(n);
      assert s[..|s| - 1] == Digits(n / 10);
    }
  }

  /** `str(n)` for an integer. */
  function IntToString(n: int): string
  {
    if n < 0 then "-" + Digits(-n) else Digits(n)
  }

  /** `str(n)` reads back as n: digits only for n >= 0, a minus sign and the digits of -n otherwise. */
  lemma IntToStringReadsBack(n: int)
    ensures var s := IntToString(n);
      && (n >= 0 ==> (forall k | 0 <= k < |s| :: '0' <= s[k] <= '9') && DigitsValue(s) == n)
      && (n < 0 ==> 2 <= |s| && s[0] == '-' && (forall k | 1 <= k < |s| :: '0' <= s[k] <= '9')
                    && DigitsValue(s[1..]) == -n)
  {
    if n < 0 {
      DigitsRoundTrip(-n);
      assert IntToString(n)[1..] == Digits(-n);
    } else {
      DigitsRoundTrip(n);
    }
  }

  /** `"G" + str(row) + str(col)`, the grid-map name of a cell. */
  function CellName(row: int, col: int): string
  {
    "G" + IntToString(row) + IntToString(col)
  }

  /** For one-digit rows and columns the cell name is three characters long and names one cell only. */
  lemma CellNameInjective(r1: int, c1: int, r2: int, c2: int)
    requires 0 <= r1 < 10 && 0 <= c1 < 10 && 0 <= r2 < 10 && 0 <= c2 < 10
    ensures |CellName(r1, c1)| == 3 && CellName(r1, c1)[0] == 'G'
    ensures CellName(r1, c1) == CellName(r2, c2) <==> r1 == r2 && c1 == c2
  {
    if CellName(r1, c1) == CellName(r2, c2) {
      assert CellName(r1, c1)[1] == CellName(r2, c2)[1];
      assert CellName(r1, c1)[2] == CellName(r2, c2)[2];
    }
  }

  // ---------------------------------------------------------------------------
  // generate_points
  // ---------------------------------------------------------------------------

  const PointNames: set<string> := {
    "A1", "A2", "A3", "A4",
    "S1", "S2", "S3", "S4", "S5", "S6", "S7", "S8",
    "SI1", "SI2", "SI3", "SI4", "SI5", "SI6", "SI7", "SI8",
    "SM1", "SM2", "SM3", "SM4"}

  /**
   * The table generate_points stores, from the anchor (x, y), the drawing
   * height z, the rotation r and the cell size d: the square's corners A1-A4,
   * the line ends S1-S8 on the square's sides, the same ends SI1-SI8 with the
   * pen raised, and the inner crossings SM1-SM4.
   */
  function PointTable(x: int, y: int, z: int, r: int, d: int): map<string, Point>
  {
    map[
      "A1" := Point(x, y, z, r),
      "A2" := Point(x, y + 3 * d, z, r),
      "A3" := Point(x + 3 * d, y, z, r),
      "A4" := Point(x + 3 * d, y + 3 * d, z, r),
      "S1" := Point(x, y + d, z, r),
      "S2" := Point(x + 3 * d, y + d, z, r),
      "S3" := Point(x, y + 2 * d, z, r),
      "S4" := Point(x + 3 * d, y + 2 * d, z, r),
      "S5" := Point(x + d, y, z, r),
      "S6" := Point(x + d, y + 3 * d, z, r),
      "S7" := Point(x + 2 * d, y, z, r),
      "S8" := Point(x + 2 * d, y + 3 * d, z, r),
      "SI1" := Point(x, y + d, z + 20, r),
      "SI2" := Point(x + 3 * d, y + d, z + 20, r),
      "SI3" := Point(x, y + 2 * d, z + 20, r),
      "SI4" := Point(x + 3 * d, y + 2 * d, z + 20, r),
      "SI5" := Point(x + d, y, z + 20, r),
      "SI6" := Point(x + d, y + 3 * d, z + 20, r),
      "SI7" := Point(x + 2 * d, y, z + 20, r),
      "SI8" := Point(x + 2 * d, y + 3 * d, z + 20, r),
      "SM1" := Point(x + d, y + d, z, r),
      "SM2" := Point(x + d, y + 2 * d, z, r),
      "SM3" := Point(x + 2 * d, y + d, z, r),
      "SM4" := Point(x + 2 * d, y + 2 * d, z, r)
    ]
  }

  /** generate_points produces exactly the 24 named points. */
  lemma PointKeys(x: int, y: int, z: int, r: int, d: int)
    ensures PointTable(x, y, z, r, d).Keys == PointNames
  {
  }

  /** The line ends, their raised copies and the inner crossings, by number. */
  const SNames: seq<string> := ["S1", "S2", "S3", "S4", "S5", "S6", "S7", "S8"]
  const SINames: seq<string> := ["SI1", "SI2", "SI3", "SI4", "SI5", "SI6", "SI7", "SI8"]
  const SMNames: seq<string> := ["SM1", "SM2", "SM3", "SM4"]

  /** Every SIk is in the table and is Sk, also in the table, with the pen raised by 20. */
  predicate LineEndsRaised(m: map<string, Point>)
  {
    forall k | 0 <= k < 8 :: SNames[k] in m && SINames[k] in m && m[SINames[k]] == Raised(m[SNames[k]], 20)
  }

  /** In the generated table every SIk is Sk with the pen raised by 20. */
  lemma RaisedLineEnds(x: int, y: int, z: int, r: int, d: int)
    ensures LineEndsRaised(PointTable(x, y, z, r, d))
  {
    var m := PointTable(x, y, z, r, d);
    forall k | 0 <= k < 8
      ensures SNames[k] in m && SINames[k] in m && m[SINames[k]] == Raised(m[SNames[k]], 20)
    {
      if k == 0 {
        assert SNames[k] == "S1" && SINames[k] == "SI1";
      } else if k == 1 {
        assert SNames[k] == "S2" && SINames[k] == "SI2";
      } else if k == 2 {
        assert SNames[k] == "S3" && SINames[k] == "SI3";
      } else if k == 3 {
        assert SNames[k] == "S4" && SINames[k] == "SI4";
      } else if k == 4 {
        assert SNames[k] == "S5" && SINames[k] == "SI5";
      } else if k == 5 {
        assert SNames[k] == "S6" && SINames[k] == "SI6";
      } else if k == 6 {
        assert SNames[k] == "S7" && SINames[k] == "SI7";
      } else {
        assert SNames[k] == "S8" && SINames[k] == "SI8";
      }
    }
  }

  /** The pose at lattice position (a, b) of the d-spaced grid anchored at (x, y). */
  function Lattice(x: int, y: int, z: int, r: int, d: int, a: int, b: int): Point
  {
    Point(x + a * d, y + b * d, z, r)
  }

  /** Lattice position (a, b) is on a side of the 3x3 square but not one of its corners. */
  predicate OnSide(a: int, b: int)
  {
    0 <= a <= 3 && 0 <= b <= 3 && (a == 0 || a == 3 || b == 0 || b == 3)
    && !((a == 0 || a == 3) && (b == 0 || b == 3))
  }

  /** The lattice positions of S1-S8 and of SM1-SM4. */
  const SPlaces: seq<(int, int)> := [(0, 1), (3, 1), (0, 2), (3, 2), (1, 0), (1, 3), (2, 0), (2, 3)]
  const SMPlaces: seq<(int, int)> := [(1, 1), (1, 2), (2, 1), (2, 2)]

  /** A1-A4 are the four corners of the square of side 3d anchored at (x, y), at drawing height. */
  lemma SquareCorners(x: int, y: int, z: int, r: int, d: int)
    ensures var m := PointTable(x, y, z, r, d);
      && m["A1"] == Lattice(x, y, z, r, d, 0, 0) && m["A2"] == Lattice(x, y, z, r, d, 0, 3)
      && m["A3"] == Lattice(x, y, z, r, d, 3, 0) && m["A4"] == Lattice(x, y, z, r, d, 3, 3)
  {
  }

  /**
   * The line ends S1-S8 lie on the d-spaced lattice on the sides of the
   * square, away from its corners, and the inner points SM1-SM4 on the
   * lattice strictly inside it, all at drawing height.
   */
  lemma PointsOnSquare(x: int, y: int, z: int, r: int, d: int)
    ensures var m := PointTable(x, y, z, r, d);
      && (forall k | 0 <= k < 8 :: OnSide(SPlaces[k].0, SPlaces[k].1)
            && SNames[k] in m && m[SNames[k]] == Lattice(x, y, z, r, d, SPlaces[k].0, SPlaces[k].1))
      && (forall k | 0 <= k < 4 :: 1 <= SMPlaces[k].0 <= 2 && 1 <= SMPlaces[k].1 <= 2
            && SMNames[k] in m && m[SMNames[k]] == Lattice(x, y, z, r, d, SMPlaces[k].0, SMPlaces[k].1))
  {
    var m := PointTable(x, y, z, r, d);
    forall k | 0 <= k < 8
      ensures OnSide(SPlaces[k].0, SPlaces[k].1)
            && SNames[k] in m && m[SNames[k]] == Lattice(x, y, z, r, d, SPlaces[k].0, SPlaces[k].1)
    {
      if k == 0 {
        assert SNames[k] == "S1" && m["S1"] == Lattice(x, y, z, r, d, 0, 1);
      } else if k == 1 {
        assert SNames[k] == "S2" && m["S2"] == Lattice(x, y, z, r, d, 3, 1);
      } else if k == 2 {
        assert SNames[k] == "S3" && m["S3"] == Lattice(x, y, z, r, d, 0, 2);
      } else if k == 3 {
        assert SNames[k] == "S4" && m["S4"] == Lattice(x, y, z, r, d, 3, 2);
      } else if k == 4 {
        assert SNames[k] == "S5" && m["S5"] == Lattice(x, y, z, r, d, 1, 0);
      } else if k == 5 {
        assert SNames[k] == "S6" && m["S6"] == Lattice(x, y, z, r, d, 1, 3);
      } else if k == 6 {
        assert SNames[k] == "S7" && m["S7"] == Lattice(x, y, z, r, d, 2, 0);
      } else {
        assert SNames[k] == "S8" && m["S8"] == Lattice(x, y, z, r, d, 2, 3);
      }
    }
    forall k | 0 <= k < 4
      ensures 1 <= SMPlaces[k].0 <= 2 && 1 <= SMPlaces[k].1 <= 2
            && SMNames[k] in m && m[SMNames[k]] == Lattice(x, y, z, r, d, SMPlaces[k].0, SMPlaces[k].1)
    {
      if k == 0 {
        assert SMNames[k] == "SM1" && m["SM1"] == Lattice(x, y, z, r, d, 1, 1);
      } else if k == 1 {
        assert SMNames[k] == "SM2" && m["SM2"] == Lattice(x, y, z, r, d, 1, 2);
      } else if k == 2 {
        assert SMNames[k] == "SM3" && m["SM3"] == Lattice(x, y, z, r, d, 2, 1);
      } else {
        assert SMNames[k] == "SM4" && m["SM4"] == Lattice(x, y, z, r, d, 2, 2);
      }
    }
  }

  // ---------------------------------------------------------------------------
  // generate_grid1
  // ---------------------------------------------------------------------------

  /**
   * The four corners of a cell, each moved `offset` towards the cell's
   * inside as the code does it, at height zv and rotation rv.
   */
  function Inset(p1: Point, p2: Point, p3: Point, p4: Point, offset: int, zv: int, rv: int): (cs: seq<Point>)
    ensures |cs| == 4
    ensures forall k | 0 <= k < 4 :: cs[k].z == zv && cs[k].r == rv
  {
    [Point(p1.x + offset, p1.y + offset, zv, rv),
     Point(p2.x + offset, p2.y - offset, zv, rv),
     Point(p3.x - offset, p3.y + offset, zv, rv),
     Point(p4.x - offset, p4.y - offset, zv, rv)]
  }

  /** An entry the loop of generate_grid1 does not skip: four keys, all known. */
  predicate Usable(points: map<string, Point>, e: Entry)
  {
    |e.corners| == 4 && e.corners[0] in points && e.corners[1] in points
    && e.corners[2] in points && e.corners[3] in points
  }

  /** One iteration of the loop of generate_grid1: a usable entry sets its cell and the raised copy. */
  function AddEntry(points: map<string, Point>, offset: int, zv: int, rv: int,
                    grid: map<string, seq<Point>>, e: Entry): (g: map<string, seq<Point>>)
    ensures !Usable(points, e) ==> g == grid
    ensures Usable(points, e) ==> g.Keys == grid.Keys + {e.name, e.name + "I"} && Drawable(g, e.name, zv)
  {
    if !Usable(points, e) then grid
    else
      var p1, p2, p3, p4 := points[e.corners[0]], points[e.corners[1]], points[e.corners[2]], points[e.corners[3]];
      grid[e.name := Inset(p1, p2, p3, p4, offset, zv, rv)][e.name + "I" := Inset(p1, p2, p3, p4, offset, zv + 20, rv)]
  }

  /** The loop of generate_grid1 over the entries, in order, from `grid`. */
  function Apply(points: map<string, Point>, offset: int, zv: int, rv: int,
                 grid: map<string, seq<Point>>, es: seq<Entry>): (g: map<string, seq<Point>>)
    ensures grid.Keys <= g.Keys
  {
    if |es| == 0 then grid
    else AddEntry(points, offset, zv, rv, Apply(points, offset, zv, rv, grid, es[..|es| - 1]), es[|es| - 1])
  }

  lemma {:induction false} ApplyAppend(points: map<string, Point>, offset: int, zv: int, rv: int,
                                       grid: map<string, seq<Point>>, a: seq<Entry>, b: seq<Entry>)
    ensures Apply(points, offset, zv, rv, grid, a + b)
         == Apply(points, offset, zv, rv, Apply(points, offset, zv, rv, grid, a), b)
  {
    if |b| > 0 {
      ApplyAppend(points, offset, zv, rv, grid, a, b[..|b| - 1]);
      assert (a + b)[..|a + b| - 1] == a + b[..|b| - 1];
    } else {
      assert a + b == a;
    }
  }

  /** An entry that is skipped leaves the grid as the other entries make it. */
  lemma SkippedEntryIgnored(points: map<string, Point>, offset: int, zv: int, rv: int,
                            grid: map<string, seq<Point>>, a: seq<Entry>, e: Entry, b: seq<Entry>)
    requires !Usable(points, e)
    ensures Apply(points, offset, zv, rv, grid, a + [e] + b) == Apply(points, offset, zv, rv, grid, a + b)
  {
    ApplyAppend(points, offset, zv, rv, grid, a + [e], b);
    ApplyAppend(points, offset, zv, rv, grid, a, [e]);
    assert [e][..0] == [];
    ApplyAppend(points, offset, zv, rv, grid, a, b);
  }

  /** The grid holds exactly the names of usable entries and their raised copies. */
  lemma {:induction false} GridKeys(points: map<string, Point>, offset: int, zv: int, rv: int, es: seq<Entry>, key: string)
    ensures key in Apply(points, offset, zv, rv, map[], es) <==>
      exists i :: 0 <= i < |es| && Usable(points, es[i]) && (key == es[i].name || key == es[i].name + "I")
  {
    if |es| > 0 {
      var init := es[..|es| - 1];
      GridKeys(points, offset, zv, rv, init, key);
      if key in Apply(points, offset, zv, rv, map[], es) && key !in Apply(points, offset, zv, rv, map[], init) {
        var i := |es| - 1;
        assert Usable(points, es[i]) && (key == es[i].name || key == es[i].name + "I");
      }
      if exists i :: 0 <= i < |es| && Usable(points, es[i]) && (key == es[i].name || key == es[i].name + "I") {
        var i :| 0 <= i < |es| && Usable(points, es[i]) && (key == es[i].name || key == es[i].name + "I");
        if i < |es| - 1 {
          assert init[i] == es[i];
        }
      }
    }
  }

  lemma SuffixCancel(a: string, b: string)
    ensures a + "I" == b + "I" ==> a == b
  {
    assert a == (a + "I")[..|a|] && b == (b + "I")[..|b|];
  }

  /**
   * The cell `name` and its raised copy are in the grid as four corners at
   * height zv and the same four corners 20 higher.
   */
  predicate Drawable(grid: map<string, seq<Point>>, name: string, zv: int)
  {
    && name in grid && name + "I" in grid && |grid[name]| == 4 && |grid[name + "I"]| == 4
    && (forall k | 0 <= k < 4 :: grid[name][k].z == zv)
    && (forall k | 0 <= k < 4 :: grid[name + "I"][k] == Raised(grid[name][k], 20))
  }

  /** No entry after position i writes the cell of entry i or its raised copy. */
  predicate NotOverwritten(es: seq<Entry>, i: int)
    requires 0 <= i < |es|
  {
    forall j | i < j < |es| :: es[j].name != es[i].name && es[j].name + "I" != es[i].name
                             && es[j].name != es[i].name + "I"
  }

  /**
   * A usable entry that no later entry overwrites ends up in the grid as its
   * inset corners at drawing height, and its raised copy is the same four
   * corners 20 higher.
   */
  lemma {:induction false} GridEntry(points: map<string, Point>, offset: int, zv: int, rv: int, es: seq<Entry>, i: int)
    requires 0 <= i < |es| && Usable(points, es[i]) && NotOverwritten(es, i)
    ensures var g := Apply(points, offset, zv, rv, map[], es);
      var e := es[i];
      var p1, p2, p3, p4 := points[e.corners[0]], points[e.corners[1]], points[e.corners[2]], points[e.corners[3]];
      && e.name in g && e.name + "I" in g
      && g[e.name] == Inset(p1, p2, p3, p4, offset, zv, rv)
      && Drawable(g, e.name, zv)
  {
    var e := es[i];
    if i < |es| - 1 {
      var init := es[..|es| - 1];
      assert init[i] == e;
      assert NotOverwritten(init, i) by {
        forall j | i < j < |init| ensures init[j] == es[j] { }
      }
      GridEntry(points, offset, zv, rv, init, i);
      var last := es[|es| - 1];
      assert last.name != e.name && last.name + "I" != e.name && last.name != e.name + "I";
      SuffixCancel(last.name, e.name);
    }
  }

  // ---------------------------------------------------------------------------
  // move_to_point, draw_grid and draw_x
  // ---------------------------------------------------------------------------

  /** ASCII lower-casing, standing for `str.lower`. */
  function Lower(s: string): (t: string)
    ensures |t| == |s|
  {
    if |s| == 0 then "" else
      var c := s[0];
      [if 'A' <= c <= 'Z' then (c as int + 32) as char else c] + Lower(s[1..])
  }

  /** The keys draw_grid visits: home, the four grid lines, each drawn pen-down between its raised ends, home. */
  const GridSequence: seq<string> := [
    "home",
    "SI1", "S1", "S2", "SI2",
    "SI3", "S3", "S4", "SI4",
    "SI5", "S5", "S6", "SI6",
    "SI7", "S7", "S8", "SI8",
    "home"]

  /** The robot arm's calibration state. */
  class DobotGrid {
    var points: map<string, Point>
    var grid: map<string, seq<Point>>
    const x: int
    const y: int
    const z: int
    const r: int
    const d: int
    const offset: int

    /** The anchor, heights and spacing the arm is calibrated with; no points or grid yet. */
    constructor ()
      ensures points == map[] && grid == map[]
      ensures x == 250 && y == -80 && z == -30 && r == 0 && d == 40 && offset == 5
    {
      points := map[];
      grid := map[];
      x, y, z, r, d, offset := 250, -80, -30, 0, 40, 5;
    }

    /** generate_points: stores the reference-point table of the calibration constants. */
    method GeneratePoints()
      modifies this
      ensures points == PointTable(x, y, z, r, d) && grid == old(grid)
    {
      points := PointTable(x, y, z, r, d);
    }

    /**
     * generate_grid1 with the grid map given as its entries in file order
     * (distinct names, as in a JSON object). Without points it fails and
     * changes nothing; otherwise `grid` becomes the result of the loop.
     */
    method GenerateGrid1(gridMap: seq<Entry>) returns (ok: bool)
      modifies this
      ensures ok <==> old(points) != map[]
      ensures points == old(points)
      ensures !ok ==> grid == old(grid)
      ensures ok ==> grid == Apply(points, offset, z, r, map[], gridMap)
    {
      if points == map[] {
        return false;
      }
      var g: map<string, seq<Point>> := map[];
      for k := 0 to |gridMap|
        invariant g == Apply(points, offset, z, r, map[], gridMap[..k])
      {
        assert gridMap[..k + 1][..k] == gridMap[..k];
        var e := gridMap[k];
        if |e.corners| != 4 {
          continue;
        }
        if !(e.corners[0] in points && e.corners[1] in points && e.corners[2] in points && e.corners[3] in points) {
          continue;
        }
        var p1, p2, p3, p4 := points[e.corners[0]], points[e.corners[1]], points[e.corners[2]], points[e.corners[3]];
        g := g[e.name := Inset(p1, p2, p3, p4, offset, z, r)];
        g := g[e.name + "I" := Inset(p1, p2, p3, p4, offset, z + 20, r)];
      }
      assert gridMap[..|gridMap|] == gridMap;
      grid := g;
      return true;
    }

    /** move_to_point: home, nothing for an unknown key, otherwise a joint move to the stored point. */
    function MoveToPoint(key: string): (ms: seq<Motion>)
      reads this
      ensures ms == [Home] <==> Lower(key) == "home"
      ensures ms == [] <==> Lower(key) != "home" && key !in points
      ensures |ms| <= 1
      ensures |ms| == 1 && Lower(key) != "home" ==> key in points && ms[0] == MoveJ(points[key])
    {
      if Lower(key) == "home" then [Home]
      else if key !in points then []
      else [MoveJ(points[key])]
    }

    /** The motions move_to_point issues for each of `keys` in turn. */
    function Visit(keys: seq<string>): (ms: seq<Motion>)
      reads this
      ensures |ms| <= |keys|
    {
      if |keys| == 0 then [] else MoveToPoint(keys[0]) + Visit(keys[1..])
    }

    /** draw_grid: the motions of the grid-drawing sequence. */
    function DrawGrid(): (ms: seq<Motion>)
      reads this
      ensures 2 <= |ms| <= |GridSequence| && ms[0] == Home && ms[|ms| - 1] == Home
    {
      var inner := GridSequence[1..|GridSequence| - 1];
      assert GridSequence == ["home"] + inner + ["home"];
      assert Lower("home") == "home";
      VisitAppend(this, ["home"] + inner, ["home"]);
      VisitAppend(this, ["home"], inner);
      assert Visit(["home"]) == [Home];
      Visit(GridSequence)
    }

    /**
     * draw_x for cell (row, col): nothing when the cell or its raised copy is
     * not in the grid; otherwise home, the first diagonal from corner 0 to
     * corner 3 and the second from corner 1 to corner 2, each lowered onto
     * and lifted off the paper, and home.
     */
    function DrawX(row: int, col: int): (ms: seq<Motion>)
      reads this
      ensures ms == [] <==> CellName(row, col) !in grid || CellName(row, col) + "I" !in grid
                            || |grid[CellName(row, col)]| < 4 || |grid[CellName(row, col) + "I"]| < 4
      ensures ms != [] ==> (|ms| == 10 && ms[0] == Home && ms[9] == Home
                            && forall k | 1 <= k < 9 :: ms[k].MoveL?)
    {
      CrossAt(CellName(row, col))
    }

    /** The motions of draw_x once the cell's grid key `name` is known. */
    function CrossAt(name: string): (ms: seq<Motion>)
      reads this
      ensures ms == [] <==> name !in grid || name + "I" !in grid || |grid[name]| < 4 || |grid[name + "I"]| < 4
      ensures ms != [] ==> (|ms| == 10 && ms[0] == Home && ms[9] == Home
                            && forall k | 1 <= k < 9 :: ms[k].MoveL?)
    {
      var nameI := name + "I";
      if name !in grid || nameI !in grid then []
      else if |grid[name]| < 4 || |grid[nameI]| < 4 then []
      else
        var g, gi := grid[name], grid[nameI];
        [Home, MoveL(gi[0]), MoveL(g[0]), MoveL(g[3]), MoveL(gi[3]),
         MoveL(gi[1]), MoveL(g[1]), MoveL(g[2]), MoveL(gi[2]), Home]
    }
  }

  lemma {:induction false} VisitAppend(dg: DobotGrid, a: seq<string>, b: seq<string>)
    ensures dg.Visit(a + b) == dg.Visit(a) + dg.Visit(b)
  {
    var c := a + b;
    if |a| == 0 {
      assert c == b;
    } else {
      assert c[0] == a[0];
      assert c[1..] == a[1..] + b;
      VisitAppend(dg, a[1..], b);
      assert dg.Visit(c) == dg.MoveToPoint(a[0]) + dg.Visit(c[1..]);
      assert dg.Visit(a) == dg.MoveToPoint(a[0]) + dg.Visit(a[1..]);
    }
  }

  /** Lower the pen by 20 onto `a`, draw to `b`, and lift it by 20 there, all as joint moves. */
  function PenStroke(a: Point, b: Point): (ms: seq<Motion>)
    ensures |ms| == 4 && (forall k | 0 <= k < 4 :: ms[k].MoveJ?)
    ensures ms[1].p == a && ms[2].p == b
    ensures ms[0].p == Raised(ms[1].p, 20) && ms[3].p == Raised(ms[2].p, 20)
  {
    [MoveJ(Raised(a, 20)), MoveJ(a), MoveJ(b), MoveJ(Raised(b, 20))]
  }

  /**
   * Once the points are generated, draw_grid skips no key: it issues home,
   * a pen stroke along each of the four grid lines S1-S2, S3-S4, S5-S6 and
   * S7-S8, and home.
   */
  lemma DrawGridComplete(dg: DobotGrid)
    requires dg.points == PointTable(dg.x, dg.y, dg.z, dg.r, dg.d)
    ensures var m := dg.points;
      dg.DrawGrid() == [Home] + PenStroke(m["S1"], m["S2"]) + PenStroke(m["S3"], m["S4"])
                              + PenStroke(m["S5"], m["S6"]) + PenStroke(m["S7"], m["S8"]) + [Home]
  {
    RaisedLineEnds(dg.x, dg.y, dg.z, dg.r, dg.d);
    DrawGridStrokes(dg);
  }

  /** draw_grid over any table whose raised line ends are the line ends raised by 20. */
  lemma DrawGridStrokes(dg: DobotGrid)
    requires LineEndsRaised(dg.points)
    ensures var m := dg.points;
      && "S1" in m && "S2" in m && "S3" in m && "S4" in m && "S5" in m && "S6" in m && "S7" in m && "S8" in m
      && dg.DrawGrid() == [Home] + PenStroke(m["S1"], m["S2"]) + PenStroke(m["S3"], m["S4"])
                              + PenStroke(m["S5"], m["S6"]) + PenStroke(m["S7"], m["S8"]) + [Home]
  {
    assert SNames[0] == "S1" && SNames[1] == "S2" && SNames[2] == "S3" && SNames[3] == "S4";
    assert SNames[4] == "S5" && SNames[5] == "S6" && SNames[6] == "S7" && SNames[7] == "S8";
    assert SINames[0] == "SI1" && SINames[1] == "SI2" && SINames[2] == "SI3" && SINames[3] == "SI4";
    assert SINames[4] == "SI5" && SINames[5] == "SI6" && SINames[6] == "SI7" && SINames[7] == "SI8";
    var home := ["home"];
    var l1, l2, l3, l4 := ["SI1", "S1", "S2", "SI2"], ["SI3", "S3", "S4", "SI4"], ["SI5", "S5", "S6", "SI6"], ["SI7", "S7", "S8", "SI8"];
    assert GridSequence == home + l1 + l2 + l3 + l4 + home;
    assert Lower("home") == "home";
    assert dg.Visit(home) == [Home];
    VisitStroke(dg, "SI1", "S1", "S2", "SI2");
    VisitStroke(dg, "SI3", "S3", "S4", "SI4");
    VisitStroke(dg, "SI5", "S5", "S6", "SI6");
    VisitStroke(dg, "SI7", "S7", "S8", "SI8");
    VisitAppend(dg, home + l1 + l2 + l3 + l4, home);
    VisitAppend(dg, home + l1 + l2 + l3, l4);
    VisitAppend(dg, home + l1 + l2, l3);
    VisitAppend(dg, home + l1, l2);
    VisitAppend(dg, home, l1);
  }

  /** Visiting a raised end, its line end, the other line end and its raised copy is one pen stroke. */
  lemma VisitStroke(dg: DobotGrid, up1: string, down1: string, down2: string, up2: string)
    requires up1 in dg.points && down1 in dg.points && down2 in dg.points && up2 in dg.points
    requires |up1| == 3 && |down1| == 2 && |down2| == 2 && |up2| == 3
    requires dg.points[up1] == Raised(dg.points[down1], 20) && dg.points[up2] == Raised(dg.points[down2], 20)
    ensures dg.Visit([up1, down1, down2, up2]) == PenStroke(dg.points[down1], dg.points[down2])
  {
    var keys := [up1, down1, down2, up2];
    assert |Lower(up1)| != |"home"| && |Lower(down1)| != |"home"|;
    assert |Lower(down2)| != |"home"| && |Lower(up2)| != |"home"|;
    var k1 := keys[1..];
    var k2 := k1[1..];
    var k3 := k2[1..];
    assert k3[1..] == [];
    assert dg.Visit(k3) == dg.MoveToPoint(up2) + dg.Visit(k3[1..]);
    assert dg.Visit(k2) == dg.MoveToPoint(down2) + dg.Visit(k3);
    assert dg.Visit(k1) == dg.MoveToPoint(down1) + dg.Visit(k2);
  }

  /**
   * The four grid lines cross the whole square: S1-S2 and S3-S4 run along x
   * at y + d and y + 2d, S5-S6 and S7-S8 run along y at x + d and x + 2d,
   * each of length 3d, so they cut the square into nine d-by-d cells.
   */
  lemma GridLinesCrossSquare(x: int, y: int, z: int, r: int, d: int)
    ensures var m := PointTable(x, y, z, r, d);
      && m["S1"].y == m["S2"].y == y + d && m["S3"].y == m["S4"].y == y + 2 * d
      && m["S1"].x == m["S3"].x == x && m["S2"].x == m["S4"].x == x + 3 * d
      && m["S5"].x == m["S6"].x == x + d && m["S7"].x == m["S8"].x == x + 2 * d
      && m["S5"].y == m["S7"].y == y && m["S6"].y == m["S8"].y == y + 3 * d
  {
    PointsOnSquare(x, y, z, r, d);
    assert SNames[0] == "S1" && SNames[1] == "S2" && SNames[2] == "S3" && SNames[3] == "S4";
    assert SNames[4] == "S5" && SNames[5] == "S6" && SNames[6] == "S7" && SNames[7] == "S8";
  }

  /**
   * The pen discipline of draw_x on a cell whose raised copy is its corners
   * 20 higher, all at drawing height: every descent and ascent is vertical,
   * the two strokes at drawing height are the diagonals from corner 0 to
   * corner 3 and from corner 1 to corner 2, and the travel between them
   * keeps the pen raised.
   */
  lemma DrawXStrokes(dg: DobotGrid, row: int, col: int)
    requires Drawable(dg.grid, CellName(row, col), dg.z)
    ensures var ms := dg.DrawX(row, col);
      var g := dg.grid[CellName(row, col)];
      && |ms| == 10
      && ms[1].p == Raised(ms[2].p, 20) && ms[4].p == Raised(ms[3].p, 20)
      && ms[5].p == Raised(ms[6].p, 20) && ms[8].p == Raised(ms[7].p, 20)
      && ms[2].p == g[0] && ms[3].p == g[3] && ms[6].p == g[1] && ms[7].p == g[2]
      && ms[2].p.z == dg.z && ms[3].p.z == dg.z && ms[6].p.z == dg.z && ms[7].p.z == dg.z
      && ms[4].p.z == dg.z + 20 && ms[5].p.z == dg.z + 20
  {
  }

  /** draw_x on a cell no usable grid-map entry created issues no motion at all. */
  lemma DrawXMissingCell(dg: DobotGrid, es: seq<Entry>, row: int, col: int)
    requires dg.grid == Apply(dg.points, dg.offset, dg.z, dg.r, map[], es)
    requires forall i | 0 <= i < |es| :: Usable(dg.points, es[i]) ==> es[i].name != CellName(row, col)
    ensures dg.DrawX(row, col) == []
  {
    GridKeys(dg.points, dg.offset, dg.z, dg.r, es, CellName(row, col));
  }

  /** draw_x on a cell built by generate_grid1 from an entry no later entry overwrites has the pen discipline above. */
  lemma DrawXBuiltCell(dg: DobotGrid, es: seq<Entry>, i: int, row: int, col: int)
    requires dg.grid == Apply(dg.points, dg.offset, dg.z, dg.r, map[], es)
    requires 0 <= i < |es| && Usable(dg.points, es[i]) && NotOverwritten(es, i) && es[i].name == CellName(row, col)
    ensures Drawable(dg.grid, CellName(row, col), dg.z)
    ensures |dg.DrawX(row, col)| == 10
  {
    GridEntry(dg.points, dg.offset, dg.z, dg.r, es, i);
    DrawXStrokes(dg, row, col);
  }
}
