/**
 * Detection post-processing of detectGrid.py: class ids become tokens, each
 * grid cell keeps its most confident detection, and the board is turned by
 * 180 degrees before it is returned.
 */
module DetectGrid {
  import opened Wrappers

  /** The detector's class ids and the token each one stands for. */
  const ID2TOKEN: map<int, string> := map[0 := "X", 1 := "O", 2 := " "]

  /** `ID2TOKEN.get(c, " ")`. */
  function TokenOf(classId: int): (t: string)
    ensures t == "X" <==> classId == 0
    ensures t == "O" <==> classId == 1
    ensures t == " " <==> classId != 0 && classId != 1
  {
    if classId in ID2TOKEN then ID2TOKEN[classId] else " "
  }

  /**
   * One detected box, reduced to what the board needs: the grid cell its
   * centre falls in, its class id and its confidence.
   */
  datatype Detection = Detection(row: int, col: int, classId: int, conf: real)

  predicate InGrid(d: Detection)
  {
    0 <= d.row < 3 && 0 <= d.col < 3
  }

  /** A 3x3 board of detected tokens. */
  type Grid = g: seq<seq<string>> | |g| == 3 && forall i | 0 <= i < |g| :: |g[i]| == 3
    witness [[" ", " ", " "], [" ", " ", " "], [" ", " ", " "]]

  const BlankGrid: Grid := [[" ", " ", " "], [" ", " ", " "], [" ", " ", " "]]

  /** `s[::-1]`. */
  function Backwards<T>(s: seq<T>): (r: seq<T>)
    ensures |r| == |s|
  {
    seq(|s|, i requires 0 <= i < |s| => s[|s| - 1 - i])
  }

  /** reverse_nested_lists: reverses the order of the rows and each row. */
  function ReverseNested<T>(data: seq<seq<T>>): (r: seq<seq<T>>)
    ensures |r| == |data|
  {
    seq(|data|, i requires 0 <= i < |data| => Backwards(data[|data| - 1 - i]))
  }

  /** Reversing twice gives the input back, whatever its shape. */
  lemma ReverseNestedInvolution<T>(data: seq<seq<T>>)
    ensures ReverseNested(ReverseNested(data)) == data
  {
    var r := ReverseNested(ReverseNested(data));
    forall i | 0 <= i < |data|
      ensures r[i] == data[i]
    {
      assert Backwards(Backwards(data[i])) == data[i];
    }
  }

  /** On a 3x3 board the reversal is the 180-degree rotation. */
  lemma ReverseNestedRotates<T>(g: seq<seq<T>>)
    requires |g| == 3 && forall i | 0 <= i < 3 :: |g[i]| == 3
    ensures var r := ReverseNested(g);
      |r| == 3 && (forall i | 0 <= i < 3 :: |r[i]| == 3)
      && forall i, j :: 0 <= i < 3 && 0 <= j < 3 ==> r[i][j] == g[2 - i][2 - j]
  {
    var r := ReverseNested(g);
    forall i | 0 <= i < 3
      ensures r[i] == Backwards(g[2 - i]) && |r[i]| == 3
    {
    }
  }

  /**
   * The (token, best_conf) pair of cell (r, c) after the first n detections:
   * a detection replaces it when its confidence is strictly larger, starting
   * from (" ", -1.0).
   */
  function BestIn(dets: seq<Detection>, n: nat, r: int, c: int): (string, real)
    requires n <= |dets|
  {
    if n == 0 then (" ", -1.0)
    else
      var (token, best) := BestIn(dets, n - 1, r, c);
      var d := dets[n - 1];
      if d.row == r && d.col == c && d.conf > best then (TokenOf(d.classId), d.conf) else (token, best)
  }

  /**
   * Cell (r, c) ends up with the token of the most confident of the first n
   * detections in it, the earliest one among equals, provided its confidence
   * beats the starting -1.0; otherwise it stays " ".
   */
  lemma {:induction false} BestInSpec(dets: seq<Detection>, n: nat, r: int, c: int)
    requires n <= |dets|
    ensures var (token, best) := BestIn(dets, n, r, c);
      && ((forall k :: 0 <= k < n && dets[k].row == r && dets[k].col == c ==> dets[k].conf <= -1.0) ==>
            token == " " && best == -1.0)
      && ((exists k :: 0 <= k < n && dets[k].row == r && dets[k].col == c && dets[k].conf > -1.0) ==>
            exists k :: 0 <= k < n && dets[k].row == r && dets[k].col == c
              && token == TokenOf(dets[k].classId) && best == dets[k].conf && best > -1.0
              && (forall k' :: 0 <= k' < n && dets[k'].row == r && dets[k'].col == c ==> dets[k'].conf <= best)
              && (forall k' :: 0 <= k' < k && dets[k'].row == r && dets[k'].col == c ==> dets[k'].conf < best))
  {
    if n > 0 {
      BestInSpec(dets, n - 1, r, c);
      var (token, best) := BestIn(dets, n - 1, r, c);
      var d := dets[n - 1];
      if d.row == r && d.col == c && d.conf > best {
        var k := n - 1;
        assert dets[k].row == r && dets[k].col == c && TokenOf(dets[k].classId) == TokenOf(d.classId);
      }
    }
  }

  /** A snapshot of a 3x3 array of tokens. */
  function GridOf(a: array2<string>): (g: Grid)
    requires a.Length0 == 3 && a.Length1 == 3
    reads a
  {
    seq(3, i requires 0 <= i < 3 reads a => seq(3, j requires 0 <= j < 3 reads a => a[i, j]))
  }

  /**
   * The loop of process_frame: `board` and `best_conf` start blank and at
   * -1.0, and each detection, in the detector's order, takes its cell when
   * its confidence is strictly larger than the cell's best so far.
   */
  method Tally(dets: seq<Detection>) returns (tokens: Grid)
    requires forall k :: 0 <= k < |dets| ==> InGrid(dets[k])
    ensures forall r, c :: 0 <= r < 3 && 0 <= c < 3 ==> tokens[r][c] == BestIn(dets, |dets|, r, c).0
  {
    var cells := new string[3, 3]((_, _) => " ");
    var bestConf := new real[3, 3]((_, _) => -1.0);
    for k := 0 to |dets|
      invariant forall r, c :: 0 <= r < 3 && 0 <= c < 3 ==> cells[r, c] == BestIn(dets, k, r, c).0
      invariant forall r, c :: 0 <= r < 3 && 0 <= c < 3 ==> bestConf[r, c] == BestIn(dets, k, r, c).1
    {
      var d := dets[k];
      var token := TokenOf(d.classId);
      if d.conf > bestConf[d.row, d.col] {
        cells[d.row, d.col] := token;
        bestConf[d.row, d.col] := d.conf;
      }
    }
    tokens := GridOf(cells);
  }

  /**
   * The board part of process_frame. `prediction` is None when the detector
   * gives no result; otherwise it lists the detections in the detector's
   * order. Both early returns (no result, no boxes) give the blank board;
   * otherwise each cell keeps its most confident detection and the board is
   * turned by 180 degrees.
   */
  method ProcessFrame(prediction: Option<seq<Detection>>) returns (board: Grid)
    requires prediction.Some? ==> forall k :: 0 <= k < |prediction.value| ==> InGrid(prediction.value[k])
    ensures prediction.None? ==> board == BlankGrid
    ensures prediction.Some? && |prediction.value| == 0 ==> board == BlankGrid
    ensures prediction.Some? ==> forall r, c :: 0 <= r < 3 && 0 <= c < 3 ==>
      board[r][c] == BestIn(prediction.value, |prediction.value|, 2 - r, 2 - c).0
  {
    if prediction.None? || |prediction.value| == 0 {
      return BlankGrid;
    }
    var dets := prediction.value;
    var g := Tally(dets);
    ReverseNestedRotates(g);
    board := ReverseNested(g);
  }

  /**
   * The early returns hand back the board unreversed; that agrees with the
   * full path, because the blank board turned by 180 degrees is itself.
   */
  lemma NoDetectionsBlank()
    ensures ReverseNested(BlankGrid) == BlankGrid
  {
    ReverseNestedRotates(BlankGrid);
    forall i | 0 <= i < 3
      ensures ReverseNested(BlankGrid)[i] == BlankGrid[i]
    {
    }
  }

  /** A cell no detection falls in keeps its starting " " and -1.0, however many detections there are. */
  lemma {:induction false} UndetectedCellBlank(dets: seq<Detection>, n: nat, r: int, c: int)
    requires n <= |dets|
    requires forall k | 0 <= k < n :: dets[k].row != r || dets[k].col != c
    ensures BestIn(dets, n, r, c) == (" ", -1.0)
  {
    if n > 0 {
      UndetectedCellBlank(dets, n - 1, r, c);
    }
  }

  /** Full path on an empty detection list: the board is blank, as the early returns give. */
  lemma EmptyFrameBlank(tokens: Grid)
    requires forall r, c :: 0 <= r < 3 && 0 <= c < 3 ==> tokens[r][c] == BestIn([], 0, r, c).0
    ensures ReverseNested(tokens) == BlankGrid
  {
    assert tokens == BlankGrid by {
      forall i | 0 <= i < 3
        ensures tokens[i] == BlankGrid[i]
      {
        assert tokens[i][0] == BestIn([], 0, i, 0).0;
      }
    }
    NoDetectionsBlank();
  }
}
