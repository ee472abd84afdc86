/** The closed table of hex-grid cells and the coordinate validator. */
module Coords {

  /** The cells of the map, row by row: rows "a" to "g" hold 4, 5, 6, 7, 6,
      5 and 4 cells, 37 tokens in all. */
  const Directions: seq<string> := [
    "a1", "a2", "a3", "a4",
    "b1", "b2", "b3", "b4", "b5",
    "c1", "c2", "c3", "c4", "c5", "c6",
    "d1", "d2", "d3", "d4", "d5", "d6", "d7",
    "e1", "e2", "e3", "e4", "e5", "e6",
    "f1", "f2", "f3", "f4", "f5",
    "g1", "g2", "g3", "g4"
  ]

  /** The same table as a set. */
  const Grid: set<string> := set d | d in Directions

  /** Lower-cases one letter of the Latin alphabet; other characters are kept. */
  function ToLowerChar(c: char): char {
    if 'A' <= c <= 'Z' then (c as int - 'A' as int + 'a' as int) as char else c
  }

  /** `strings.ToLower`, restricted to the Latin alphabet. */
  function ToLower(s: string): string {
    seq(|s|, i requires 0 <= i < |s| => ToLowerChar(s[i]))
  }

  /** `isValidCoord`: the lower-cased token is one of the grid's cells, that
      is, a row letter followed by a column digit the row has. */
  predicate IsValidCoord(coord: string)
    ensures IsValidCoord(coord) <==> InHexGrid(ToLower(coord))
  {
    GridIsHexGrid(ToLower(coord));
    ToLower(coord) in Grid
  }

  /** `isValidCoord` as the source runs it: lower-case the token, then scan
      the table and stop at the first equal entry. */
  method CheckCoord(coord: string) returns (ok: bool)
    ensures ok <==> IsValidCoord(coord)
    ensures ok <==> InHexGrid(ToLower(coord))
  {
    var lowered := ToLower(coord);
    GridIsHexGrid(lowered);
    for i := 0 to |Directions|
      invariant lowered !in Directions[..i]
    {
      if lowered == Directions[i] {
        return true;
      }
    }
    return false;
  }

  // ----- An independent description of the table ---------------------------

  /** Number of cells in the row named by `row` ('a' to 'g'); 0 for any other
      character. */
  function RowLength(row: char): nat {
    match row
    case 'a' => 4
    case 'b' => 5
    case 'c' => 6
    case 'd' => 7
    case 'e' => 6
    case 'f' => 5
    case 'g' => 4
    case _ => 0
  }

  /** A token names a cell when it is a row letter followed by a column digit
      from 1 up to that row's length. */
  predicate InHexGrid(t: string) {
    |t| == 2 && '1' <= t[1] && (t[1] as int - '0' as int) <= RowLength(t[0])
  }

  /** Position of a cell in the row-by-row table. */
  function RowStart(row: char): nat {
    match row
    case 'a' => 0
    case 'b' => 4
    case 'c' => 9
    case 'd' => 15
    case 'e' => 22
    case 'f' => 28
    case 'g' => 33
    case _ => 37
  }

  function CellIndex(t: string): int
    requires |t| == 2
  {
    RowStart(t[0]) + (t[1] as int - '1' as int)
  }

  /** Every entry of the table satisfies the row rule and sits at the index
      the row rule gives it. */
  lemma DirectionsFollowRowRule(i: nat)
    requires i < |Directions|
    ensures InHexGrid(Directions[i])
    ensures CellIndex(Directions[i]) == i
  {
  }

  /** The table holds each token once. */
  lemma DirectionsDistinct(i: nat, j: nat)
    requires i < j < |Directions|
    ensures Directions[i] != Directions[j]
  {
  }

  /** Every token that satisfies the row rule is in the table. */
  lemma HexGridInDirections(t: string)
    requires InHexGrid(t)
    ensures t in Directions
  {
    assert t == [t[0], t[1]];
    var k := CellIndex(t);
    assert 0 <= k < |Directions| by {
      assert RowLength(t[0]) > 0;
    }
    var d := Directions[k];
    DirectionsFollowRowRule(k);
    assert d[0] == t[0] && d[1] == t[1] by {
      // Both satisfy the row rule and have the same index.
      assert RowLength(d[0]) > 0 && RowLength(t[0]) > 0;
    }
    assert d == [d[0], d[1]];
  }

  /** The table is exactly the set of tokens that satisfy the row rule. */
  lemma GridIsHexGrid(t: string)
    ensures t in Grid <==> InHexGrid(t)
    ensures t in Grid <==> t in Directions
  {
    if t in Directions {
      var i :| 0 <= i < |Directions| && Directions[i] == t;
      DirectionsFollowRowRule(i);
    }
    if InHexGrid(t) {
      HexGridInDirections(t);
    }
  }

  /** A sequence without repetitions has as many distinct elements as entries. */
  lemma {:induction false} DistinctCardinality<T>(s: seq<T>)
    requires forall i, j :: 0 <= i < j < |s| ==> s[i] != s[j]
    ensures |set x | x in s| == |s|
  {
    if s != [] {
      var rest := s[1..];
      DistinctCardinality(rest);
      assert (set x | x in s) == {s[0]} + (set x | x in rest);
      assert s[0] !in rest by {
        forall j | 0 <= j < |rest| ensures rest[j] != s[0] {
          assert rest[j] == s[j + 1];
        }
      }
    }
  }

  /** The grid has 37 cells. */
  lemma GridSize()
    ensures |Grid| == 37
  {
    forall i, j | 0 <= i < j < |Directions| ensures Directions[i] != Directions[j] {
      DirectionsDistinct(i, j);
    }
    DistinctCardinality(Directions);
  }

  /** Lower-casing twice is lower-casing once. */
  lemma ToLowerIdempotent(s: string)
    ensures ToLower(ToLower(s)) == ToLower(s)
  {
  }

  /** The validator ignores letter case. */
  lemma ValidCoordIgnoresCase(s: string)
    ensures IsValidCoord(s) <==> IsValidCoord(ToLower(s))
  {
    ToLowerIdempotent(s);
  }

  /** Tokens on the inner side of the row boundaries are accepted, in either
      letter case. */
  lemma AcceptedExamples()
    ensures IsValidCoord("a4") && IsValidCoord("d7") && IsValidCoord("D4") && IsValidCoord("G4")
  {
    assert IsValidCoord("a4") by { ValidByRowRule("a4", "a4"); }
    assert IsValidCoord("d7") by { ValidByRowRule("d7", "d7"); }
    assert IsValidCoord("D4") by { ValidByRowRule("D4", "d4"); }
    assert IsValidCoord("G4") by { ValidByRowRule("G4", "g4"); }
  }

  /** Tokens past a row's end or before its start are rejected. */
  lemma RejectedOutsideRows()
    ensures !IsValidCoord("a5") && !IsValidCoord("g5") && !IsValidCoord("a0")
  {
    assert !IsValidCoord("a5") by { ValidByRowRule("a5", "a5"); }
    assert !IsValidCoord("g5") by { ValidByRowRule("g5", "g5"); }
    assert !IsValidCoord("a0") by { ValidByRowRule("a0", "a0"); }
  }

  /** Tokens of an unknown row, or not two characters long, are rejected. */
  lemma RejectedMalformed()
    ensures !IsValidCoord("h1") && !IsValidCoord("z9") && !IsValidCoord("") && !IsValidCoord("d4 ")
  {
    assert !IsValidCoord("h1") by { ValidByRowRule("h1", "h1"); }
    assert !IsValidCoord("z9") by { ValidByRowRule("z9", "z9"); }
    assert !IsValidCoord("") by { ValidByRowRule("", ""); }
    assert !IsValidCoord("d4 ") by { ValidByRowRule("d4 ", "d4 "); }
  }

  lemma ValidByRowRule(s: string, lowered: string)
    requires ToLower(s) == lowered
    ensures IsValidCoord(s) <==> InHexGrid(lowered)
  {
    GridIsHexGrid(lowered);
  }
}
