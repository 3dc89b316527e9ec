/** The textual island map: Python's `str.split()` cuts it into rows, and the `Island`
    constructor checks, in this order, that there is a row at all, that the rows form a
    rectangle, that the border is ocean and that every letter names a landscape. */
module IslandMaps {
  import opened Wrappers
  import opened CellRules

  /** The characters Python's `str.isspace` accepts, which `str.split()` cuts on. */
  predicate IsSpace(ch: char)
  {
    || ch in {' ', '\t', '\n', '\r', '\U{000b}', '\U{000c}', '\U{001c}', '\U{001d}', '\U{001e}', '\U{001f}'}
    || ch in {'\U{0085}', '\U{00a0}', '\U{1680}', '\U{2028}', '\U{2029}', '\U{202f}', '\U{205f}', '\U{3000}'}
    || ('\U{2000}' <= ch <= '\U{200a}')
  }

  /** No character of `s` is white space. */
  predicate Solid(s: string)
  {
    forall i :: 0 <= i < |s| ==> !IsSpace(s[i])
  }

  /** The longest prefix of `s` without white space. */
  function Word(s: string): (w: string)
    ensures |w| <= |s| && w == s[..|w|] && Solid(w)
    ensures |w| == |s| || IsSpace(s[|w|])
  {
    if s == [] || IsSpace(s[0]) then [] else [s[0]] + Word(s[1..])
  }

  /** `str.split()` with no separator: the maximal runs of non-space characters, in order;
      leading, trailing and repeated white space yield no empty words. */
  function Words(s: string): (ws: seq<string>)
    ensures forall k :: 0 <= k < |ws| ==> ws[k] != [] && Solid(ws[k])
    decreases |s|
  {
    if s == [] then []
    else if IsSpace(s[0]) then Words(s[1..])
    else
      var w := Word(s);
      [w] + Words(s[|w|..])
  }

  /** Rows written one per line. */
  function Lines(rows: seq<string>): string
  {
    if rows == [] then "" else if |rows| == 1 then rows[0] else rows[0] + "\n" + Lines(rows[1..])
  }

  /** A word followed by nothing or by white space reads back as itself. */
  lemma {:induction false} WordOfSolid(w: string, rest: string)
    requires Solid(w) && (rest == [] || IsSpace(rest[0]))
    ensures Word(w + rest) == w
    decreases |w|
  {
    if w != [] {
      assert (w + rest)[1..] == w[1..] + rest;
      WordOfSolid(w[1..], rest);
    } else {
      assert w + rest == rest;
    }
  }

  /** Splitting rows written one per line gives the rows back, whenever no row is empty or
      holds white space: the map text and its rows determine each other. */
  lemma {:induction false} WordsOfLines(rows: seq<string>)
    requires forall k :: 0 <= k < |rows| ==> rows[k] != [] && Solid(rows[k])
    ensures Words(Lines(rows)) == rows
    decreases |rows|
  {
    if rows != [] {
      var w := rows[0];
      if |rows| == 1 {
        WordOfSolid(w, []);
        assert w + [] == w && Lines(rows) == w;
        assert Lines(rows)[|w|..] == [];
      } else {
        var rest := "\n" + Lines(rows[1..]);
        WordOfSolid(w, rest);
        assert Lines(rows) == w + rest;
        assert (w + rest)[|w|..] == rest;
        assert rest[1..] == Lines(rows[1..]);
        WordsOfLines(rows[1..]);
        assert rows == [w] + rows[1..];
      }
    }
  }

  /** The errors `Island.__init__` of island_nature.py raises, each a `ValueError` there. */
  datatype MapError = EmptyMap | NotRectangle | NotSurroundedByOcean | UnknownLandscape

  /** The landscape each letter of the map stands for. */
  function KindOf(ch: char): (k: Option<Kind>)
    ensures k.Some? <==> ch in {'J', 'S', 'D', 'M', 'O'}
    ensures k == Some(Ocean) <==> ch == 'O'
  {
    match ch
    case 'J' => Some(Jungle)
    case 'S' => Some(Savannah)
    case 'D' => Some(Desert)
    case 'M' => Some(Mountain)
    case 'O' => Some(Ocean)
    case _ => None
  }

  /** `max(len(row) for row in rows)`. */
  function Width(rows: seq<string>): (w: nat)
    requires rows != []
    ensures forall k :: 0 <= k < |rows| ==> |rows[k]| <= w
    ensures exists k :: 0 <= k < |rows| && |rows[k]| == w
  {
    if |rows| == 1 then |rows[0]|
    else
      var w := Width(rows[..|rows| - 1]);
      assert forall k :: 0 <= k < |rows| - 1 ==> rows[..|rows| - 1][k] == rows[k];
      if |rows[|rows| - 1]| > w then |rows[|rows| - 1]| else w
  }

  /** Every row is as long as the longest. */
  predicate Rectangular(rows: seq<string>)
    requires rows != []
  {
    forall k :: 0 <= k < |rows| ==> |rows[k]| == Width(rows)
  }

  /** Every letter of the row is ocean. */
  predicate AllOcean(row: string)
  {
    forall i :: 0 <= i < |row| ==> row[i] == 'O'
  }

  /** The first and the last row are all ocean, and so are the first and last letter of
      every row between them. */
  predicate OceanBorder(rows: seq<string>)
    requires forall k :: 0 <= k < |rows| ==> rows[k] != []
  {
    && (rows != [] ==> AllOcean(rows[0]) && AllOcean(rows[|rows| - 1]))
    && forall k :: 1 <= k < |rows| - 1 ==> rows[k][0] == 'O' && rows[k][|rows[k]| - 1] == 'O'
  }

  /** Every letter names a landscape. */
  predicate KnownLetters(rows: seq<string>)
  {
    forall k, i :: 0 <= k < |rows| && 0 <= i < |rows[k]| ==> KindOf(rows[k][i]).Some?
  }

  /** What the constructor raises for the rows `rows`, checked in its order, or nothing. */
  function MapErrorOf(rows: seq<string>): Option<MapError>
    requires forall k :: 0 <= k < |rows| ==> rows[k] != []
  {
    if rows == [] then Some(EmptyMap)
    else if !Rectangular(rows) then Some(NotRectangle)
    else if !OceanBorder(rows) then Some(NotSurroundedByOcean)
    else if !KnownLetters(rows) then Some(UnknownLandscape)
    else None
  }

  /** The rows of a map the constructor accepts: at least one, all of one width, ocean all
      round, and nothing but J, S, D, M and O. */
  ghost predicate GoodMap(rows: seq<string>)
  {
    && rows != []
    && (forall k :: 0 <= k < |rows| ==> |rows[k]| == |rows[0]| && rows[k] != [])
    && (forall k, i :: 0 <= k < |rows| && 0 <= i < |rows[k]| ==> KindOf(rows[k][i]).Some?)
    && forall k, i :: 0 <= k < |rows| && 0 <= i < |rows[k]| && OnBorder(|rows|, |rows[0]|, k, i) ==> rows[k][i] == 'O'
  }

  /** Position `(r, c)` lies on the border of a `rows` by `cols` grid. */
  predicate OnBorder(rows: nat, cols: nat, r: nat, c: nat)
  {
    r == 0 || r == rows - 1 || c == 0 || c == cols - 1
  }

  /** The constructor accepts exactly the good maps. */
  lemma MapErrorOfNone(rows: seq<string>)
    requires forall k :: 0 <= k < |rows| ==> rows[k] != []
    ensures MapErrorOf(rows).None? <==> GoodMap(rows)
  {
    if rows != [] && Rectangular(rows) {
      assert forall k :: 0 <= k < |rows| ==> |rows[k]| == |rows[0]|;
    }
    if GoodMap(rows) {
      assert forall k :: 0 <= k < |rows| ==> |rows[k]| == Width(rows);
    }
  }

  /** The errors come in the constructor's order: a ragged map is reported as such whatever
      its letters, and a broken border before an unknown letter. */
  lemma MapErrorOrder(rows: seq<string>)
    requires forall k :: 0 <= k < |rows| ==> rows[k] != []
    ensures MapErrorOf(rows) == Some(EmptyMap) <==> rows == []
    ensures MapErrorOf(rows) == Some(NotRectangle) <==> rows != [] && exists k :: 0 <= k < |rows| && |rows[k]| != |rows[0]|
    ensures rows != [] && Rectangular(rows) && !OceanBorder(rows) ==> MapErrorOf(rows) == Some(NotSurroundedByOcean)
  {
    if rows != [] && !Rectangular(rows) {
      var k :| 0 <= k < |rows| && |rows[k]| != Width(rows);
      var j :| 0 <= j < |rows| && |rows[j]| == Width(rows);
      assert |rows[k]| != |rows[0]| || |rows[j]| != |rows[0]|;
    }
  }

  /** Position `l` lies off the border of a `rows` by `cols` map. */
  predicate Interior(rows: int, cols: int, l: (int, int))
  {
    1 <= l.0 < rows - 1 && 1 <= l.1 < cols - 1
  }

  /** Position `a` comes before position `b` row by row. */
  predicate RowMajor(a: (int, int), b: (int, int))
  {
    a.0 < b.0 || (a.0 == b.0 && a.1 < b.1)
  }

  /** The list comprehension of `randomize_cell_structure`: the positions
      `(row, col) for row in range(1, rows - 1) for col in range(1, cols - 1)`. */
  function InteriorLocations(rows: nat, cols: nat): seq<(int, int)>
  {
    if rows < 3 then [] else InteriorLocations(rows - 1, cols) + InteriorRow(rows - 2, cols)
  }

  /** The inner loop of the comprehension: `(r, col) for col in range(1, cols - 1)`. */
  function InteriorRow(r: int, cols: nat): seq<(int, int)>
  {
    seq(Span(cols), j => (r, j + 1))
  }

  /** The comprehension lists exactly the positions off the border, each once, row by row. */
  lemma {:induction false} InteriorLocationsFacts(rows: nat, cols: nat)
    ensures forall l :: l in InteriorLocations(rows, cols) <==> Interior(rows, cols, l)
    ensures forall i, j :: 0 <= i < j < |InteriorLocations(rows, cols)| ==> RowMajor(InteriorLocations(rows, cols)[i], InteriorLocations(rows, cols)[j])
    decreases rows
  {
    if rows >= 3 {
      InteriorLocationsFacts(rows - 1, cols);
      var front, row := InteriorLocations(rows - 1, cols), InteriorRow(rows - 2, cols);
      var locs := front + row;
      assert InteriorLocations(rows, cols) == locs;
      assert forall j :: 0 <= j < |row| ==> row[j] == (rows - 2, j + 1);
      forall l
        ensures l in locs <==> Interior(rows, cols, l)
      {
        if Interior(rows, cols, l) && l.0 == rows - 2 {
          assert row[l.1 - 1] == l;
        }
        if l in row {
          var j :| 0 <= j < |row| && row[j] == l;
        }
      }
      forall i, j | 0 <= i < j < |locs|
        ensures RowMajor(locs[i], locs[j])
      {
        if j < |front| {
          assert locs[i] == front[i] && locs[j] == front[j];
        } else if i < |front| {
          assert locs[i] == front[i] && front[i] in front && locs[j] == row[j - |front|];
        } else {
          assert locs[i] == row[i - |front|] && locs[j] == row[j - |front|];
        }
      }
    }
  }

  /** There are `(rows - 2) * (cols - 2)` positions off the border of a map at least two
      letters high and wide, and none on a narrower one. */
  lemma {:induction false} InteriorCount(rows: nat, cols: nat)
    ensures |InteriorLocations(rows, cols)| == Span(rows) * Span(cols)
    decreases rows
  {
    if rows >= 3 {
      InteriorCount(rows - 1, cols);
    }
  }

  /** The length of `range(1, n - 1)`. */
  function Span(n: int): nat
  {
    if n < 2 then 0 else n - 2
  }
}
