// The checkerboard layer drawn behind translucent colours: half-transparent
// white squares on every cell whose row and column have the same parity.

module Chess {
  import opened Geometry
  import opened Colors
  import opened RealArith

  /** The default `elementSize` of the layer. */
  const DefaultElementSize: real := 12.0

  /** The colour of every square: white at half opacity. */
  const SquareColor: Rgba := Rgba(1.0, 1.0, 1.0, 0.5)

  /** One `ctx.fill` call, with the colour set just before it. */
  datatype Fill = Fill(rect: Rect, color: Rgba)

  /** `truncatingRemainder(dividingBy:)`: `x - d * trunc(x / d)`, with the sign of `x`. */
  function TruncRem(x: real, d: real): real
    requires d != 0.0
  {
    x - d * Trunc(x / d) as real
  }

  /** Whether the stride value `i * e` is a multiple of the double element size. */
  predicate IsDivide(i: nat, e: real)
    requires e > 0.0
  {
    TruncRem(i as real * e, e * 2.0) == 0.0
  }

  /** The loop's test: the square at column `col`, row `row` is filled when both or neither divide. */
  predicate IsFilled(e: real, row: nat, col: nat)
    requires e > 0.0
  {
    IsDivide(row, e) == IsDivide(col, e)
  }

  /** The square at column `col`, row `row`. */
  function CellRect(e: real, row: nat, col: nat): Rect {
    Rect(Point(col as real * e, row as real * e), Size(e, e))
  }

  lemma Cancel(a: real, b: real, e: real)
    requires e > 0.0 && a * e == b * e
    ensures a == b
  {
    ScaleLess(a, b, e);
    ScaleLess(b, a, e);
  }

  /** The stride value `i * e` divides by `2 * e` exactly when `i` is even. */
  lemma {:induction false} DivideIffEven(i: nat, e: real)
    requires e > 0.0
    ensures IsDivide(i, e) <==> i % 2 == 0
  {
    var x, d := i as real * e, e * 2.0;
    var q := x / d;
    assert q * d == x;
    assert (2.0 * q) * e == q * d;
    Cancel(2.0 * q, i as real, e);
    var n := Trunc(q);
    assert n == i / 2;
    var r := i - 2 * n;
    assert r == i % 2;
    assert TruncRem(x, d) == x - d * n as real;
    assert d * n as real == (2 * n) as real * e;
    assert x - (2 * n) as real * e == r as real * e;
    ProductZero(r as real, e);
  }

  /** A square is filled exactly when its row and column have the same parity. */
  lemma FilledIffSameParity(e: real, row: nat, col: nat)
    requires e > 0.0
    ensures IsFilled(e, row, col) <==> row % 2 == col % 2
  {
    DivideIffEven(row, e);
    DivideIffEven(col, e);
  }

  /** The top-left square is filled, and side-by-side squares never both are or both are not. */
  lemma Alternates(e: real, row: nat, col: nat)
    requires e > 0.0
    ensures IsFilled(e, 0, 0)
    ensures IsFilled(e, row, col) != IsFilled(e, row, col + 1)
    ensures IsFilled(e, row, col) != IsFilled(e, row + 1, col)
  {
    FilledIffSameParity(e, 0, 0);
    FilledIffSameParity(e, row, col);
    FilledIffSameParity(e, row, col + 1);
    FilledIffSameParity(e, row + 1, col);
    assert (col + 1) % 2 != col % 2;
    assert (row + 1) % 2 != row % 2;
  }

  /** The fills of the first `cols` columns of row `row`, left to right. */
  function RowFills(e: real, row: nat, cols: nat): seq<Fill>
    requires e > 0.0
  {
    if cols == 0 then []
    else RowFills(e, row, cols - 1) +
         (if IsFilled(e, row, cols - 1) then [Fill(CellRect(e, row, cols - 1), SquareColor)] else [])
  }

  /** The fills of the first `rows` rows, top to bottom. */
  function BoardFills(e: real, rows: nat, cols: nat): seq<Fill>
    requires e > 0.0
  {
    if rows == 0 then [] else BoardFills(e, rows - 1, cols) + RowFills(e, rows - 1, cols)
  }

  /**
   * `draw(in:)`: for every stride value `y` below the height and, inside it,
   * every stride value `x` below the width, a square when the test passes.
   */
  method Draw(e: real, bounds: Rect) returns (fills: seq<Fill>)
    requires e > 0.0
    ensures fills == BoardFills(e, StrideCount(Height(bounds), e), StrideCount(Width(bounds), e))
  {
    ghost var rows := StrideCount(Height(bounds), e);
    ghost var cols := StrideCount(Width(bounds), e);
    fills := [];
    var row: nat := 0;
    while row as real * e < Height(bounds)
      invariant row <= rows
      invariant fills == BoardFills(e, row, cols)
      decreases rows - row
    {
      StrideIndexBelow(row, Height(bounds), e);
      var col: nat := 0;
      while col as real * e < Width(bounds)
        invariant col <= cols
        invariant fills == BoardFills(e, row, cols) + RowFills(e, row, col)
        decreases cols - col
      {
        StrideIndexBelow(col, Width(bounds), e);
        var doubleElementSize := e * 2.0;
        var isRowDivide := TruncRem(col as real * e, doubleElementSize) == 0.0;
        var isColumnDivide := TruncRem(row as real * e, doubleElementSize) == 0.0;
        var colorRect := CellRect(e, row, col);
        var isBlackColor := isColumnDivide == isRowDivide;
        assert isBlackColor == IsFilled(e, row, col);
        if isBlackColor {
          fills := fills + [Fill(colorRect, SquareColor)];
        }
        col := col + 1;
      }
      StrideIndexAtEnd(col, Width(bounds), e);
      row := row + 1;
    }
    StrideIndexAtEnd(row, Height(bounds), e);
  }

  lemma CellRectInjective(e: real, row: nat, col: nat, row': nat, col': nat)
    requires e > 0.0 && CellRect(e, row, col) == CellRect(e, row', col')
    ensures row == row' && col == col'
  {
    Cancel(row as real, row' as real, e);
    Cancel(col as real, col' as real, e);
  }

  /** Row `row` fills exactly its cells of the row's parity, each a square at its cell. */
  lemma {:induction false} RowFillsExactly(e: real, row: nat, cols: nat)
    requires e > 0.0
    ensures forall col: nat :: col < cols ==>
              (Fill(CellRect(e, row, col), SquareColor) in RowFills(e, row, cols) <==> row % 2 == col % 2)
    ensures forall f :: f in RowFills(e, row, cols) ==>
              exists col: nat :: col < cols && row % 2 == col % 2 && f == Fill(CellRect(e, row, col), SquareColor)
  {
    if cols > 0 {
      RowFillsExactly(e, row, cols - 1);
      FilledIffSameParity(e, row, cols - 1);
      forall col: nat | col < cols - 1
        ensures Fill(CellRect(e, row, col), SquareColor) != Fill(CellRect(e, row, cols - 1), SquareColor)
      {
        if CellRect(e, row, col) == CellRect(e, row, cols - 1) {
          CellRectInjective(e, row, col, row, cols - 1);
        }
      }
    }
  }

  /** The board fills exactly the cells whose row and column have the same parity, one square each. */
  lemma {:induction false} BoardFillsExactly(e: real, rows: nat, cols: nat)
    requires e > 0.0
    ensures forall row: nat, col: nat :: row < rows && col < cols ==>
              (Fill(CellRect(e, row, col), SquareColor) in BoardFills(e, rows, cols) <==> row % 2 == col % 2)
    ensures forall f :: f in BoardFills(e, rows, cols) ==>
              exists row: nat, col: nat :: row < rows && col < cols && row % 2 == col % 2 &&
                                           f == Fill(CellRect(e, row, col), SquareColor)
  {
    if rows > 0 {
      var last := rows - 1;
      BoardFillsExactly(e, last, cols);
      RowFillsExactly(e, last, cols);
      forall row: nat, col: nat | row < rows && col < cols
        ensures Fill(CellRect(e, row, col), SquareColor) in BoardFills(e, rows, cols) <==> row % 2 == col % 2
      {
        BoardCell(e, last, cols, row, col);
      }
      forall f | f in BoardFills(e, rows, cols)
        ensures exists row: nat, col: nat :: row < rows && col < cols && row % 2 == col % 2 &&
                                             f == Fill(CellRect(e, row, col), SquareColor)
      {
        if f in BoardFills(e, last, cols) {
          var row: nat, col: nat :| row < last && col < cols && row % 2 == col % 2 &&
                                    f == Fill(CellRect(e, row, col), SquareColor);
        } else {
          assert f in RowFills(e, last, cols);
          var col: nat :| col < cols && last % 2 == col % 2 && f == Fill(CellRect(e, last, col), SquareColor);
        }
      }
    }
  }

  /** One cell of the board: whether its square is among the fills of rows `0..last`. */
  lemma BoardCell(e: real, last: nat, cols: nat, row: nat, col: nat)
    requires e > 0.0 && row <= last && col < cols
    requires forall row: nat, col: nat :: row < last && col < cols ==>
               (Fill(CellRect(e, row, col), SquareColor) in BoardFills(e, last, cols) <==> row % 2 == col % 2)
    requires forall f :: f in BoardFills(e, last, cols) ==>
               exists row: nat, col: nat :: row < last && col < cols && row % 2 == col % 2 &&
                                            f == Fill(CellRect(e, row, col), SquareColor)
    requires forall col: nat :: col < cols ==>
               (Fill(CellRect(e, last, col), SquareColor) in RowFills(e, last, cols) <==> last % 2 == col % 2)
    requires forall f :: f in RowFills(e, last, cols) ==>
               exists col: nat :: col < cols && last % 2 == col % 2 && f == Fill(CellRect(e, last, col), SquareColor)
    ensures Fill(CellRect(e, row, col), SquareColor) in BoardFills(e, last + 1, cols) <==> row % 2 == col % 2
  {
    var f := Fill(CellRect(e, row, col), SquareColor);
    assert BoardFills(e, last + 1, cols) == BoardFills(e, last, cols) + RowFills(e, last, cols);
    if row < last {
      if f in RowFills(e, last, cols) {
        var col': nat :| col' < cols && last % 2 == col' % 2 && f == Fill(CellRect(e, last, col'), SquareColor);
        CellRectInjective(e, row, col, last, col');
      }
    } else {
      if f in BoardFills(e, last, cols) {
        var row': nat, col': nat :| row' < last && col' < cols && row' % 2 == col' % 2 &&
                                    f == Fill(CellRect(e, row', col'), SquareColor);
        CellRectInjective(e, row, col, row', col');
      }
    }
  }
}
