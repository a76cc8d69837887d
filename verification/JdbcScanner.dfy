/** `JDBCScanner` of the Java bridge (fe/.../JDBCScanner.java:69-131): a forward-only cursor read into
    column arrays that are allocated once and refilled for every chunk. */
module JdbcScanner {
  import opened Wrappers
  import opened ResultConversion

  /** A forward-only result set; the cursor starts before the first row. */
  class ResultSet {
    const rows: seq<seq<Cell>>
    const columnCount: nat
    var cursor: int

    ghost predicate Valid()
      reads this
    {
      -1 <= cursor <= |rows| && forall r | 0 <= r < |rows| :: |rows[r]| == columnCount
    }

    predicate OnRow()
      reads this
    {
      0 <= cursor < |rows|
    }

    constructor (rows: seq<seq<Cell>>, columnCount: nat)
      requires forall r | 0 <= r < |rows| :: |rows[r]| == columnCount
      ensures Valid() && cursor == -1 && this.rows == rows && this.columnCount == columnCount
    {
      this.rows, this.columnCount, this.cursor := rows, columnCount, -1;
    }

    method Next() returns (onRow: bool)
      requires Valid()
      modifies this
      ensures Valid() && onRow == OnRow()
      ensures cursor == if old(cursor) < |rows| then old(cursor) + 1 else old(cursor)
    {
      if cursor < |rows| {
        cursor := cursor + 1;
      }
      onRow := cursor < |rows|;
    }

    method GetObject(column: nat) returns (cell: Cell)
      requires Valid() && OnRow() && column < columnCount
      ensures cell == rows[cursor][column]
    {
      cell := rows[cursor][column];
    }
  }

  function Min(a: int, b: int): int {
    if a < b then a else b
  }

  class JDBCScanner {
    const resultSet: ResultSet
    const kinds: seq<Kind>
    const library: (Kind, Cell) -> Option<Cell>
    const chunkSize: nat
    const resultChunk: seq<array<Cell>>
    var resultNumRows: nat

    ghost predicate Valid()
      reads this, resultSet
    {
      && resultSet.Valid()
      && |kinds| == resultSet.columnCount == |resultChunk|
      && (forall i | 0 <= i < |resultChunk| :: resultChunk[i].Length == chunkSize)
      && (forall i, j | 0 <= i < j < |resultChunk| :: resultChunk[i] != resultChunk[j])
    }

    /** The contents of the column arrays. */
    function Cells(): (cells: seq<seq<Cell>>)
      reads this, resultChunk
      ensures |cells| == |resultChunk|
    {
      seq(|resultChunk|, i requires 0 <= i < |resultChunk| reads this, resultChunk => resultChunk[i][..])
    }

    /** `open`, as far as the buffers go: one array for each column, of the fetch size. */
    constructor (resultSet: ResultSet, kinds: seq<Kind>, library: (Kind, Cell) -> Option<Cell>, chunkSize: nat)
      requires resultSet.Valid() && |kinds| == resultSet.columnCount
      ensures Valid() && fresh(resultChunk) && resultNumRows == 0
      ensures this.resultSet == resultSet && this.kinds == kinds && this.library == library
      ensures this.chunkSize == chunkSize
    {
      var buffers: seq<array<Cell>> := [];
      for i := 0 to |kinds|
        invariant |buffers| == i && fresh(buffers)
        invariant forall j | 0 <= j < i :: buffers[j].Length == chunkSize
        invariant forall j, k | 0 <= j < k < i :: buffers[j] != buffers[k]
      {
        var buffer := new Cell[chunkSize](_ => Null);
        buffers := buffers + [buffer];
      }
      this.resultSet, this.kinds, this.library, this.chunkSize := resultSet, kinds, library, chunkSize;
      resultChunk, resultNumRows := buffers, 0;
    }

    method HasNext() returns (onRow: bool)
      requires Valid()
      modifies resultSet
      ensures Valid() && onRow == resultSet.OnRow()
      ensures resultSet.cursor
           == if old(resultSet.cursor) < |resultSet.rows| then old(resultSet.cursor) + 1 else old(resultSet.cursor)
    {
      onRow := resultSet.Next();
    }

    function Converted(i: nat, r: nat): Option<Cell>
      requires i < |kinds| && r < |resultSet.rows| && |resultSet.rows[r]| == |kinds|
    {
      Convert(library, kinds[i], resultSet.rows[r][i])
    }

    predicate RowConverts(r: nat)
      requires r < |resultSet.rows| && |resultSet.rows[r]| == |kinds|
    {
      forall i | 0 <= i < |kinds| :: Converted(i, r).Some?
    }

    /** How many rows a chunk can come to. The loop reads one before it looks at the fetch size. */
    function Capacity(): nat {
      if chunkSize == 0 then 1 else chunkSize
    }

    /** Cell `resultNumRows` is outside the arrays, if there are any. */
    predicate Overflows()
      reads this
    {
      resultNumRows >= chunkSize && kinds != []
    }

    /** The inner loop: the cursor's row goes into cell `resultNumRows` of every column. */
    method ReadRow() returns (ok: bool)
      requires Valid() && resultSet.OnRow()
      modifies resultChunk
      ensures Valid() && ok == (RowConverts(resultSet.cursor) && !Overflows())
      ensures forall i, r | 0 <= i < |resultChunk| && 0 <= r < chunkSize && r != resultNumRows ::
        resultChunk[i][r] == old(resultChunk[i][r])
      ensures ok ==> forall i | 0 <= i < |resultChunk| && resultNumRows < chunkSize ::
        Converted(i, resultSet.cursor) == Some(resultChunk[i][resultNumRows])
    {
      var i := 0;
      while i < |resultChunk|
        invariant 0 <= i <= |resultChunk| && (i > 0 ==> resultNumRows < chunkSize)
        invariant forall j | 0 <= j < i :: Converted(j, resultSet.cursor) == Some(resultChunk[j][resultNumRows])
        invariant forall j, r | 0 <= j < |resultChunk| && 0 <= r < chunkSize && r != resultNumRows ::
          resultChunk[j][r] == old(resultChunk[j][r])
      {
        var resultObject := resultSet.GetObject(i);
        match Convert(library, kinds[i], resultObject) {
          case None =>
            assert Converted(i, resultSet.cursor).None?;
            return false;
          case Some(cell) =>
            if resultNumRows >= chunkSize {
              return false;
            }
            resultChunk[i][resultNumRows] := cell;
        }
        i := i + 1;
      }
      ok := true;
    }

    /** `getNextChunk`, with the cursor on a row as a true `hasNext` leaves it: reads rows from there
        until the arrays are full or the rows run out, and leaves the cursor on the last row read, or
        past the end if it looked for another row in vain. A value that cannot be converted, or arrays
        without a single cell, stop it there. Cells at and beyond `resultNumRows` keep their old contents
        (the row it stopped at aside). */
    method GetNextChunk() returns (ok: bool)
      requires Valid() && resultSet.OnRow()
      modifies this`resultNumRows, resultSet, resultChunk
      ensures Valid() && resultNumRows <= Capacity() && (resultNumRows <= chunkSize || kinds == [])
      ensures var p, n := old(resultSet.cursor), |resultSet.rows|;
        && p + resultNumRows <= n
        && (forall i, r | 0 <= i < |resultChunk| && 0 <= r < resultNumRows ::
              Converted(i, p + r) == Some(resultChunk[i][r]))
        && (forall i, r | 0 <= i < |resultChunk| && resultNumRows <= r < chunkSize && (ok || r > resultNumRows) ::
              resultChunk[i][r] == old(resultChunk[i][r]))
        && (ok ==> (chunkSize >= 1 || kinds == []) && resultNumRows == Min(Capacity(), n - p)
                   && resultSet.cursor == if resultNumRows == Capacity() then p + Capacity() - 1 else n)
        && (forall i, r | 0 <= i < |resultChunk| && 0 <= r < resultNumRows && resultSet.rows[p + r][i] == Null ::
              resultChunk[i][r] == Null)
        && (!ok ==> resultNumRows < Capacity() && resultSet.cursor == p + resultNumRows < n
                    && (!RowConverts(resultSet.cursor) || Overflows()))
    {
      resultNumRows := 0;
      ghost var p := resultSet.cursor;
      var more := true;
      while more
        invariant Valid() && resultNumRows <= Capacity() && (resultNumRows <= chunkSize || kinds == [])
        invariant p + resultNumRows <= |resultSet.rows|
        invariant more ==> resultSet.cursor == p + resultNumRows && resultSet.OnRow() && resultNumRows < Capacity()
        invariant !more ==> resultNumRows == Min(Capacity(), |resultSet.rows| - p)
        invariant !more ==> chunkSize >= 1 || kinds == []
        invariant !more ==>
          resultSet.cursor == if resultNumRows == Capacity() then p + Capacity() - 1 else |resultSet.rows|
        invariant forall i, r | 0 <= i < |resultChunk| && 0 <= r < resultNumRows ::
          Converted(i, p + r) == Some(resultChunk[i][r])
        invariant forall i, r | 0 <= i < |resultChunk| && resultNumRows <= r < chunkSize ::
          resultChunk[i][r] == old(resultChunk[i][r])
        decreases |resultSet.rows| - p - resultNumRows, more
      {
        var read := ReadRow();
        if !read {
          return false;
        }
        resultNumRows := resultNumRows + 1;
        more := resultNumRows < chunkSize;
        if more {
          more := resultSet.Next();
        }
      }
      ok := true;
    }
  }
}
