/** The caller's side of the cursor protocol: `JDBCScanner::get_next` (be/scanner/jdbc_scanner.cpp) and
    the driving loop of `JDBCDataSource::get_next` (be/datasource/jdbc_connector.cpp), and what a whole
    scan delivers. */
module JdbcConnector {
  import opened Wrappers
  import opened ResultConversion
  import opened JdbcScanner

  datatype Chunk = Chunk(columns: seq<seq<Cell>>) {
    function NumRows(): nat { if columns == [] then 0 else |columns[0]| }
  }

  /** What a scan is over: the result set and how it is converted. */
  datatype Source = Source(
    rows: seq<seq<Cell>>, kinds: seq<Kind>, library: (Kind, Cell) -> Option<Cell>, chunkSize: nat)
  {
    predicate WellFormed() {
      chunkSize >= 1 && forall r | 0 <= r < |rows| :: |rows[r]| == |kinds|
    }

    /** The first row of the `j`th chunk, or the end. */
    function Start(j: nat): (p: nat)
      ensures p <= |rows|
    {
      Min(j * chunkSize, |rows|)
    }

    /** The chunk holds, column by column, exactly the conversions of rows `from` to `to`. */
    ghost predicate Holds(chunk: Chunk, from: nat, to: nat)
      requires WellFormed() && from <= to <= |rows|
    {
      && |chunk.columns| == |kinds|
      && (forall i | 0 <= i < |kinds| :: |chunk.columns[i]| == to - from)
      && (forall i, r | 0 <= i < |kinds| && 0 <= r < to - from ::
            Convert(library, kinds[i], rows[from + r][i]) == Some(chunk.columns[i][r]))
    }

    /** The chunks delivered so far are the first ones of the result set, in order. */
    ghost predicate Delivered(chunks: seq<Chunk>)
      requires WellFormed()
    {
      forall j | 0 <= j < |chunks| ::
        Start(j) < |rows| && Start(j) <= Start(j + 1) && Holds(chunks[j], Start(j), Start(j + 1))
    }

    /** Where the cursor stands between two requests, after so many chunks. */
    predicate Between(cursor: int, chunks: nat) {
      || (chunks * chunkSize <= |rows| && cursor == chunks * chunkSize - 1)
      || (chunks * chunkSize >= |rows| && cursor == |rows|)
    }
  }

  /** Where the next row is, and whether there is one. */
  lemma NextRow(src: Source, cursor: int, m: nat)
    requires src.WellFormed() && src.Between(cursor, m)
    ensures src.Start(m) < |src.rows| ==> src.Start(m) == cursor + 1 == m * src.chunkSize
    ensures src.Start(m) == |src.rows| ==> cursor + 1 >= |src.rows| && src.Between(|src.rows|, m)
  {
  }

  /** Reading one chunk leads from one request to the next. */
  lemma NextChunk(src: Source, m: nat)
    requires src.WellFormed() && src.Start(m) < |src.rows|
    ensures var p, take := src.Start(m), Min(src.chunkSize, |src.rows| - src.Start(m));
      && src.Start(m + 1) == p + take
      && src.Between(if take == src.chunkSize then p + take - 1 else |src.rows|, m + 1)
  {
    assert (m + 1) * src.chunkSize == m * src.chunkSize + src.chunkSize;
  }

  lemma DeliverMore(src: Source, chunks: seq<Chunk>, next: Chunk)
    requires src.WellFormed() && src.Delivered(chunks) && src.Start(|chunks|) < |src.rows|
    requires src.Start(|chunks|) <= src.Start(|chunks| + 1)
    requires src.Holds(next, src.Start(|chunks|), src.Start(|chunks| + 1))
    ensures src.Delivered(chunks + [next])
  {
  }

  /** The C++ `JDBCScanner`: what it has handed out so far is a ghost record. */
  class NativeScanner {
    const scanner: JDBCScanner
    /** Whether the status of `hasNext` is honoured; as written it is dropped. */
    const honour: bool
    ghost var delivered: seq<Chunk>

    ghost function From(): Source
      reads this, scanner
    {
      Source(scanner.resultSet.rows, scanner.kinds, scanner.library, scanner.chunkSize)
    }

    ghost predicate Valid()
      reads this, scanner, scanner.resultSet
    {
      scanner.Valid() && From().WellFormed() && From().Delivered(delivered)
    }

    /** Between two requests. */
    ghost predicate Ready()
      reads this, scanner, scanner.resultSet
    {
      Valid() && From().Between(scanner.resultSet.cursor, |delivered|)
    }

    /** Some value of the `m`th chunk cannot be converted. */
    ghost predicate StopsWithin(m: nat)
      requires Valid()
      reads this, scanner, scanner.resultSet
    {
      exists r :: From().Start(m) <= r < From().Start(m + 1) && !scanner.RowConverts(r)
    }

    /** The fetch size the C++ side asks for is a positive constant (line 105). */
    constructor (scanner: JDBCScanner, honour: bool)
      requires scanner.Valid() && scanner.resultSet.cursor == -1 && scanner.chunkSize >= 1
      ensures Ready() && delivered == []
      ensures this.scanner == scanner && this.honour == honour
    {
      this.scanner, this.honour, delivered := scanner, honour, [];
    }

    /** The filled output chunk: the first `numRows` cells of every column. */
    method FillChunk(numRows: nat) returns (chunk: Chunk)
      requires scanner.Valid() && numRows <= scanner.chunkSize
      ensures |chunk.columns| == |scanner.kinds|
      ensures forall i | 0 <= i < |scanner.kinds| :: chunk.columns[i] == scanner.resultChunk[i][..numRows]
    {
      var columns: seq<seq<Cell>> := [];
      for i := 0 to |scanner.resultChunk|
        invariant |columns| == i && forall j | 0 <= j < i :: columns[j] == scanner.resultChunk[j][..numRows]
      {
        columns := columns + [scanner.resultChunk[i][..numRows]];
      }
      chunk := Chunk(columns);
    }

    /** `get_next`. `hasNextThrows` is the failure of the remote `hasNext`. */
    method GetNext(chunk: Chunk, hasNextThrows: bool) returns (status: Status, eos: bool, next: Chunk)
      requires Ready()
      modifies this`delivered, scanner`resultNumRows, scanner.resultSet, scanner.resultChunk
      ensures Valid() && old(delivered) <= delivered
      ensures hasNextThrows ==> !status.Ok? == honour && eos == !honour && delivered == old(delivered)
      ensures status.Ok? ==> Ready()
      ensures !hasNextThrows && status.Ok? ==> (eos <==> From().Start(|old(delivered)|) == |scanner.resultSet.rows|)
      ensures status.Ok? && !eos ==> delivered == old(delivered) + [next]
      ensures !(status.Ok? && !eos) ==> delivered == old(delivered)
      ensures !(status.Ok? && !eos) ==> next == chunk
      ensures status.Ok? && !eos ==> scanner.resultSet.cursor > old(scanner.resultSet.cursor)
      ensures !hasNextThrows && !status.Ok? ==> StopsWithin(|old(delivered)|)
    {
      status, eos, next := Ok, false, chunk;
      NextRow(From(), scanner.resultSet.cursor, |delivered|);
      var hasNext := false;
      if hasNextThrows {
        if honour {
          return InternalError, false, chunk;
        }
      } else {
        hasNext := scanner.HasNext();
      }
      if !hasNext {
        return Ok, true, chunk;
      }
      status, next := ReadChunk(chunk);
    }

    /** The chunk just read, starting at row `p`. */
    method TakeChunk(ghost p: nat) returns (next: Chunk)
      requires Valid() && scanner.resultNumRows <= scanner.chunkSize
      requires p + scanner.resultNumRows <= |scanner.resultSet.rows|
      requires forall i, r | 0 <= i < |scanner.resultChunk| && 0 <= r < scanner.resultNumRows ::
        scanner.Converted(i, p + r) == Some(scanner.resultChunk[i][r])
      ensures From().Holds(next, p, p + scanner.resultNumRows)
    {
      next := FillChunk(scanner.resultNumRows);
    }

    /** `_get_next_chunk` and the filling of the output chunk. */
    method ReadChunk(chunk: Chunk) returns (status: Status, next: Chunk)
      requires Valid() && From().Start(|delivered|) == scanner.resultSet.cursor < |scanner.resultSet.rows|
      modifies this`delivered, scanner`resultNumRows, scanner.resultSet, scanner.resultChunk
      ensures Valid() && (status.Ok? ==> Ready() && delivered == old(delivered) + [next])
      ensures !status.Ok? ==> next == chunk && delivered == old(delivered) && StopsWithin(|old(delivered)|)
      ensures status.Ok? ==> scanner.resultSet.cursor >= old(scanner.resultSet.cursor)
    {
      ghost var src, m := From(), |delivered|;
      NextChunk(src, m);
      var ok := scanner.GetNextChunk();
      if !ok {
        assert src.Start(m) <= scanner.resultSet.cursor < src.Start(m + 1);
        assert !scanner.RowConverts(scanner.resultSet.cursor);
        return InternalError, chunk;
      }
      next := TakeChunk(src.Start(m));
      DeliverMore(src, delivered, next);
      status, delivered := Ok, delivered + [next];
    }
  }

  class JDBCDataSource {
    const scanner: NativeScanner

    constructor (scanner: NativeScanner)
      ensures this.scanner == scanner
    {
      this.scanner := scanner;
    }

    /** `get_next`: asks the scanner until it has rows or reports the end. `throws` says in which round
        the remote `hasNext` fails. It ends; it returns rows, the end, or an error, and an error only
        where `hasNext` failed or a value of the next chunk cannot be converted; and it reports the end
        exactly when every row has been delivered, or, statuses being dropped, `hasNext` failed. */
    method GetNext(throws: nat -> bool) returns (status: Status, eos: bool, chunk: Chunk)
      requires scanner.Ready()
      modifies scanner`delivered, scanner.scanner`resultNumRows, scanner.scanner.resultSet, scanner.scanner.resultChunk
      ensures scanner.Valid() && old(scanner.delivered) <= scanner.delivered
      ensures status.Ok? ==> scanner.Ready() && (eos || chunk.NumRows() > 0)
      ensures status.Ok? && !eos ==>
        |scanner.delivered| > |old(scanner.delivered)| && scanner.delivered[|scanner.delivered| - 1] == chunk
      ensures !status.Ok? || eos ==> chunk.NumRows() == 0
      ensures HandsOut(old(scanner.delivered), scanner.delivered, chunk)
      ensures status.Ok? && eos && (scanner.honour || forall i :: !throws(i)) ==>
        scanner.From().Start(|scanner.delivered|) == |scanner.From().rows|
      ensures scanner.From().kinds != [] && status.Ok? ==>
        scanner.delivered == old(scanner.delivered) + (if eos then [] else [chunk])
      ensures !status.Ok? ==>
        (scanner.honour && exists r: nat :: throws(r)) || scanner.StopsWithin(|scanner.delivered|)
      ensures scanner.From().kinds != [] && !status.Ok? ==>
        scanner.delivered == old(scanner.delivered)
        && ((scanner.honour && throws(0)) || scanner.StopsWithin(|scanner.delivered|))
      ensures scanner.From().kinds != [] && status.Ok? && !scanner.honour ==>
        (eos <==> throws(0) || scanner.From().Start(|old(scanner.delivered)|) == |scanner.From().rows|)
      ensures scanner.From().kinds != [] && status.Ok? && scanner.honour ==>
        !throws(0) && (eos <==> scanner.From().Start(|old(scanner.delivered)|) == |scanner.From().rows|)
    {
      chunk := Chunk([]);
      eos := false;
      var round := 0;
      StartsEmpty(scanner.From(), scanner.delivered);
      while true
        invariant scanner.Ready() && old(scanner.delivered) <= scanner.delivered && chunk == Chunk([])
        invariant HandsOut(old(scanner.delivered), scanner.delivered, chunk)
        invariant scanner.From().kinds != [] ==> scanner.delivered == old(scanner.delivered) && round == 0
        decreases |scanner.scanner.resultSet.rows| - scanner.scanner.resultSet.cursor
      {
        ghost var before := scanner.delivered;
        status, eos, chunk := scanner.GetNext(chunk, throws(round));
        if !status.Ok? { return; }
        if !eos {
          ChunkRows(scanner.From(), scanner.delivered, |before|);
          HandsOutMore(scanner.From(), old(scanner.delivered), before, chunk);
        }
        if eos || chunk.NumRows() != 0 { return; }
        round := round + 1;
      }
    }
  }

  // ----- What a whole scan delivers

  /** A delivered chunk is as long as its slice of the result set: full, unless it is the last. */
  lemma ChunkRows(src: Source, chunks: seq<Chunk>, j: nat)
    requires src.WellFormed() && src.Delivered(chunks) && j < |chunks|
    ensures src.kinds != [] ==> chunks[j].NumRows() == Min(src.chunkSize, |src.rows| - src.Start(j)) > 0
    ensures j + 1 < |chunks| ==> Min(src.chunkSize, |src.rows| - src.Start(j)) == src.chunkSize
  {
    NextChunk(src, j);
    if j + 1 < |chunks| {
      assert src.Start(j + 1) < |src.rows|;
    }
  }

  predicate Rectangular(chunk: Chunk) {
    forall i | 0 <= i < |chunk.columns| :: |chunk.columns[i]| == chunk.NumRows()
  }

  function RowsOf(chunk: Chunk): seq<seq<Cell>>
    requires Rectangular(chunk)
  {
    seq(chunk.NumRows(), r requires 0 <= r < chunk.NumRows() => RowOf(chunk, r))
  }

  function RowOf(chunk: Chunk, r: nat): seq<Cell>
    requires Rectangular(chunk) && r < chunk.NumRows()
  {
    seq(|chunk.columns|, i requires 0 <= i < |chunk.columns| => chunk.columns[i][r])
  }

  function AllRows(chunks: seq<Chunk>): seq<seq<Cell>>
    requires forall j | 0 <= j < |chunks| :: Rectangular(chunks[j])
  {
    if chunks == [] then [] else AllRows(chunks[..|chunks| - 1]) + RowsOf(chunks[|chunks| - 1])
  }

  /** The rows of the returned chunk, and no others, are what the record of delivered rows has grown by. */
  ghost predicate HandsOut(before: seq<Chunk>, after: seq<Chunk>, chunk: Chunk) {
    && (forall j | 0 <= j < |before| :: Rectangular(before[j]))
    && (forall j | 0 <= j < |after| :: Rectangular(after[j]))
    && Rectangular(chunk) && AllRows(after) == AllRows(before) + RowsOf(chunk)
  }

  lemma StartsEmpty(src: Source, chunks: seq<Chunk>)
    requires src.WellFormed() && src.Delivered(chunks)
    ensures HandsOut(chunks, chunks, Chunk([]))
  {
    DeliveredRectangular(src, chunks);
    assert RowsOf(Chunk([])) == [];
  }

  lemma HandsOutMore(src: Source, first: seq<Chunk>, before: seq<Chunk>, chunk: Chunk)
    requires src.WellFormed() && src.Delivered(before + [chunk]) && HandsOut(first, before, Chunk([]))
    ensures HandsOut(first, before + [chunk], chunk)
    ensures src.kinds == [] ==> chunk == Chunk([])
  {
    DeliveredRectangular(src, before + [chunk]);
    var chunks := before + [chunk];
    assert chunks[..|chunks| - 1] == before && chunks[|before|] == chunk;
    assert src.Holds(chunks[|before|], src.Start(|before|), src.Start(|before| + 1));
    assert RowsOf(Chunk([])) == [] && AllRows(first) + [] == AllRows(first);
    assert AllRows(chunks) == AllRows(before) + RowsOf(chunk);
  }

  /** Over any sequence of calls, each handing out what it adds to the record: the chunks they return, laid end
      to end, are the rows the record has grown by, so no row is returned twice and none is kept back. */
  lemma {:induction false} CallsHandOut(records: seq<seq<Chunk>>, returned: seq<Chunk>)
    requires |records| == |returned| + 1
    requires forall j {:trigger returned[j]} | 0 <= j < |returned| :: HandsOut(records[j], records[j + 1], returned[j])
    requires forall j | 0 <= j < |records[0]| :: Rectangular(records[0][j])
    ensures forall j | 0 <= j < |returned| :: Rectangular(returned[j])
    ensures var last := records[|returned|];
      && (forall j | 0 <= j < |last| :: Rectangular(last[j]))
      && AllRows(last) == AllRows(records[0]) + AllRows(returned)
  {
    if returned != [] {
      var n := |returned| - 1;
      CallsHandOut(records[..n + 1], returned[..n]);
      assert HandsOut(records[n], records[n + 1], returned[n]);
      assert AllRows(returned) == AllRows(returned[..n]) + RowsOf(returned[n]);
    }
  }

  /** A row is the conversion of a result-set row. */
  ghost predicate IsConversion(src: Source, row: seq<Cell>, r: nat)
    requires src.WellFormed() && r < |src.rows|
  {
    && |row| == |src.kinds|
    && forall i | 0 <= i < |row| :: Convert(src.library, src.kinds[i], src.rows[r][i]) == Some(row[i])
  }

  lemma DeliveredRectangular(src: Source, chunks: seq<Chunk>)
    requires src.WellFormed() && src.Delivered(chunks)
    ensures forall j | 0 <= j < |chunks| :: Rectangular(chunks[j])
  {
    forall j | 0 <= j < |chunks|
      ensures Rectangular(chunks[j])
    {
      assert src.Holds(chunks[j], src.Start(j), src.Start(j + 1));
    }
  }

  /** Conservation. The delivered chunks, laid end to end, are the conversions of the first rows of
      the result set, each row once and in order. */
  lemma {:induction false} RowsDelivered(src: Source, chunks: seq<Chunk>, r: nat)
    requires src.WellFormed() && src.kinds != [] && src.Delivered(chunks)
    requires r < src.Start(|chunks|)
    ensures forall j | 0 <= j < |chunks| :: Rectangular(chunks[j])
    ensures |AllRows(chunks)| == src.Start(|chunks|) && IsConversion(src, AllRows(chunks)[r], r)
  {
    DeliveredRectangular(src, chunks);
    RowCount(src, chunks);
    var m := |chunks| - 1;
    RowCount(src, chunks[..m]);
    if r < src.Start(m) {
      RowsDelivered(src, chunks[..m], r);
    } else {
      assert src.Holds(chunks[m], src.Start(m), src.Start(m + 1));
      assert AllRows(chunks)[r] == RowOf(chunks[m], r - src.Start(m));
      assert src.rows[src.Start(m) + (r - src.Start(m))] == src.rows[r];
    }
  }

  lemma {:induction false} RowCount(src: Source, chunks: seq<Chunk>)
    requires src.WellFormed() && src.kinds != [] && src.Delivered(chunks)
    ensures forall j | 0 <= j < |chunks| :: Rectangular(chunks[j])
    ensures |AllRows(chunks)| == src.Start(|chunks|)
  {
    DeliveredRectangular(src, chunks);
    if chunks != [] {
      RowCount(src, chunks[..|chunks| - 1]);
      ChunkRows(src, chunks, |chunks| - 1);
      NextChunk(src, |chunks| - 1);
    }
  }

  /** When the end is reported the count is right: the rows divided by the chunk size, rounded up. */
  lemma ChunkCount(src: Source, chunks: seq<Chunk>)
    requires src.WellFormed() && src.Delivered(chunks) && src.Start(|chunks|) == |src.rows|
    ensures |chunks| == (|src.rows| + src.chunkSize - 1) / src.chunkSize
  {
    var n, k, m := |src.rows|, src.chunkSize, |chunks|;
    if m > 0 {
      assert src.Start(m - 1) < n;
    }
    RoundUp(n, k, m);
  }

  lemma RoundUp(n: nat, k: nat, m: nat)
    requires k >= 1 && m * k >= n && (m > 0 ==> (m - 1) * k < n)
    ensures m == (n + k - 1) / k
  {
    var q := (n + k - 1) / k;
    assert n + k - 1 == q * k + (n + k - 1) % k;
    assert (q - 1) * k == q * k - k;
    if m > q {
      Scaled(q, m - 1, k);
    } else if m < q {
      Scaled(m, q - 1, k);
    }
  }

  lemma Scaled(a: nat, b: nat, k: nat)
    requires a <= b
    ensures a * k <= b * k
  {
  }
}
