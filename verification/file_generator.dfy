/** One file generator (Project_Tow/file_generator.c:69-115). `rand()`
    draws are parameters, and so is the text `%.2f` gives a filled cell. */
module FileGenerator {
  import opened CLib
  import opened CScan
  import TowConfig
  import opened TowShared

  /** Taking the next file index under the semaphore (file_generator.c:75-78):
      the index is the number of files generated so far, and that number
      goes up by one. */
  function AllocateIndex(s: Counters): (r: (int, Counters))
    ensures r.1.filesGenerated == r.0 + 1
    ensures r.1 == s.(filesGenerated := r.1.filesGenerated)
    ensures r.0 == s.filesGenerated
  {
    (s.filesGenerated, s.(filesGenerated := s.filesGenerated + 1))
  }

  /** `n` successive allocations, by any generators in any order. */
  function Allocations(s: Counters, n: nat): (r: (seq<int>, Counters))
    decreases n
  {
    if n == 0 then ([], s)
    else
      var first := AllocateIndex(s);
      var rest := Allocations(first.1, n - 1);
      ([first.0] + rest.0, rest.1)
  }

  /** Successive allocations hand out consecutive indices from the current
      count, so no two files get the same index, and the count ends `n`
      higher with the other counters untouched. */
  lemma {:induction false} AllocationsConsecutive(s: Counters, n: nat)
    ensures var r := Allocations(s, n);
            && |r.0| == n
            && (forall i :: 0 <= i < n ==> r.0[i] == s.filesGenerated + i)
            && r.1 == s.(filesGenerated := s.filesGenerated + n)
    decreases n
  {
    if n > 0 {
      AllocationsConsecutive(AllocateIndex(s).1, n - 1);
    }
  }

  /** The path `./home/<index>.csv` (file_generator.c:81). */
  function FileName(index: int): string
  {
    "./home/" + Itoa(index) + ".csv"
  }

  /** Distinct indices give distinct file names, so no generated file
      overwrites another. */
  lemma FileNameInjective(a: int, b: int)
    requires FileName(a) == FileName(b)
    ensures a == b
  {
    var p := "./home/";
    assert |Itoa(a)| == |Itoa(b)|;
    assert Itoa(a) == FileName(a)[|p|..|p| + |Itoa(a)|];
    assert Itoa(b) == FileName(b)[|p|..|p| + |Itoa(b)|];
    ItoaInjective(a, b);
  }

  /** The number of occurrences of `c` in `s`. */
  function Count(s: string, c: char): nat
    decreases |s|
  {
    if s == [] then 0 else (if s[0] == c then 1 else 0) + Count(s[1..], c)
  }

  lemma {:induction false} CountAppend(a: string, b: string, c: char)
    ensures Count(a + b, c) == Count(a, c) + Count(b, c)
    decreases |a|
  {
    if a == [] {
      assert a + b == b;
    } else {
      assert (a + b)[0] == a[0];
      assert (a + b)[1..] == a[1..] + b;
      CountAppend(a[1..], b, c);
    }
  }

  lemma {:induction false} CountAbsent(s: string, c: char)
    requires forall i :: 0 <= i < |s| ==> s[i] != c
    ensures Count(s, c) == 0
    decreases |s|
  {
    if s != [] {
      CountAbsent(s[1..], c);
    }
  }

  lemma ItoaCounts(n: int)
    ensures Count(Itoa(n), ',') == 0 && Count(Itoa(n), '\n') == 0
  {
    ItoaShape(n);
    CountAbsent(Itoa(n), ',');
    CountAbsent(Itoa(n), '\n');
  }

  /** Header cells `Col<c>` to `Col<n-1>`, comma-separated (file_generator.c:94-98). */
  function HeaderCells(c: int, n: int): string
    decreases n - c
  {
    if c >= n then ""
    else "Col" + Itoa(c) + (if c < n - 1 then "," else "") + HeaderCells(c + 1, n)
  }

  /** The header line (file_generator.c:94-99). */
  function Header(n: int): string
  {
    HeaderCells(0, n) + "\n"
  }

  /** `n - c` header cells hold `n - c - 1` separating commas and no newline;
      when there is a cell the text ends in a digit of the last index. */
  lemma HeaderCellsShape(c: int, n: int)
    ensures Count(HeaderCells(c, n), ',') == (if c < n then n - c - 1 else 0)
    ensures Count(HeaderCells(c, n), '\n') == 0
    ensures c < n ==> |HeaderCells(c, n)| > 0 && IsDigit(HeaderCells(c, n)[|HeaderCells(c, n)| - 1])
  {
    HeaderCellsCounts(c, n);
    if c < n {
      HeaderCellsLast(c, n);
    }
  }

  lemma {:induction false} HeaderCellsCounts(c: int, n: int)
    ensures Count(HeaderCells(c, n), ',') == (if c < n then n - c - 1 else 0)
    ensures Count(HeaderCells(c, n), '\n') == 0
    decreases n - c
  {
    if c < n {
      var head := "Col" + Itoa(c);
      var sep: string := if c < n - 1 then "," else "";
      var rest := HeaderCells(c + 1, n);
      HeaderCellsCounts(c + 1, n);
      HeadCounts(c);
      assert HeaderCells(c, n) == head + (sep + rest);
      CountAppend(sep, rest, ',');
      CountAppend(sep, rest, '\n');
      CountAppend(head, sep + rest, ',');
      CountAppend(head, sep + rest, '\n');
    }
  }

  /** The `Col<c>` text of one header cell holds no comma and no newline. */
  lemma HeadCounts(c: int)
    ensures Count("Col" + Itoa(c), ',') == 0 && Count("Col" + Itoa(c), '\n') == 0
  {
    ItoaCounts(c);
    CountAppend("Col", Itoa(c), ',');
    CountAppend("Col", Itoa(c), '\n');
    assert Count("Col", ',') == 0 && Count("Col", '\n') == 0;
  }

  lemma {:induction false} HeaderCellsLast(c: int, n: int)
    requires c < n
    ensures |HeaderCells(c, n)| > 0 && IsDigit(HeaderCells(c, n)[|HeaderCells(c, n)| - 1])
    decreases n - c
  {
    var h := HeaderCells(c, n);
    var rest := HeaderCells(c + 1, n);
    ItoaShape(c);
    if c < n - 1 {
      HeaderCellsLast(c + 1, n);
      assert h == ("Col" + Itoa(c) + ",") + rest;
      assert h[|h| - 1] == rest[|rest| - 1];
    } else {
      assert rest == "";
      assert h == "Col" + Itoa(c);
      assert h[|h| - 1] == Itoa(c)[|Itoa(c)| - 1];
    }
  }

  /** A header for `n >= 1` columns has exactly `n - 1` commas, no comma
      before its newline, and that newline is its only one. */
  lemma HeaderShape(n: int)
    requires n >= 1
    ensures Count(Header(n), ',') == n - 1
    ensures Count(Header(n), '\n') == 1
    ensures |Header(n)| >= 2 && Header(n)[|Header(n)| - 1] == '\n' && Header(n)[|Header(n)| - 2] != ','
  {
    HeaderCellsShape(0, n);
    CountAppend(HeaderCells(0, n), "\n", ',');
    CountAppend(HeaderCells(0, n), "\n", '\n');
    assert Count("\n", '\n') == 1 && Count("\n", ',') == 0;
  }

  /** A data cell: missing, or the text `%.2f` printed for a value. */
  datatype Cell = Missing | Filled(text: string)

  /** `%.2f` output holds neither a comma nor a newline. */
  predicate PlainCell(cell: Cell)
  {
    cell.Filled? ==> forall i :: 0 <= i < |cell.text| ==> cell.text[i] != ',' && cell.text[i] != '\n'
  }

  /** Whether a cell is left empty: a uniform draw `u` in [0, 1] scaled to a
      percentage falls below `missing_percentage` (file_generator.c:104). */
  function CellOf(missingPercentage: real, u: real, text: string): (cell: Cell)
    ensures cell.Missing? <==> u * 100.0 < missingPercentage
    ensures 0.0 <= u && missingPercentage <= 0.0 ==> cell.Filled?
    ensures u <= 1.0 && missingPercentage > 100.0 ==> cell.Missing?
  {
    if u * 100.0 < missingPercentage then Missing else Filled(text)
  }

  /** The cells of a data row, each followed by a comma (file_generator.c:103-109). */
  function RowCells(cells: seq<Cell>): string
    decreases |cells|
  {
    if cells == [] then ""
    else (match cells[0] case Missing => "," case Filled(t) => t + ",") + RowCells(cells[1..])
  }

  function Row(cells: seq<Cell>): string
  {
    RowCells(cells) + "\n"
  }

  lemma {:induction false} RowCellsShape(cells: seq<Cell>)
    requires forall i :: 0 <= i < |cells| ==> PlainCell(cells[i])
    ensures Count(RowCells(cells), ',') == |cells|
    ensures Count(RowCells(cells), '\n') == 0
    decreases |cells|
  {
    if cells != [] {
      RowCellsShape(cells[1..]);
      var head: string := match cells[0] case Missing => "," case Filled(t) => t + ",";
      CountAppend(head, RowCells(cells[1..]), ',');
      CountAppend(head, RowCells(cells[1..]), '\n');
      if cells[0].Filled? {
        var t := cells[0].text;
        CountAbsent(t, ',');
        CountAbsent(t, '\n');
        CountAppend(t, ",", ',');
        CountAppend(t, ",", '\n');
      }
      assert Count(",", ',') == 1 && Count(",", '\n') == 0;
    }
  }

  /** Every data row has one comma per cell, missing or filled, and one newline. */
  lemma RowShape(cells: seq<Cell>)
    requires forall i :: 0 <= i < |cells| ==> PlainCell(cells[i])
    ensures Count(Row(cells), ',') == |cells|
    ensures Count(Row(cells), '\n') == 1
  {
    RowCellsShape(cells);
    CountAppend(RowCells(cells), "\n", ',');
    CountAppend(RowCells(cells), "\n", '\n');
    assert Count("\n", '\n') == 1 && Count("\n", ',') == 0;
  }

  /** The data rows, one after the other. */
  function Rows(rows: seq<seq<Cell>>): string
    decreases |rows|
  {
    if rows == [] then "" else Row(rows[0]) + Rows(rows[1..])
  }

  /** The file text: the header, then the rows. */
  function CsvText(columns: int, rows: seq<seq<Cell>>): string
  {
    Header(columns) + Rows(rows)
  }

  lemma {:induction false} RowsLines(rows: seq<seq<Cell>>)
    requires forall r, i :: 0 <= r < |rows| && 0 <= i < |rows[r]| ==> PlainCell(rows[r][i])
    ensures Count(Rows(rows), '\n') == |rows|
    decreases |rows|
  {
    if rows != [] {
      RowShape(rows[0]);
      RowsLines(rows[1..]);
      CountAppend(Row(rows[0]), Rows(rows[1..]), '\n');
    }
  }

  /** A generated file has one line more than it has rows. */
  lemma CsvLines(columns: int, rows: seq<seq<Cell>>)
    requires columns >= 1
    requires forall r, i :: 0 <= r < |rows| && 0 <= i < |rows[r]| ==> PlainCell(rows[r][i])
    ensures Count(CsvText(columns, rows), '\n') == |rows| + 1
  {
    HeaderShape(columns);
    RowsLines(rows);
    CountAppend(Header(columns), Rows(rows), '\n');
  }

  /** A file the generator set out to write. */
  datatype Plan = Plan(sleep: int, index: int, name: string, rows: int, columns: int)

  /** The text written for a plan: the header for `columns` columns, then
      `rows` data rows of `columns` cells each (file_generator.c:93-111). A
      count below 1 runs its loop zero times. */
  function FileText(p: Plan, cells: seq<seq<Cell>>): string
    requires |cells| == Max(0, p.rows)
    requires forall r :: 0 <= r < |cells| ==> |cells[r]| == Max(0, p.columns)
  {
    CsvText(p.columns, cells)
  }

  /** Data rows of `n` cells each hold `n` commas per row. */
  lemma {:induction false} RowsCommas(rows: seq<seq<Cell>>, n: nat)
    requires forall r :: 0 <= r < |rows| ==> |rows[r]| == n
    requires forall r, i :: 0 <= r < |rows| && 0 <= i < |rows[r]| ==> PlainCell(rows[r][i])
    ensures Count(Rows(rows), ',') == |rows| * n
    decreases |rows|
  {
    if rows != [] {
      RowShape(rows[0]);
      RowsCommas(rows[1..], n);
      CountAppend(Row(rows[0]), Rows(rows[1..]), ',');
    }
  }

  /** A header for any column count: `columns - 1` commas when there is a
      column, none otherwise, and one newline. */
  lemma HeaderCounts(columns: int)
    ensures Count(Header(columns), ',') == Max(0, columns - 1)
    ensures Count(Header(columns), '\n') == 1
  {
    HeaderCellsShape(0, columns);
    CountAppend(HeaderCells(0, columns), "\n", ',');
    CountAppend(HeaderCells(0, columns), "\n", '\n');
    assert Count("\n", '\n') == 1 && Count("\n", ',') == 0;
  }

  /** The file written for a plan has one line per data row plus the
      header, a header with `columns - 1` commas, and `columns` commas in
      every data row: `columns - 1 + rows * columns` commas in all. */
  lemma FileTextShape(p: Plan, cells: seq<seq<Cell>>)
    requires |cells| == Max(0, p.rows)
    requires forall r :: 0 <= r < |cells| ==> |cells[r]| == Max(0, p.columns)
    requires forall r, i :: 0 <= r < |cells| && 0 <= i < |cells[r]| ==> PlainCell(cells[r][i])
    ensures Count(FileText(p, cells), '\n') == Max(0, p.rows) + 1
    ensures Count(FileText(p, cells), ',') == Max(0, p.columns - 1) + Max(0, p.rows) * Max(0, p.columns)
    ensures forall r :: 0 <= r < |cells| ==>
              Count(Row(cells[r]), ',') == Max(0, p.columns) && Count(Row(cells[r]), '\n') == 1
  {
    HeaderCounts(p.columns);
    RowsLines(cells);
    RowsCommas(cells, Max(0, p.columns));
    CountAppend(Header(p.columns), Rows(cells), '\n');
    CountAppend(Header(p.columns), Rows(cells), ',');
    forall r | 0 <= r < |cells|
      ensures Count(Row(cells[r]), ',') == Max(0, p.columns) && Count(Row(cells[r]), '\n') == 1
    {
      RowShape(cells[r]);
    }
  }

  /** One pass of the generator loop. It crashes (C's division trap) when a
      range it draws from is empty-by-one (`max - min + 1 == 0`): before
      taking an index for the sleep interval, after it for the row and
      column counts. A file that cannot be created is skipped with its
      index used up. */
  datatype Generation =
    | Crashed(counters: Counters)
    | Skipped(counters: Counters, index: int)
    | Generated(counters: Counters, plan: Plan)

  function GenerateOnce(cfg: TowConfig.Config, s: Counters, sleepDraw: nat, rowDraw: nat, columnDraw: nat,
                        canCreate: bool): (g: Generation)
    ensures g.Crashed? <==>
              cfg.genIntervalMax - cfg.genIntervalMin + 1 == 0
              || cfg.rowsMax - cfg.rowsMin + 1 == 0 || cfg.columnsMax - cfg.columnsMin + 1 == 0
    ensures g.Crashed? && cfg.genIntervalMax - cfg.genIntervalMin + 1 == 0 ==> g.counters == s
    ensures !(g.Crashed? && cfg.genIntervalMax - cfg.genIntervalMin + 1 == 0) ==>
              g.counters == s.(filesGenerated := s.filesGenerated + 1)
    ensures g.Skipped? ==> g.index == s.filesGenerated && !canCreate
    ensures g.Generated? ==>
              && canCreate
              && g.plan.index == s.filesGenerated && g.plan.name == FileName(s.filesGenerated)
              && cfg.genIntervalMin <= g.plan.sleep && cfg.rowsMin <= g.plan.rows && cfg.columnsMin <= g.plan.columns
              && (cfg.genIntervalMin <= cfg.genIntervalMax ==> g.plan.sleep <= cfg.genIntervalMax)
              && (cfg.rowsMin <= cfg.rowsMax ==> g.plan.rows <= cfg.rowsMax)
              && (cfg.columnsMin <= cfg.columnsMax ==> g.plan.columns <= cfg.columnsMax)
    ensures (canCreate && cfg.genIntervalMin <= cfg.genIntervalMax && cfg.rowsMin <= cfg.rowsMax
             && cfg.columnsMin <= cfg.columnsMax) ==> g.Generated?
  {
    match RangeDraw(cfg.genIntervalMin, cfg.genIntervalMax, sleepDraw)
    case None => Crashed(s)
    case Some(sleep) =>
      var (index, s') := AllocateIndex(s);
      match (RangeDraw(cfg.rowsMin, cfg.rowsMax, rowDraw), RangeDraw(cfg.columnsMin, cfg.columnsMax, columnDraw))
      case (Some(rows), Some(columns)) =>
        if canCreate then Generated(s', Plan(sleep, index, FileName(index), rows, columns))
        else Skipped(s', index)
      case _ => Crashed(s')
  }

  /** A file the loop writes has between `rows_min + 1` and `rows_max + 1`
      lines, and each of its data rows between `columns_min` and
      `columns_max` commas, when both ranges start at 0 or above. The plan's
      counts lie in these ranges whenever `GenerateOnce` returns it. */
  lemma GeneratedFileShape(cfg: TowConfig.Config, p: Plan, cells: seq<seq<Cell>>)
    requires 0 <= cfg.rowsMin <= p.rows <= cfg.rowsMax
    requires 0 <= cfg.columnsMin <= p.columns <= cfg.columnsMax
    requires |cells| == p.rows && forall r :: 0 <= r < |cells| ==> |cells[r]| == p.columns
    requires forall r, i :: 0 <= r < |cells| && 0 <= i < |cells[r]| ==> PlainCell(cells[r][i])
    ensures cfg.rowsMin + 1 <= Count(FileText(p, cells), '\n') <= cfg.rowsMax + 1
    ensures forall r :: 0 <= r < |cells| ==> cfg.columnsMin <= Count(Row(cells[r]), ',') <= cfg.columnsMax
  {
    FileTextShape(p, cells);
  }
}
