/** Consolidation of the per-site CSV files into one table (consolidar_dados.py).

    A data frame is its column names and its rows; a row maps each column
    to a cell, `None` being pandas' missing value (NaN). Reading a CSV file
    is an input: either the frame it holds or a failure. */
module Consolidacao {
  import opened Wrappers

  /** A cell: its text, or `None` for a missing value. */
  type Cell = Option<string>

  /** A row: the cell of each column. */
  type Row = map<string, Cell>

  /** A data frame. */
  datatype Frame = Frame(columns: seq<string>, rows: seq<Row>)

  /** What `pd.read_csv` made of one file. */
  datatype CsvRead = Readable(frame: Frame) | Unreadable(message: string)

  /** The text given to back-filled columns. */
  const NotInformed := "N/I"

  /** The columns that identify a listing. */
  const KeyColumns: seq<string> := ["endereco", "preco", "site"]

  /** The output columns, in order. */
  const FinalColumns: seq<string> := ["codigo", "tipo", "endereco", "preco", "area", "quartos", "salas", "banheiros", "garagem", "site"]

  /** The cell of `col`, missing when the row has no such column. */
  function Lookup(r: Row, col: string): Cell {
    if col in r then r[col] else None
  }

  /** Distinct column names, every row holding exactly those columns. */
  ghost predicate WellFormed(f: Frame) {
    && (forall i, j :: 0 <= i < j < |f.columns| ==> f.columns[i] != f.columns[j])
    && (forall k :: 0 <= k < |f.rows| ==> forall c :: c in f.rows[k] <==> c in f.columns)
  }

  // ---------------------------------------------------------------------
  // Reading and concatenation

  /** The frames of the readable files among the first `n`, in order. */
  function ReadableUpTo(files: seq<CsvRead>, n: nat): (frames: seq<Frame>)
    requires n <= |files|
    ensures |frames| <= n
    ensures frames == [] <==> forall i :: 0 <= i < n ==> files[i].Unreadable?
  {
    if n == 0 then []
    else ReadableUpTo(files, n - 1) + (if files[n - 1].Readable? then [files[n - 1].frame] else [])
  }

  /** An unreadable file is skipped and the others keep their order. */
  lemma {:induction false} ReadableSkipsUnreadable(a: seq<CsvRead>, m: string, b: seq<CsvRead>)
    ensures ReadableUpTo(a + [Unreadable(m)] + b, |a| + 1 + |b|) == ReadableUpTo(a, |a|) + ReadableUpTo(b, |b|)
  {
    var u := [Unreadable(m)];
    ReadableAppend(a + u, b, |b|);
    ReadableAppend(a, u, 1);
    assert ReadableUpTo(u, 1) == [];
  }

  lemma {:induction false} ReadableAppend(a: seq<CsvRead>, b: seq<CsvRead>, n: nat)
    requires n <= |b|
    ensures ReadableUpTo(a + b, |a| + n) == ReadableUpTo(a, |a|) + ReadableUpTo(b, n)
  {
    if n == 0 {
      assert ReadableUpTo(a + b, |a|) == ReadableUpTo(a, |a|) by { ReadablePrefix(a, b, |a|); }
    } else {
      ReadableAppend(a, b, n - 1);
      var ab := a + b;
      assert ab[|a| + n - 1] == b[n - 1];
      var last := if b[n - 1].Readable? then [b[n - 1].frame] else [];
      calc {
        ReadableUpTo(ab, |a| + n);
        ReadableUpTo(ab, |a| + n - 1) + last;
        ReadableUpTo(a, |a|) + ReadableUpTo(b, n - 1) + last;
        ReadableUpTo(a, |a|) + ReadableUpTo(b, n);
      }
    }
  }

  lemma {:induction false} ReadablePrefix(a: seq<CsvRead>, b: seq<CsvRead>, n: nat)
    requires n <= |a|
    ensures ReadableUpTo(a + b, n) == ReadableUpTo(a, n)
  {
    if n > 0 {
      ReadablePrefix(a, b, n - 1);
      assert (a + b)[n - 1] == a[n - 1];
    }
  }

  /** `cols` followed by the columns of `more` not already among them. */
  function AddNew(cols: seq<string>, more: seq<string>): (r: seq<string>)
    ensures forall c :: c in r <==> c in cols || c in more
    ensures |cols| <= |r| && r[..|cols|] == cols
    decreases |more|
  {
    if more == [] then cols
    else AddNew(if more[0] in cols then cols else cols + [more[0]], more[1..])
  }

  /** The columns of `pd.concat`: every frame's columns, in order of first appearance. */
  function UnionUpTo(frames: seq<Frame>, n: nat): (cols: seq<string>)
    requires n <= |frames|
    ensures forall c :: c in cols <==> exists k :: 0 <= k < n && c in frames[k].columns
  {
    if n == 0 then []
    else
      var prev := UnionUpTo(frames, n - 1);
      var cols := AddNew(prev, frames[n - 1].columns);
      assert forall c :: c in cols <==> c in prev || c in frames[n - 1].columns;
      cols
  }

  /** `r` over the columns `cols`, a missing value where `r` has none. */
  function Widen(r: Row, cols: seq<string>): (w: Row)
    ensures forall c :: c in w <==> c in cols
    ensures forall c :: c in w ==> w[c] == Lookup(r, c)
  {
    map c | c in cols :: Lookup(r, c)
  }

  /** The rows of the first `n` frames, one after the other, widened to `cols`. */
  function StackUpTo(frames: seq<Frame>, n: nat, cols: seq<string>): (rows: seq<Row>)
    requires n <= |frames|
    ensures |rows| == TotalRows(frames, n)
    ensures forall k :: 0 <= k < |rows| ==> forall c :: c in rows[k] <==> c in cols
  {
    if n == 0 then []
    else StackUpTo(frames, n - 1, cols) + seq(|frames[n - 1].rows|, k requires 0 <= k < |frames[n - 1].rows| => Widen(frames[n - 1].rows[k], cols))
  }

  /** The number of rows in the first `n` frames. */
  function TotalRows(frames: seq<Frame>, n: nat): nat
    requires n <= |frames|
  {
    if n == 0 then 0 else TotalRows(frames, n - 1) + |frames[n - 1].rows|
  }

  /** `pd.concat(frames, ignore_index=True)`. */
  function Concat(frames: seq<Frame>): (f: Frame)
    ensures forall c :: c in f.columns <==> exists k :: 0 <= k < |frames| && c in frames[k].columns
    ensures |f.rows| == TotalRows(frames, |frames|)
    ensures forall k :: 0 <= k < |f.rows| ==> forall c :: c in f.rows[k] <==> c in f.columns
  {
    var cols := UnionUpTo(frames, |frames|);
    Frame(cols, StackUpTo(frames, |frames|, cols))
  }

  /** Row `j` of frame `i` is row `TotalRows(frames, i) + j` of the stack,
      widened: the frames come one after the other, each in its own order. */
  lemma {:induction false} StackUpToAt(frames: seq<Frame>, n: nat, cols: seq<string>, i: nat, j: nat)
    requires i < n <= |frames| && j < |frames[i].rows|
    ensures TotalRows(frames, i) + j < TotalRows(frames, n)
    ensures StackUpTo(frames, n, cols)[TotalRows(frames, i) + j] == Widen(frames[i].rows[j], cols)
    decreases n
  {
    if i < n - 1 {
      StackUpToAt(frames, n - 1, cols, i, j);
    }
  }

  /** Every row of the stack is a row of one of the frames, widened. */
  lemma {:induction false} StackUpToFrom(frames: seq<Frame>, n: nat, cols: seq<string>, k: nat)
    requires n <= |frames| && k < TotalRows(frames, n)
    ensures exists i, j :: (0 <= i < n && 0 <= j < |frames[i].rows| && k == TotalRows(frames, i) + j
                            && StackUpTo(frames, n, cols)[k] == Widen(frames[i].rows[j], cols))
    decreases n
  {
    var prev := TotalRows(frames, n - 1);
    if k < prev {
      StackUpToFrom(frames, n - 1, cols, k);
      var i, j :| 0 <= i < n - 1 && 0 <= j < |frames[i].rows| && k == TotalRows(frames, i) + j;
      StackUpToAt(frames, n, cols, i, j);
    } else {
      StackUpToAt(frames, n, cols, n - 1, k - prev);
    }
  }

  /** `pd.concat` puts row `j` of frame `i` at `TotalRows(frames, i) + j`,
      widened to all the columns: the frames come one after the other, each
      in its own order. */
  lemma ConcatRows(frames: seq<Frame>, i: nat, j: nat)
    requires i < |frames| && j < |frames[i].rows|
    ensures TotalRows(frames, i) + j < |Concat(frames).rows|
    ensures Concat(frames).rows[TotalRows(frames, i) + j] == Widen(frames[i].rows[j], Concat(frames).columns)
  {
    StackUpToAt(frames, |frames|, Concat(frames).columns, i, j);
  }

  /** Every row of `pd.concat` is a row of one of the frames, widened, at
      that frame's offset plus the row's own index: nothing else is added. */
  lemma ConcatRowOrigin(frames: seq<Frame>, k: nat)
    requires k < |Concat(frames).rows|
    ensures exists i, j :: (0 <= i < |frames| && 0 <= j < |frames[i].rows| && k == TotalRows(frames, i) + j
                            && Concat(frames).rows[k] == Widen(frames[i].rows[j], Concat(frames).columns))
  {
    StackUpToFrom(frames, |frames|, Concat(frames).columns, k);
  }

  // ---------------------------------------------------------------------
  // Removing duplicates

  /** The identifying triple of a row; missing values compare equal. */
  datatype Key = Key(endereco: Cell, preco: Cell, site: Cell)

  function KeyOf(r: Row): Key {
    Key(Lookup(r, "endereco"), Lookup(r, "preco"), Lookup(r, "site"))
  }

  /** Row `i` is the first with its key. */
  predicate IsFirst(rows: seq<Row>, i: nat)
    requires i < |rows|
  {
    forall j :: 0 <= j < i ==> KeyOf(rows[j]) != KeyOf(rows[i])
  }

  /** `keep='first'`: the first row of each key among the first `n`, in order. */
  function FirstsUpTo(rows: seq<Row>, n: nat): (r: seq<Row>)
    requires n <= |rows|
    ensures |r| <= n
  {
    if n == 0 then []
    else FirstsUpTo(rows, n - 1) + (if IsFirst(rows, n - 1) then [rows[n - 1]] else [])
  }

  /** The keys of the first `n` rows. */
  ghost function KeysUpTo(rows: seq<Row>, n: nat): set<Key>
    requires n <= |rows|
  {
    set j | 0 <= j < n :: KeyOf(rows[j])
  }

  /** The keys of the rows of `r`. */
  ghost function KeysOf(r: seq<Row>): set<Key> {
    set a | 0 <= a < |r| :: KeyOf(r[a])
  }

  /** The kept rows carry exactly the keys of the rows they were taken from. */
  lemma {:induction false} FirstsKeys(rows: seq<Row>, n: nat)
    requires n <= |rows|
    ensures KeysOf(FirstsUpTo(rows, n)) == KeysUpTo(rows, n)
  {
    if n > 0 {
      FirstsKeys(rows, n - 1);
      var prev := FirstsUpTo(rows, n - 1);
      var r := FirstsUpTo(rows, n);
      assert forall a :: 0 <= a < |prev| ==> r[a] == prev[a];
      assert KeysUpTo(rows, n) == KeysUpTo(rows, n - 1) + {KeyOf(rows[n - 1])};
      if IsFirst(rows, n - 1) {
        assert r[|prev|] == rows[n - 1];
        assert KeysOf(r) == KeysOf(prev) + {KeyOf(rows[n - 1])};
      } else {
        var j :| 0 <= j < n - 1 && KeyOf(rows[j]) == KeyOf(rows[n - 1]);
        assert KeyOf(rows[n - 1]) in KeysUpTo(rows, n - 1);
      }
    }
  }

  /** No two rows of `r` have the same key. */
  predicate DistinctKeys(r: seq<Row>) {
    forall a, b :: 0 <= a < b < |r| ==> KeyOf(r[a]) != KeyOf(r[b])
  }

  /** No two kept rows have the same key. */
  lemma {:induction false} FirstsDistinct(rows: seq<Row>, n: nat)
    requires n <= |rows|
    ensures DistinctKeys(FirstsUpTo(rows, n))
  {
    if n > 0 {
      FirstsDistinct(rows, n - 1);
      var prev := FirstsUpTo(rows, n - 1);
      if IsFirst(rows, n - 1) {
        var r := FirstsUpTo(rows, n);
        assert r == prev + [rows[n - 1]];
        FirstsKeys(rows, n - 1);
        assert KeyOf(rows[n - 1]) !in KeysUpTo(rows, n - 1);
        forall a, b | 0 <= a < b < |r|
          ensures KeyOf(r[a]) != KeyOf(r[b])
        {
          if b == |prev| {
            assert KeyOf(prev[a]) in KeysOf(prev);
          } else {
            assert r[a] == prev[a] && r[b] == prev[b];
          }
        }
      } else {
        assert FirstsUpTo(rows, n) == prev;
      }
    }
  }

  /** Every kept row is an input row, and the first row of each key is kept. */
  lemma {:induction false} FirstsKeepFirst(rows: seq<Row>, n: nat)
    requires n <= |rows|
    ensures forall x :: x in FirstsUpTo(rows, n) ==> x in rows[..n]
    ensures forall i :: 0 <= i < n && IsFirst(rows, i) ==> rows[i] in FirstsUpTo(rows, n)
  {
    if n > 0 {
      FirstsKeepFirst(rows, n - 1);
      assert forall x :: x in rows[..n - 1] ==> x in rows[..n];
      assert rows[n - 1] == rows[..n][n - 1];
    }
  }

  // ---------------------------------------------------------------------
  // Back-filling and reordering

  /** `df[col] = fill` on every row. */
  function Filled(rows: seq<Row>, col: string, fill: Cell): (r: seq<Row>)
    ensures |r| == |rows|
    ensures forall k :: 0 <= k < |rows| ==> r[k] == rows[k][col := fill]
  {
    seq(|rows|, k requires 0 <= k < |rows| => rows[k][col := fill])
  }

  /** The frame after the first `n` steps of the back-fill loop. */
  function BackFill(f: Frame, n: nat): (g: Frame)
    requires n <= |FinalColumns|
    ensures |g.rows| == |f.rows|
  {
    if n == 0 then f
    else
      var g := BackFill(f, n - 1);
      var c := FinalColumns[n - 1];
      if c in g.columns then g else Frame(g.columns + [c], Filled(g.rows, c, Some(NotInformed)))
  }

  /** The back-fill keeps every existing cell, gives "N/I" to each final
      column the frame lacked, and leaves every final column present. */
  lemma {:induction false} BackFillCells(f: Frame, n: nat)
    requires n <= |FinalColumns|
    ensures forall c :: c in BackFill(f, n).columns <==> c in f.columns || c in FinalColumns[..n]
    ensures forall k, c :: 0 <= k < |f.rows| && c in f.columns ==> Lookup(BackFill(f, n).rows[k], c) == Lookup(f.rows[k], c)
    ensures forall k, c :: 0 <= k < |f.rows| && c !in f.columns && c in FinalColumns[..n] ==>
      Lookup(BackFill(f, n).rows[k], c) == Some(NotInformed)
  {
    if n > 0 {
      BackFillCells(f, n - 1);
      assert FinalColumns[..n] == FinalColumns[..n - 1] + [FinalColumns[n - 1]];
    }
  }

  /** `df[cols]`: the rows restricted to `cols`. */
  function Restricted(rows: seq<Row>, cols: seq<string>): (r: seq<Row>)
    ensures |r| == |rows|
    ensures forall k :: 0 <= k < |rows| ==> r[k] == Widen(rows[k], cols)
  {
    seq(|rows|, k requires 0 <= k < |rows| => Widen(rows[k], cols))
  }

  // ---------------------------------------------------------------------
  // The stage

  /** What the stage produces. */
  datatype Outcome =
    | NoFiles                 // no CSV file in the folder: exits at once
    | NothingRead             // no file could be read
    | MissingKeyColumn        // `drop_duplicates` raises KeyError: some key column is absent from every file
    | Written(table: Frame)   // the consolidated spreadsheet

  /** Some key column is absent from the concatenated frame. */
  predicate LacksKey(all: Frame) {
    exists c :: c in KeyColumns && c !in all.columns
  }

  /** What becomes of the concatenated frame: duplicates dropped, final
      columns back-filled, then selected in order. */
  function Finish(all: Frame): (r: Outcome)
    ensures r.Written? <==> !LacksKey(all)
    ensures r.Written? ==> r.table.columns == FinalColumns && |r.table.rows| <= |all.rows|
    ensures r.Written? ==> forall k :: 0 <= k < |r.table.rows| ==> forall c :: c in r.table.rows[k] <==> c in FinalColumns
  {
    if LacksKey(all) then MissingKeyColumn
    else
      var filled := BackFill(Frame(all.columns, FirstsUpTo(all.rows, |all.rows|)), |FinalColumns|);
      Written(Frame(FinalColumns, Restricted(filled.rows, FinalColumns)))
  }

  /** The stage as a function of what was read. */
  function ConsolidationSpec(files: seq<CsvRead>): (r: Outcome)
    ensures r == NoFiles <==> files == []
    ensures r == NothingRead <==> files != [] && forall i :: 0 <= i < |files| ==> files[i].Unreadable?
    ensures r.Written? ==> |r.table.rows| <= TotalRows(ReadableUpTo(files, |files|), |ReadableUpTo(files, |files|)|)
  {
    if files == [] then NoFiles
    else
      var frames := ReadableUpTo(files, |files|);
      if frames == [] then NothingRead else Finish(Concat(frames))
  }

  /** The frame the stage works on in place. */
  class Table {
    var columns: seq<string>
    var rows: seq<Row>

    constructor (f: Frame)
      ensures columns == f.columns && rows == f.rows
    {
      columns := f.columns;
      rows := f.rows;
    }

    /** `drop_duplicates(subset=KeyColumns, keep='first', inplace=True)`,
        once the key columns are known to exist. */
    method DropDuplicates()
      modifies this
      ensures columns == old(columns)
      ensures rows == FirstsUpTo(old(rows), |old(rows)|)
    {
      var seen: set<Key> := {};
      var kept: seq<Row> := [];
      for i := 0 to |rows|
        invariant seen == KeysUpTo(rows, i)
        invariant kept == FirstsUpTo(rows, i)
      {
        var key := KeyOf(rows[i]);
        assert IsFirst(rows, i) <==> key !in seen;
        if key !in seen {
          kept := kept + [rows[i]];
          seen := seen + {key};
        }
        assert KeysUpTo(rows, i + 1) == KeysUpTo(rows, i) + {key};
      }
      rows := kept;
    }

    /** `df[col] = fill`: a new column goes last; an existing one is overwritten. */
    method SetColumn(col: string, fill: Cell)
      modifies this
      ensures columns == if col in old(columns) then old(columns) else old(columns) + [col]
      ensures rows == Filled(old(rows), col, fill)
    {
      if col !in columns {
        columns := columns + [col];
      }
      rows := Filled(rows, col, fill);
    }

    /** `df[cols]`, a new frame. */
    method Select(cols: seq<string>) returns (f: Frame)
      ensures f == Frame(cols, Restricted(rows, cols))
    {
      f := Frame(cols, Restricted(rows, cols));
    }
  }

  /** The work on the concatenated frame. */
  method FinishFrame(all: Frame) returns (r: Outcome)
    ensures r == Finish(all)
  {
    if LacksKey(all) {
      return MissingKeyColumn;
    }
    var t := new Table(all);
    t.DropDuplicates();
    ghost var deduped := Frame(t.columns, t.rows);
    for k := 0 to |FinalColumns|
      invariant Frame(t.columns, t.rows) == BackFill(deduped, k)
    {
      if FinalColumns[k] !in t.columns {
        t.SetColumn(FinalColumns[k], Some(NotInformed));
      }
    }
    var out := t.Select(FinalColumns);
    r := Written(out);
  }

  /** The script: read the files, concatenate what could be read, drop
      duplicate listings, back-fill and reorder the final columns. */
  method Consolidate(files: seq<CsvRead>) returns (r: Outcome)
    ensures r == ConsolidationSpec(files)
  {
    if files == [] {
      return NoFiles;
    }
    var frames: seq<Frame> := [];
    for i := 0 to |files|
      invariant frames == ReadableUpTo(files, i)
    {
      if files[i].Readable? {
        frames := frames + [files[i].frame];
      }
    }
    if frames == [] {
      return NothingRead;
    }
    r := FinishFrame(Concat(frames));
  }

  // ---------------------------------------------------------------------
  // Properties of the consolidated table

  /** No two rows of the finished table have the same address, price and site. */
  lemma FinishedDistinct(all: Frame)
    requires Finish(all).Written?
    ensures DistinctKeys(Finish(all).table.rows)
  {
    var kept := FirstsUpTo(all.rows, |all.rows|);
    var t := Finish(all).table;
    FirstsDistinct(all.rows, |all.rows|);
    forall a, b | 0 <= a < b < |t.rows|
      ensures KeyOf(t.rows[a]) != KeyOf(t.rows[b])
    {
      KeyKept(all, a);
      KeyKept(all, b);
      assert KeyOf(kept[a]) != KeyOf(kept[b]);
    }
  }

  /** A final column the frame lacks reads "N/I" on every row, and a column
      it has keeps the value of the kept row. */
  lemma FinishedCells(all: Frame)
    requires Finish(all).Written?
    ensures var kept := FirstsUpTo(all.rows, |all.rows|);
      var t := Finish(all).table;
      |t.rows| == |kept|
      && forall k, c :: 0 <= k < |t.rows| && c in FinalColumns ==>
           t.rows[k][c] == (if c in all.columns then Lookup(kept[k], c) else Some(NotInformed))
  {
    BackFillCells(Frame(all.columns, FirstsUpTo(all.rows, |all.rows|)), |FinalColumns|);
    assert FinalColumns[..|FinalColumns|] == FinalColumns;
  }

  /** Each kept row is a row of the frame, the first row of every key is
      kept, and every key of the frame is in the table. */
  lemma FinishedKeepsFirst(all: Frame)
    requires Finish(all).Written?
    ensures var kept := FirstsUpTo(all.rows, |all.rows|);
      && (forall x :: x in kept ==> x in all.rows)
      && (forall i :: 0 <= i < |all.rows| && IsFirst(all.rows, i) ==> all.rows[i] in kept)
    ensures forall i :: 0 <= i < |all.rows| ==>
      exists k :: 0 <= k < |Finish(all).table.rows| && KeyOf(Finish(all).table.rows[k]) == KeyOf(all.rows[i])
  {
    var kept := FirstsUpTo(all.rows, |all.rows|);
    FirstsKeepFirst(all.rows, |all.rows|);
    assert all.rows[..|all.rows|] == all.rows;
    FirstsKeys(all.rows, |all.rows|);
    var t := Finish(all).table;
    forall i | 0 <= i < |all.rows|
      ensures exists k :: 0 <= k < |t.rows| && KeyOf(t.rows[k]) == KeyOf(all.rows[i])
    {
      assert KeyOf(all.rows[i]) in KeysUpTo(all.rows, |all.rows|);
      var k :| 0 <= k < |kept| && KeyOf(kept[k]) == KeyOf(all.rows[i]);
      KeyKept(all, k);
    }
  }

  lemma KeyKept(all: Frame, k: nat)
    requires Finish(all).Written?
    requires k < |FirstsUpTo(all.rows, |all.rows|)|
    ensures k < |Finish(all).table.rows|
    ensures KeyOf(Finish(all).table.rows[k]) == KeyOf(FirstsUpTo(all.rows, |all.rows|)[k])
  {
    FinishedCells(all);
    assert "endereco" in FinalColumns && "preco" in FinalColumns && "site" in FinalColumns;
    assert !LacksKey(all);
    assert "endereco" in all.columns && "preco" in all.columns && "site" in all.columns by {
      assert KeyColumns[0] == "endereco" && KeyColumns[1] == "preco" && KeyColumns[2] == "site";
    }
  }
}
