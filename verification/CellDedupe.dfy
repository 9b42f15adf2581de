/** The one-off repair of the enrichment table: keep the best row of every cell, then declare cells unique. */
module CellDedupe {
  import opened Prelude

  datatype Cell = Cell(workbook: int, lead: int, column: string)
  datatype Row = Row(id: int, cell: Cell, value: Option<string>, status: string)

  predicate HasValue(r: Row) {
    r.value.Some? && r.value.value != ""
  }

  function StatusRank(status: string): int {
    if status == "complete" then 4 else if status == "error" then 3 else if status == "skipped" then 2 else 1
  }

  /** a sorts before b within a cell: a value first, then the higher status, then the later id. */
  predicate Before(a: Row, b: Row) {
    || (HasValue(a) && !HasValue(b))
    || (HasValue(a) == HasValue(b)
        && (StatusRank(a.status) > StatusRank(b.status) || (StatusRank(a.status) == StatusRank(b.status) && a.id > b.id)))
  }

  predicate Listed(status: string) {
    status in {"complete", "error", "skipped"}
  }

  /** The order in words: any value beats none; of two rows that both have or both lack one, complete beats
      error, error beats skipped and skipped beats any other status; of equal standing, the later row wins. */
  lemma BeforeInWords(a: Row, b: Row)
    ensures var v, w := a.value.Some? && a.value.value != "", b.value.Some? && b.value.value != "";
      && (v && !w ==> Before(a, b) && !Before(b, a))
      && (v == w && a.status == "complete" && b.status != "complete" ==> Before(a, b) && !Before(b, a))
      && (v == w && a.status == "error" && b.status !in {"complete", "error"} ==> Before(a, b) && !Before(b, a))
      && (v == w && a.status == "skipped" && !Listed(b.status) ==> Before(a, b) && !Before(b, a))
      && (v == w && (a.status == b.status || (!Listed(a.status) && !Listed(b.status))) ==> (Before(a, b) <==> a.id > b.id))
  {
  }

  function BeatsInCell(r: Row): Row -> bool {
    (s: Row) => s.cell == r.cell && Before(s, r)
  }

  /** ROW_NUMBER() over the row's cell. */
  function RowNumber(rows: seq<Row>, r: Row): nat {
    1 + Tally(rows, BeatsInCell(r))
  }

  /** Ids are the primary key. */
  ghost predicate Keyed(rows: seq<Row>) {
    forall i, j | 0 <= i < j < |rows| :: rows[i].id != rows[j].id
  }

  /** What the unique index demands. */
  ghost predicate OneRowPerCell(rows: seq<Row>) {
    forall i, j | 0 <= i < j < |rows| :: rows[i].cell != rows[j].cell
  }

  /** Of `rows`, those numbered 1 within `all`. */
  function Kept(all: seq<Row>, rows: seq<Row>): seq<Row> {
    if rows == [] then []
    else
      var init, last := rows[..|rows| - 1], rows[|rows| - 1];
      Kept(all, init) + if RowNumber(all, last) == 1 then [last] else []
  }

  class Table {
    var rows: seq<Row>
    var indexed: bool

    ghost predicate Valid()
      reads this
    {
      Keyed(rows) && (indexed ==> OneRowPerCell(rows))
    }

    method DeleteDuplicates()
      requires Valid()
      modifies `rows
      ensures Valid() && rows == Kept(old(rows), old(rows))
    {
      var all := rows;
      var left: seq<Row> := [];
      for i := 0 to |all|
        invariant left == Kept(all, all[..i])
      {
        assert all[..i + 1][..i] == all[..i];
        if RowNumber(all, all[i]) == 1 {
          left := left + [all[i]];
        }
      }
      assert all[..|all|] == all;
      rows := left;
      KeptFacts(all, all);
      BestRowsFacts(all);
    }

    /** Fails, as the database would, when two rows share a cell. */
    method CreateUniqueIndex() returns (ok: bool)
      requires Valid()
      modifies `indexed
      ensures ok <==> OneRowPerCell(rows)
      ensures Valid() && indexed == (old(indexed) || ok)
    {
      ok := true;
      for i := 0 to |rows|
        invariant ok <==> OneRowPerCell(rows[..i])
      {
        var dup := false;
        for j := 0 to i
          invariant dup <==> exists k | 0 <= k < j :: rows[k].cell == rows[i].cell
        {
          dup := dup || rows[j].cell == rows[i].cell;
        }
        ok := ok && !dup;
      }
      assert rows[..|rows|] == rows;
      indexed := indexed || ok;
    }

    /** The migration step: nothing when the index is there, otherwise dedupe and install it, which
        cannot fail. */
    method Migrate() returns (ok: bool)
      requires Valid()
      modifies this
      ensures Valid() && ok && indexed && OneRowPerCell(rows)
      ensures rows == Kept(old(rows), old(rows))
    {
      if indexed {
        UniqueRowsAllStay(rows);
        return true;
      }
      BestRowsFacts(rows);
      DeleteDuplicates();
      ok := CreateUniqueIndex();
    }
  }

  // ---- which rows stay ----

  lemma {:induction false} KeptFacts(all: seq<Row>, rows: seq<Row>)
    ensures forall r :: r in Kept(all, rows) <==> r in rows && RowNumber(all, r) == 1
    ensures Keyed(rows) ==> Keyed(Kept(all, rows))
  {
    if rows == [] {
    } else {
      var init, last := rows[..|rows| - 1], rows[|rows| - 1];
      KeptFacts(all, init);
      assert rows == init + [last];
      forall i | 0 <= i < |Kept(all, init)| && Keyed(rows) ensures Kept(all, init)[i].id != last.id {
        assert Kept(all, init)[i] in init;
      }
    }
  }

  /** r is the lexicographic maximum of its cell. */
  ghost predicate IsBest(rows: seq<Row>, r: Row) {
    r in rows && forall s | s in rows && s.cell == r.cell :: s == r || Before(r, s)
  }

  /** A row stays exactly if it is the best of its cell. */
  lemma StaysExactlyIfBest(rows: seq<Row>, r: Row)
    requires Keyed(rows)
    ensures r in Kept(rows, rows) <==> IsBest(rows, r)
  {
    KeptFacts(rows, rows);
    TallyBounds(rows, BeatsInCell(r));
    if r in rows && RowNumber(rows, r) == 1 {
      forall s | s in rows && s.cell == r.cell ensures s == r || Before(r, s) {
        var i :| 0 <= i < |rows| && rows[i] == s;
        var j :| 0 <= j < |rows| && rows[j] == r;
        assert !BeatsInCell(r)(rows[i]);
      }
    }
  }

  /** Every cell has a best row. */
  lemma {:induction false} BestExists(rows: seq<Row>, cell: Cell) returns (best: Row)
    requires Keyed(rows) && exists r :: r in rows && r.cell == cell
    ensures best.cell == cell && IsBest(rows, best)
  {
    var init, last := rows[..|rows| - 1], rows[|rows| - 1];
    assert rows == init + [last];
    if r :| r in init && r.cell == cell {
      best := BestExists(init, cell);
      if last.cell == cell && Before(last, best) {
        best := last;
      }
    } else {
      best := last;
    }
  }

  /** After the delete each cell that had a row has exactly one, so the unique index can be installed,
      and deleting again removes nothing. */
  lemma BestRowsFacts(rows: seq<Row>)
    requires Keyed(rows)
    ensures OneRowPerCell(Kept(rows, rows)) && Keyed(Kept(rows, rows))
    ensures forall r | r in rows :: exists best :: best in Kept(rows, rows) && best.cell == r.cell
    ensures Kept(Kept(rows, rows), Kept(rows, rows)) == Kept(rows, rows)
  {
    var kept := Kept(rows, rows);
    KeptFacts(rows, rows);
    forall i, j | 0 <= i < j < |kept| ensures kept[i].cell != kept[j].cell {
      StaysExactlyIfBest(rows, kept[i]);
      StaysExactlyIfBest(rows, kept[j]);
      assert kept[i] in kept && kept[j] in kept;
    }
    forall r | r in rows ensures exists best :: best in kept && best.cell == r.cell {
      var best := BestExists(rows, r.cell);
      StaysExactlyIfBest(rows, best);
    }
    UniqueRowsAllStay(kept);
  }

  lemma UniqueRowsAllStay(rows: seq<Row>)
    requires Keyed(rows) && OneRowPerCell(rows)
    ensures Kept(rows, rows) == rows
  {
    AllStay(rows, rows);
  }

  lemma {:induction false} AllStay(all: seq<Row>, rows: seq<Row>)
    requires Keyed(all) && OneRowPerCell(all) && forall r | r in rows :: r in all
    ensures Kept(all, rows) == rows
  {
    if rows == [] {
    } else {
      var init, last := rows[..|rows| - 1], rows[|rows| - 1];
      assert rows == init + [last];
      AllStay(all, init);
      assert last in rows;
      forall j | 0 <= j < |all| ensures !BeatsInCell(last)(all[j]) {}
      TallyBounds(all, BeatsInCell(last));
    }
  }

  /** What is left in a cell is at least as good as any row it had; a cell with a value keeps one. */
  lemma NoValueIsLost(rows: seq<Row>, r: Row)
    requires Keyed(rows) && r in rows
    ensures exists best :: best in Kept(rows, rows) && best.cell == r.cell && (best == r || Before(best, r))
    ensures HasValue(r) ==> exists best :: best in Kept(rows, rows) && best.cell == r.cell && HasValue(best)
  {
    var best := BestExists(rows, r.cell);
    StaysExactlyIfBest(rows, best);
  }
}
