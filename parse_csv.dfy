/**
 * `parse_csv` of tmp/parse_csv.py: fold the rows of a CSV file into a
 * dictionary keyed by the second column.  Opening the file and splitting it
 * into fields (`csv.reader`) are outside the model: the rows arrive as
 * sequences of fields, the header row first.
 */
module CsvLinks {
  import opened Common

  /** The dictionary value `{'value': ..., 'msg': ...}`. */
  datatype Entry = Entry(value: string, msg: Option<string>)

  /** `next(reader)` on a file with no row at all raises `StopIteration`. */
  datatype CsvError = StopIteration

  /** The entry a row of at least two columns is stored as. */
  function EntryOf(row: seq<string>): (e: Entry)
    requires |row| >= 2
    ensures e.value == row[0]
    ensures e.msg.Some? <==> |row| == 3
    ensures e.msg.Some? ==> e.msg.value == row[2]
  {
    Entry(row[0], if |row| == 3 then Some(row[2]) else None)
  }

  /** `result` after the loop has seen `rows`. */
  function Fold(rows: seq<seq<string>>): (m: map<string, Entry>)
    ensures forall k :: k in m ==> exists i :: 0 <= i < |rows| && |rows[i]| >= 2 && rows[i][1] == k && m[k] == EntryOf(rows[i])
  {
    if rows == [] then map[]
    else
      var row := rows[|rows| - 1];
      var result := Fold(rows[..|rows| - 1]);
      if |row| >= 2 then result[row[1] := EntryOf(row)] else result
  }

  /** `parse_csv`: skip the header, then store every row of two or more columns under its second column. */
  method ParseCsv(rows: seq<seq<string>>) returns (r: Result<map<string, Entry>, CsvError>)
    ensures r.Failure? <==> rows == []
    ensures rows != [] ==> r == Success(Fold(rows[1..]))
  {
    if |rows| == 0 {
      return Failure(StopIteration);
    }
    var result: map<string, Entry> := map[];
    var i := 1;
    while i < |rows|
      invariant 1 <= i <= |rows|
      invariant result == Fold(rows[1..i])
    {
      var row := rows[i];
      assert rows[1..i + 1][..i - 1] == rows[1..i];
      if |row| >= 2 {
        var key := row[1];
        var value := row[0];
        var msg := if |row| == 3 then Some(row[2]) else None;
        result := result[key := Entry(value, msg)];
      }
      i := i + 1;
    }
    assert rows[1..i] == rows[1..];
    return Success(result);
  }

  /** The keys are the second columns of the rows with at least two columns, and nothing else. */
  lemma {:induction false} FoldKeys(rows: seq<seq<string>>)
    ensures forall k :: k in Fold(rows) <==>
      exists i :: 0 <= i < |rows| && |rows[i]| >= 2 && rows[i][1] == k
  {
    if rows != [] {
      var init := rows[..|rows| - 1];
      FoldKeys(init);
      forall k
        ensures k in Fold(rows) <==> exists i :: 0 <= i < |rows| && |rows[i]| >= 2 && rows[i][1] == k
      {
        if exists i :: 0 <= i < |rows| && |rows[i]| >= 2 && rows[i][1] == k {
          var i :| 0 <= i < |rows| && |rows[i]| >= 2 && rows[i][1] == k;
          if i < |rows| - 1 {
            assert init[i] == rows[i];
          }
        }
        if exists i :: 0 <= i < |init| && |init[i]| >= 2 && init[i][1] == k {
          var i :| 0 <= i < |init| && |init[i]| >= 2 && init[i][1] == k;
          assert rows[i] == init[i];
        }
      }
    }
  }

  /** A key holds the entry of the last row that carries it: later rows replace earlier ones. */
  lemma {:induction false} LastRowWins(rows: seq<seq<string>>, i: nat)
    requires i < |rows| && |rows[i]| >= 2
    requires forall j :: i < j < |rows| && |rows[j]| >= 2 ==> rows[j][1] != rows[i][1]
    ensures rows[i][1] in Fold(rows) && Fold(rows)[rows[i][1]] == EntryOf(rows[i])
  {
    var init := rows[..|rows| - 1];
    if i < |rows| - 1 {
      assert init[i] == rows[i];
      LastRowWins(init, i);
    }
  }
}
