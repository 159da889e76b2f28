/** `CSVImporter.validate_columns`: the check that a loaded CSV carries
    every required column. Only the keys of the first row count as the
    available columns. Loading the files is not part of this model. */
module CsvImporter {
  import opened Base
  import opened StateManager

  // ---------------------------------------------------------------------
  // sorted(set)

  /** `m` is the smallest text of `s`. */
  predicate IsLeast(s: set<string>, m: string) {
    m in s && forall y :: y in s ==> y == m || LexLess(m, y)
  }

  lemma {:induction false} LeastExists(s: set<string>)
    requires s != {}
    ensures exists m :: IsLeast(s, m)
    decreases |s|
  {
    var x :| x in s;
    if s != {x} {
      LeastExists(s - {x});
      var m :| IsLeast(s - {x}, m);
      if LexLess(m, x) {
        assert IsLeast(s, m);
      } else {
        LexLessTotal(x, m);
        forall y | y in s && y != x ensures LexLess(x, y) {
          if y != m {
            LexLessTransitive(x, m, y);
          }
        }
        assert IsLeast(s, x);
      }
    } else {
      assert IsLeast(s, x);
    }
  }

  lemma LeastUnique(s: set<string>)
    ensures forall m, n :: IsLeast(s, m) && IsLeast(s, n) ==> m == n
  {
    forall m, n | IsLeast(s, m) && IsLeast(s, n) ensures m == n {
      if m != n {
        LexLessTransitive(m, n, m);
        LexLessIrreflexive(m);
      }
    }
  }

  /** Python `sorted(s)` for a set of texts. */
  function SortedSet(s: set<string>): (r: seq<string>)
    ensures StrictlySorted(r)
    ensures forall y :: y in r <==> y in s
    decreases |s|
  {
    if s == {} then []
    else
      LeastExists(s);
      LeastUnique(s);
      var m :| IsLeast(s, m);
      var rest := SortedSet(s - {m});
      assert forall y :: y in rest ==> LexLess(m, y);
      [m] + rest
  }

  // ---------------------------------------------------------------------
  // validate_columns

  /** The required columns absent from `available`. */
  function MissingColumns(available: set<string>, required: seq<string>): (r: set<string>)
    ensures forall c :: c in r <==> c in required && c !in available
  {
    set c | c in required && c !in available
  }

  /** `validate_columns(rows, required_cols)`: `Ok` where the Python
      returns normally, `Err(message)` where it raises `ValueError`. */
  function ValidateColumns(rows: seq<Row>, required: seq<string>): (r: Result<()>)
    ensures rows == [] ==> r == Err("No rows to validate")
    ensures rows != [] ==> (r.Ok? <==> forall c :: c in required ==> c in rows[0])
    ensures rows != [] && r.Err? ==>
      r.msg == "Missing required columns in CSV: " + Join(", ", SortedSet(MissingColumns(rows[0].Keys, required)))
               + ". Available columns: " + Join(", ", SortedSet(rows[0].Keys))
  {
    if rows == [] then Err("No rows to validate")
    else
      var available := rows[0].Keys;
      var missing := MissingColumns(available, required);
      if missing != {} then
        Err("Missing required columns in CSV: " + Join(", ", SortedSet(missing))
            + ". Available columns: " + Join(", ", SortedSet(available)))
      else
        assert forall c :: c in required ==> c in available;
        Ok(())
  }

  /** The missing columns are reported in increasing order, each once,
      and they are exactly the required columns the first row lacks. */
  lemma MissingListed(rows: seq<Row>, required: seq<string>)
    requires rows != []
    ensures var listed := SortedSet(MissingColumns(rows[0].Keys, required));
      && StrictlySorted(listed)
      && (forall c :: c in listed <==> c in required && c !in rows[0])
      && (listed == [] <==> ValidateColumns(rows, required).Ok?)
  {
    var missing := MissingColumns(rows[0].Keys, required);
    var listed := SortedSet(missing);
    if listed == [] {
      assert forall c :: c !in missing;
    } else {
      assert listed[0] in missing;
    }
  }

  /** The order and repetitions of the required list do not change the
      outcome or the message: `required_cols` is used as a set. */
  lemma {:induction false} RequiredIsASet(rows: seq<Row>, req1: seq<string>, req2: seq<string>)
    requires forall c :: c in req1 <==> c in req2
    ensures ValidateColumns(rows, req1) == ValidateColumns(rows, req2)
  {
    if rows != [] {
      var a := rows[0].Keys;
      assert MissingColumns(a, req1) == MissingColumns(a, req2);
    }
  }

  /** Rows after the first are never looked at. */
  lemma OnlyFirstRowCounts(rows: seq<Row>, more: seq<Row>, required: seq<string>)
    requires rows != []
    ensures ValidateColumns(rows + more, required) == ValidateColumns(rows[..1], required)
  {
    assert (rows + more)[0] == rows[..1][0];
  }

  /** Two columns missing out of four required: the message lists them
      in order, then the columns the file does have. */
  lemma ValidateExample()
    ensures ValidateColumns([map["Id" := "1", "Name" := "Ana"]], ["Name", "DateArrival", "Id", "Amount"])
            == Err("Missing required columns in CSV: " + "Amount" + ", " + "DateArrival"
                   + ". Available columns: " + "Id" + ", " + "Name")
  {
    var row := map["Id" := "1", "Name" := "Ana"];
    assert row.Keys == {"Id", "Name"};
    MissingExample();
    TwoMissing(row, ["Name", "DateArrival", "Id", "Amount"], "Amount", "DateArrival", "Id", "Name");
  }

  lemma TwoMissing(row: Row, req: seq<string>, x: string, y: string, a: string, b: string)
    requires row.Keys == {a, b} && LexLess(a, b)
    requires MissingColumns(row.Keys, req) == {x, y} && LexLess(x, y)
    ensures ValidateColumns([row], req)
            == Err("Missing required columns in CSV: " + x + ", " + y + ". Available columns: " + a + ", " + b)
  {
    SortedPair(x, y);
    SortedPair(a, b);
  }

  lemma MissingExample()
    ensures MissingColumns({"Id", "Name"}, ["Name", "DateArrival", "Id", "Amount"]) == {"Amount", "DateArrival"}
  {
  }

  lemma SortedPair(x: string, y: string)
    requires LexLess(x, y)
    ensures SortedSet({x, y}) == [x, y]
    ensures Join(", ", SortedSet({x, y})) == x + ", " + y
  {
    SortedUnique(SortedSet({x, y}), [x, y]);
  }
}
