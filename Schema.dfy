/** The column check that gates a run (app.py, lines 43-46). */
module Schema {

  /** The five columns a transactions table must carry. */
  const RequiredColumns: set<string> :=
    {"InvoiceNo", "Quantity", "UnitPrice", "InvoiceDate", "CustomerID"}

  /** Outcome of the check: the run goes on, or it stops naming what is missing. */
  datatype ColumnCheck = Complete | MissingColumns(missing: set<string>)

  /** Compares the required columns with the header of the uploaded table. */
  function CheckColumns(columns: seq<string>): (v: ColumnCheck)
    ensures v.Complete? <==> forall c :: c in RequiredColumns ==> c in columns
    ensures v.MissingColumns? ==> v.missing != {}
    ensures v.MissingColumns? ==>
      forall c :: c in v.missing <==> c in RequiredColumns && c !in columns
  {
    if forall c :: c in RequiredColumns ==> c in columns then Complete
    else
      var missing := RequiredColumns - (set c | c in columns);
      assert missing != {} by {
        var c :| c in RequiredColumns && c !in columns;
        assert c in missing;
      }
      MissingColumns(missing)
  }

  /** Only which required columns occur matters: not their order, not the other columns. */
  lemma CheckDependsOnlyOnRequired(a: seq<string>, b: seq<string>)
    requires forall c :: c in RequiredColumns ==> (c in a <==> c in b)
    ensures CheckColumns(a) == CheckColumns(b)
  {
    var ma := RequiredColumns - (set c | c in a);
    var mb := RequiredColumns - (set c | c in b);
    assert ma == mb;
  }
}
