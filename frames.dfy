/** The loaded dataset as the router uses it: named columns of CSV cells,
    column lookup by name (`df['name']`, which raises `KeyError` when the
    column is absent), `value_counts` as a multiset of labels, the `rs_`
    gene-column filter and the three-field receptor-status summary. */
module Frames {
  import opened Text

  /** One CSV cell; an empty field is read as a missing value (NaN). */
  datatype Cell = Missing | Value(text: string)

  datatype Column = Column(name: string, cells: seq<Cell>)

  /** The outcome of a pandas operation: its value, or the exception it raises
      (`KeyError` naming a missing column, or `ValueError` with its message). */
  datatype Result<T> = Ok(value: T) | KeyError(column: string) | ValueError(message: string)

  /** `df.columns`, in order. */
  function Names(cols: seq<Column>): (r: seq<string>)
    ensures |r| == |cols|
    ensures forall i :: 0 <= i < |cols| ==> r[i] == cols[i].name
  {
    if cols == [] then [] else [cols[0].name] + Names(cols[1..])
  }

  /** Every column holds one cell per row. */
  predicate Rectangular(cols: seq<Column>, rows: nat) {
    forall i :: 0 <= i < |cols| ==> |cols[i].cells| == rows
  }

  /** Column `i` is the first one called `name`. */
  predicate FirstNamed(cols: seq<Column>, name: string, i: int) {
    0 <= i < |cols| && cols[i].name == name && forall j :: 0 <= j < i ==> cols[j].name != name
  }

  /** `df[name]`: the cells of the first column of that name, or `KeyError(name)`. */
  function Lookup(cols: seq<Column>, name: string): (r: Result<seq<Cell>>)
    ensures r.Ok? <==> name in Names(cols)
    ensures !r.Ok? ==> r == KeyError(name)
    ensures r.Ok? ==> exists i :: FirstNamed(cols, name, i) && cols[i].cells == r.value
  {
    if cols == [] then KeyError(name)
    else if cols[0].name == name then Ok(cols[0].cells)
    else
      var r := Lookup(cols[1..], name);
      assert r.Ok? ==> exists i :: FirstNamed(cols, name, i) && cols[i].cells == r.value by {
        if r.Ok? {
          var i :| FirstNamed(cols[1..], name, i) && cols[1..][i].cells == r.value;
          assert forall j :: 1 <= j < i + 1 ==> cols[j] == cols[1..][j - 1];
          assert cols[i + 1] == cols[1..][i];
          assert FirstNamed(cols, name, i + 1);
        }
      }
      r
  }

  /** Number of missing cells in a column. */
  function MissingCount(cells: seq<Cell>): nat {
    multiset(cells)[Missing]
  }

  /** `value_counts()`: how often each label occurs, missing cells dropped. */
  function ValueCounts(cells: seq<Cell>): (m: multiset<string>)
    ensures forall v :: m[v] == multiset(cells)[Value(v)]
    ensures |m| + MissingCount(cells) == |cells|
  {
    if cells == [] then multiset{}
    else
      assert cells == [cells[0]] + cells[1..];
      var rest := ValueCounts(cells[1..]);
      match cells[0]
      case Missing => rest
      case Value(v) => multiset{v} + rest
  }

  /** The counts of a column without missing cells add up to its length. */
  lemma CountsCoverAllRows(cells: seq<Cell>, rows: nat)
    requires |cells| == rows
    requires Missing !in cells
    ensures |ValueCounts(cells)| == rows
  {
  }

  const GenePrefix: string := "rs_"

  /** `[col for col in df.columns if col.startswith("rs_")]` */
  function GeneColumns(names: seq<string>): (r: seq<string>)
    ensures forall c :: multiset(r)[c] == if StartsWith(c, GenePrefix) then multiset(names)[c] else 0
    ensures forall c :: c in r <==> c in names && StartsWith(c, GenePrefix)
  {
    if names == [] then []
    else
      assert names == [names[0]] + names[1..];
      (if StartsWith(names[0], GenePrefix) then [names[0]] else []) + GeneColumns(names[1..])
  }

  /** The filter keeps relative order: it distributes over concatenation. */
  lemma {:induction false} GeneColumnsAppend(a: seq<string>, b: seq<string>)
    ensures GeneColumns(a + b) == GeneColumns(a) + GeneColumns(b)
  {
    if a == [] {
      assert a + b == b;
    } else {
      assert (a + b)[0] == a[0];
      assert (a + b)[1..] == a[1..] + b;
      GeneColumnsAppend(a[1..], b);
    }
  }

  /** Filtering a list that already carries the prefix changes nothing. */
  lemma {:induction false} GeneColumnsKeepsGenes(names: seq<string>)
    requires forall i :: 0 <= i < |names| ==> StartsWith(names[i], GenePrefix)
    ensures GeneColumns(names) == names
  {
    if names != [] {
      GeneColumnsKeepsGenes(names[1..]);
    }
  }

  /** `df[gene_columns]`: the columns whose names carry the gene prefix. */
  function GeneFrame(cols: seq<Column>): (r: seq<Column>)
    ensures Names(r) == GeneColumns(Names(cols))
    ensures forall c :: multiset(r)[c] == if StartsWith(c.name, GenePrefix) then multiset(cols)[c] else 0
  {
    if cols == [] then []
    else
      assert cols == [cols[0]] + cols[1..];
      assert Names(cols) == [cols[0].name] + Names(cols[1..]);
      var rest := GeneFrame(cols[1..]);
      if StartsWith(cols[0].name, GenePrefix) then
        assert Names([cols[0]] + rest) == [cols[0].name] + Names(rest);
        [cols[0]] + rest
      else rest
  }

  /** The selection is empty exactly when no column name carries the prefix. */
  lemma NoGeneColumns(cols: seq<Column>)
    ensures GeneColumns(Names(cols)) == [] <==>
      forall i :: 0 <= i < |cols| ==> !StartsWith(cols[i].name, GenePrefix)
  {
    var names := Names(cols);
    var genes := GeneColumns(names);
    if genes == [] {
      forall i | 0 <= i < |cols|
        ensures !StartsWith(cols[i].name, GenePrefix)
      {
        assert names[i] == cols[i].name;
        assert cols[i].name !in genes;
      }
    } else {
      assert genes[0] in genes;
      var i :| 0 <= i < |names| && names[i] == genes[0];
      assert StartsWith(cols[i].name, GenePrefix);
    }
  }

  /** The dict `{label: df[column].value_counts().to_dict(), ...}`, built entry
      by entry in order. Each entry carries its label and the looked-up column
      whose counts the dict holds; the first absent column raises. */
  function Summarize(cols: seq<Column>, fields: seq<(string, string)>): (r: Result<seq<(string, seq<Cell>)>>)
    ensures r.Ok? ==> |r.value| == |fields|
    ensures r.KeyError? ==> r.column !in Names(cols)
    ensures !r.ValueError?
  {
    if fields == [] then Ok([])
    else
      match Lookup(cols, fields[0].1)
      case KeyError(c) => KeyError(c)
      case ValueError(m) => ValueError(m)
      case Ok(cells) =>
        match Summarize(cols, fields[1..])
        case KeyError(c) => KeyError(c)
        case ValueError(m) => ValueError(m)
        case Ok(rest) => Ok([(fields[0].0, cells)] + rest)
  }

  /** The first `k` columns named by `fields` are present. */
  predicate PresentUpTo(cols: seq<Column>, fields: seq<(string, string)>, k: int)
    requires 0 <= k <= |fields|
  {
    forall j :: 0 <= j < k ==> fields[j].1 in Names(cols)
  }

  /** A summary succeeds exactly when every named column is present, and then
      holds one entry per field, with the field's label and its column. */
  lemma {:induction false} SummarizeOk(cols: seq<Column>, fields: seq<(string, string)>)
    ensures Summarize(cols, fields).Ok? <==> PresentUpTo(cols, fields, |fields|)
    ensures Summarize(cols, fields).Ok? ==>
      var r := Summarize(cols, fields).value;
      |r| == |fields| &&
      forall k :: 0 <= k < |fields| ==> r[k] == (fields[k].0, CellsOf(cols, fields[k].1))
  {
    if fields != [] {
      SummarizeOk(cols, fields[1..]);
      assert PresentUpTo(cols, fields, |fields|) <==>
        fields[0].1 in Names(cols) && PresentUpTo(cols, fields[1..], |fields[1..]|) by {
        assert forall j :: 1 <= j < |fields| ==> fields[j] == fields[1..][j - 1];
      }
    }
  }

  /** A failing summary names the first absent column among the fields. */
  lemma {:induction false} SummarizeFails(cols: seq<Column>, fields: seq<(string, string)>)
    requires Summarize(cols, fields).KeyError?
    ensures var c := Summarize(cols, fields).column;
      c !in Names(cols) &&
      exists k :: 0 <= k < |fields| && fields[k].1 == c && PresentUpTo(cols, fields, k)
  {
    var c := Summarize(cols, fields).column;
    if fields[0].1 in Names(cols) {
      SummarizeFails(cols, fields[1..]);
      var k :| 0 <= k < |fields[1..]| && fields[1..][k].1 == c && PresentUpTo(cols, fields[1..], k);
      assert fields[k + 1].1 == c;
      assert PresentUpTo(cols, fields, k + 1) by {
        assert forall j :: 1 <= j < k + 1 ==> fields[j] == fields[1..][j - 1];
      }
    } else {
      assert PresentUpTo(cols, fields, 0);
    }
  }

  /** The cells of the first column called `name`, or no cells. */
  function CellsOf(cols: seq<Column>, name: string): seq<Cell> {
    match Lookup(cols, name)
    case Ok(cells) => cells
    case _ => []
  }

  /** The receptor-status dict: display key and the dataset column it counts. */
  const ReceptorFields: seq<(string, string)> :=
    [("ER Status", "ER.Status"), ("PR Status", "PR.Status"), ("HER2 Status", "HER2.Final.Status")]

  /** The three-entry receptor-status dict; a failure names one of its three
      columns, one the dataset lacks. */
  function ReceptorSummary(cols: seq<Column>): (r: Result<seq<(string, seq<Cell>)>>)
    ensures r.Ok? ==> |r.value| == 3
    ensures r.KeyError? ==> r.column !in Names(cols)
    ensures r.KeyError? ==> r.column == "ER.Status" || r.column == "PR.Status" || r.column == "HER2.Final.Status"
    ensures !r.ValueError?
  {
    var r := Summarize(cols, ReceptorFields);
    if r.KeyError? then
      SummarizeFails(cols, ReceptorFields);
      r
    else r
  }

  /** The receptor summary has exactly the keys ER, PR and HER2 Status, in that
      order, each over its own column. */
  lemma ReceptorSummaryKeys(cols: seq<Column>)
    requires ReceptorSummary(cols).Ok?
    ensures var r := ReceptorSummary(cols).value;
      |r| == 3 &&
      r[0] == ("ER Status", CellsOf(cols, "ER.Status")) &&
      r[1] == ("PR Status", CellsOf(cols, "PR.Status")) &&
      r[2] == ("HER2 Status", CellsOf(cols, "HER2.Final.Status"))
  {
    SummarizeOk(cols, ReceptorFields);
  }

  /** The receptor summary fails exactly when one of its three columns is absent. */
  lemma ReceptorSummaryFails(cols: seq<Column>)
    ensures ReceptorSummary(cols).KeyError? <==>
      "ER.Status" !in Names(cols) || "PR.Status" !in Names(cols) || "HER2.Final.Status" !in Names(cols)
  {
    SummarizeOk(cols, ReceptorFields);
    assert PresentUpTo(cols, ReceptorFields, 3) <==>
      ReceptorFields[0].1 in Names(cols) && ReceptorFields[1].1 in Names(cols) && ReceptorFields[2].1 in Names(cols);
  }

  /** Without `ER.Status` the summary fails on it. */
  lemma ReceptorSummaryMissingER(cols: seq<Column>)
    requires "ER.Status" !in Names(cols)
    ensures ReceptorSummary(cols) == KeyError("ER.Status")
  {
    assert ReceptorFields[0].1 == "ER.Status";
  }

  /** With `ER.Status` but without `PR.Status` the summary fails on `PR.Status`. */
  lemma ReceptorSummaryMissingPR(cols: seq<Column>)
    requires "ER.Status" in Names(cols) && "PR.Status" !in Names(cols)
    ensures ReceptorSummary(cols) == KeyError("PR.Status")
  {
    var tail := ReceptorFields[1..];
    assert tail[0].1 == "PR.Status";
    assert Summarize(cols, tail) == KeyError("PR.Status");
  }

  /** With the ER and PR columns but no `HER2.Final.Status` the summary fails on it. */
  lemma ReceptorSummaryMissingHER2(cols: seq<Column>)
    requires "ER.Status" in Names(cols) && "PR.Status" in Names(cols)
    requires "HER2.Final.Status" !in Names(cols)
    ensures ReceptorSummary(cols) == KeyError("HER2.Final.Status")
  {
    var tail := ReceptorFields[1..];
    var last := tail[1..];
    assert tail[0].1 == "PR.Status";
    assert last[0].1 == "HER2.Final.Status";
    assert Summarize(cols, last) == KeyError("HER2.Final.Status");
    assert Summarize(cols, tail) == KeyError("HER2.Final.Status");
  }

  /** On a rectangular dataset without missing receptor cells, every one of
      the three count tables adds up to the number of rows. */
  lemma ReceptorCountsSumToRows(cols: seq<Column>, rows: nat)
    requires Rectangular(cols, rows)
    requires ReceptorSummary(cols).Ok?
    requires forall k :: 0 <= k < 3 ==> Missing !in CellsOf(cols, ReceptorFields[k].1)
    ensures |ReceptorSummary(cols).value| == 3
    ensures forall k :: 0 <= k < 3 ==> |ValueCounts(ReceptorSummary(cols).value[k].1)| == rows
  {
    SummarizeOk(cols, ReceptorFields);
    forall k | 0 <= k < 3
      ensures |ValueCounts(ReceptorSummary(cols).value[k].1)| == rows
    {
      var name := ReceptorFields[k].1;
      assert name in Names(cols);
      var cells := CellsOf(cols, name);
      var i :| 0 <= i < |cols| && cols[i].name == name && cols[i].cells == cells;
      CountsCoverAllRows(cells, rows);
    }
  }
}
