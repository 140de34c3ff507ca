/** The query router of the dashboard: greeting detection, the ordered
    first-match dispatch over four dataset keywords, and the prompt handed to
    the language model when nothing matches. */
module Router {
  import opened Text
  import opened Frames

  datatype Option<T> = None | Some(value: T)

  /** The outcome of classification, one per branch of the dispatch. */
  datatype Intent =
    | Greeting
    | HistologicalType
    | VitalStatus
    | ReceptorStatus
    | GeneExpression
    | General

  /** What the router calls but does not define: the text pandas prints for a
      column's `value_counts()`, the `repr` of a column's `value_counts().to_dict()`, the
      text of `describe()` over the gene columns, and the model's `invoke`. */
  datatype Services = Services(
    countsText: seq<Cell> -> string,
    countsRepr: seq<Cell> -> string,
    describeText: seq<Column> -> string,
    invoke: string -> string)

  const Greetings: seq<string> :=
    ["hi", "hello", "hey", "good morning", "good afternoon", "how are you", "what's up"]

  const GreetingReply: string := "Hello! How can I assist you with multi-omics? \U{1F60A}"

  const HistologicalKey: string := "histological type"
  const VitalKey: string := "vital status"
  const ReceptorKey: string := "receptor status"
  const GeneKey: string := "gene expression"

  /** The four dataset keywords in the order the dispatch tests them. */
  const Keywords: seq<string> := [HistologicalKey, VitalKey, ReceptorKey, GeneKey]

  /** `any(p in s for p in phrases)` */
  function AnyOccurs(phrases: seq<string>, s: string): (r: bool)
    ensures r <==> exists k :: 0 <= k < |phrases| && Contains(s, phrases[k])
  {
    if phrases == [] then false
    else
      assert forall k :: 1 <= k < |phrases| ==> phrases[k] == phrases[1..][k - 1];
      Contains(s, phrases[0]) || AnyOccurs(phrases[1..], s)
  }

  /** `is_greeting`: some greeting phrase occurs in the lower-cased query. */
  function IsGreeting(q: string): (r: bool)
    ensures r <==> exists k :: 0 <= k < |Greetings| && Contains(Lower(q), Greetings[k])
  {
    AnyOccurs(Greetings, Lower(q))
  }

  /** The ordered if/elif chain of `handle_query`, as the branch it takes. */
  function Classify(q: string): (i: Intent)
    ensures i == Greeting <==> IsGreeting(q)
    ensures i == HistologicalType ==> Contains(Lower(q), HistologicalKey)
    ensures i == VitalStatus ==> Contains(Lower(q), VitalKey)
    ensures i == ReceptorStatus ==> Contains(Lower(q), ReceptorKey)
    ensures i == GeneExpression ==> Contains(Lower(q), GeneKey)
  {
    var lq := Lower(q);
    if IsGreeting(q) then Greeting
    else if Contains(lq, HistologicalKey) then HistologicalType
    else if Contains(lq, VitalKey) then VitalStatus
    else if Contains(lq, ReceptorKey) then ReceptorStatus
    else if Contains(lq, GeneKey) then GeneExpression
    else General
  }

  /** The fixed text before the query in the model prompt, ending in the query marker. */
  const PromptHead: string := PromptIntro + QueryMarker

  /** The expert role and the context paragraph that open the prompt. */
  const PromptIntro: string :=
    "\nYou are an AI-driven multi-omics expert designed to answer questions about genomics, "
    + "transcriptomics, proteomics, metabolomics, and other omics levels. Your goal is to provide "
    + "accurate and concise responses based on your training data.\n"
    + "#### Context:\n"
    + "Multi-omics refers to the integration of multiple types of molecular information, such as "
    + "the genome, epigenome, transcriptome, and proteome, to gain a deeper understanding of "
    + "biological systems [[3]]. It enables the simultaneous analysis of multiple molecular "
    + "compartments at high resolution [[4]].\n"

  const QueryMarker: string := "#### Query:\n"

  /** The fixed text after the query, starting with the guidelines marker. */
  const PromptTail: string := GuidelinesMarker + PromptRules

  /** The response guidelines and the answer cue that close the prompt. */
  const PromptRules: string :=
    "- Provide clear explanations of multi-omics concepts.\n"
    + "- If the query relates to applications, mention examples such as disease subtyping, "
    + "biomarker discovery, or molecular mechanisms [[9]].\n"
    + "- Avoid fabricated or speculative information.\n"
    + "Answer:\n"

  const GuidelinesMarker: string := "\n#### Response Guidelines:\n"

  /** `get_prompt`: the query, verbatim, between the query line and the guidelines. */
  function GetPrompt(q: string): (p: string)
    ensures |p| == |PromptHead| + |q| + |PromptTail|
    ensures OccursAt(p, QueryMarker + q + GuidelinesMarker, |PromptIntro|)
  {
    OccursAcrossJoins(PromptIntro, QueryMarker, q, GuidelinesMarker, PromptRules);
    PromptHead + q + PromptTail
  }

  /** Recovers the query from a prompt, if the prompt has the template's shape. */
  function ExtractQuery(p: string): Option<string> {
    if |PromptHead| + |PromptTail| <= |p| && p[..|PromptHead|] == PromptHead
      && p[|p| - |PromptTail|..] == PromptTail
    then Some(p[|PromptHead|..|p| - |PromptTail|])
    else None
  }

  /** The lines around the query are the template's query and guidelines markers. */
  lemma PromptMarkers(q: string)
    ensures PromptHead[|PromptHead| - |QueryMarker|..] == QueryMarker
    ensures StartsWith(PromptTail, GuidelinesMarker)
    ensures Contains(GetPrompt(q), QueryMarker + q + GuidelinesMarker)
  {
    assert PromptHead[|PromptIntro|..] == QueryMarker;
    assert PromptTail[..|GuidelinesMarker|] == GuidelinesMarker;
    ContainsAt(GetPrompt(q), QueryMarker + q + GuidelinesMarker, |PromptIntro|);
  }

  /** The query can be read back out of the prompt unchanged. */
  lemma PromptRoundTrip(q: string)
    ensures ExtractQuery(GetPrompt(q)) == Some(q)
  {
  }

  /** Different queries give different prompts. */
  lemma PromptInjective(a: string, b: string)
    requires GetPrompt(a) == GetPrompt(b)
    ensures a == b
  {
    PromptRoundTrip(a);
    PromptRoundTrip(b);
  }

  /** The f-string `f"{header}{summary}"` around a dataset summary: the header
      comes first and the summary follows it unchanged, and an exception raised
      while computing the summary propagates as it is. */
  function Labelled(header: string, r: Result<string>): (l: Result<string>)
    ensures l.Ok? <==> r.Ok?
    ensures l.Ok? ==> StartsWith(l.value, header) && l.value[|header|..] == r.value
    ensures !r.Ok? ==> l == r
  {
    match r
    case Ok(text) => assert (header + text)[..|header|] == header; Ok(header + text)
    case KeyError(c) => KeyError(c)
    case ValueError(m) => ValueError(m)
  }

  /** `df[name].value_counts()` rendered by `show`: the rendering of the named
      column's cells, or `KeyError(name)` when the dataset lacks the column. */
  function CountsOf(cols: seq<Column>, name: string, show: seq<Cell> -> string): (r: Result<string>)
    ensures r.Ok? <==> name in Names(cols)
    ensures r.Ok? ==> r.value == show(CellsOf(cols, name))
    ensures !r.Ok? ==> r == KeyError(name)
  {
    match Lookup(cols, name)
    case Ok(cells) => Ok(show(cells))
    case KeyError(c) => KeyError(c)
    case ValueError(m) => ValueError(m)
  }

  /** One `'key': value` item of a dict's `repr`, the value shown by `show`. */
  function EntryText(e: (string, seq<Cell>), show: seq<Cell> -> string): string {
    "'" + e.0 + "': " + show(e.1)
  }

  /** The items of a dict's `repr`, separated by ", ". */
  function DictEntries(entries: seq<(string, seq<Cell>)>, show: seq<Cell> -> string): (r: string)
    ensures forall k :: 0 <= k < |entries| ==> Contains(r, EntryText(entries[k], show))
  {
    if entries == [] then ""
    else
      var rest := if |entries| == 1 then "" else ", " + DictEntries(entries[1..], show);
      assert forall k :: 1 <= k < |entries| ==> Contains(rest, EntryText(entries[k], show)) by {
        forall k | 1 <= k < |entries|
          ensures Contains(rest, EntryText(entries[k], show))
        {
          assert entries[k] == entries[1..][k - 1];
          ContainsInMiddle(", ", DictEntries(entries[1..], show), "", EntryText(entries[k], show));
          assert ", " + DictEntries(entries[1..], show) + "" == rest;
        }
      }
      assert forall k :: 0 <= k < |entries| ==> Contains(EntryText(entries[0], show) + rest, EntryText(entries[k], show)) by {
        forall k | 0 <= k < |entries|
          ensures Contains(EntryText(entries[0], show) + rest, EntryText(entries[k], show))
        {
          if k == 0 {
            assert StartsWith(EntryText(entries[0], show) + rest, EntryText(entries[0], show));
          } else {
            ContainsInMiddle(EntryText(entries[0], show), rest, "", EntryText(entries[k], show));
            assert EntryText(entries[0], show) + rest + "" == EntryText(entries[0], show) + rest;
          }
        }
      }
      EntryText(entries[0], show) + rest
  }

  /** Python's `repr` of a dict with string keys: braces around the items, and
      every entry's `'key': value` item inside. Python writes a key holding `'`
      in double quotes and escapes backslashes; this rendering is exact only for
      keys without those characters, as the three receptor keys are. */
  function DictRepr(entries: seq<(string, seq<Cell>)>, show: seq<Cell> -> string): (r: string)
    ensures |r| >= 2 && r[0] == '{' && r[|r| - 1] == '}'
    ensures entries == [] ==> r == "{}"
    ensures forall k :: 0 <= k < |entries| ==> Contains(r, EntryText(entries[k], show))
  {
    var inner := DictEntries(entries, show);
    assert forall k :: 0 <= k < |entries| ==> Contains("{" + inner + "}", EntryText(entries[k], show)) by {
      forall k | 0 <= k < |entries|
        ensures Contains("{" + inner + "}", EntryText(entries[k], show))
      {
        ContainsInMiddle("{", inner, "}", EntryText(entries[k], show));
      }
    }
    "{" + inner + "}"
  }

  /** The text of the receptor-status dict; a failure names a column the
      dataset lacks. */
  function ReceptorText(cols: seq<Column>, show: seq<Cell> -> string): (r: Result<string>)
    ensures r.Ok? <==> ReceptorSummary(cols).Ok?
    ensures r.KeyError? ==> r.column !in Names(cols)
    ensures !r.ValueError?
    ensures r.Ok? ==> forall k :: 0 <= k < 3 ==> Contains(r.value, EntryText(ReceptorSummary(cols).value[k], show))
  {
    match ReceptorSummary(cols)
    case Ok(entries) => Ok(DictRepr(entries, show))
    case KeyError(c) => KeyError(c)
    case ValueError(m) => ValueError(m)
  }

  /** The message of the `ValueError` pandas raises for `describe()` of a
      frame without columns. */
  const NoColumnsMessage: string := "Cannot describe a DataFrame without columns"

  /** `handle_query`: the reply for a query against the dataset `cols`, or the
      exception it raises. */
  function HandleQuery(q: string, cols: seq<Column>, svc: Services): (r: Result<string>)
    ensures r.KeyError? ==> r.column !in Names(cols)
    ensures r.ValueError? ==> Classify(q) == GeneExpression && r.message == NoColumnsMessage
    ensures r.Ok? && Classify(q) != General ==> r.value != ""
  {
    match Classify(q)
    case Greeting => Ok(GreetingReply)
    case HistologicalType =>
      Labelled("Histological types in the dataset:\n", CountsOf(cols, "histological.type", svc.countsText))
    case VitalStatus =>
      Labelled("Vital status distribution:\n", CountsOf(cols, "vital.status", svc.countsText))
    case ReceptorStatus =>
      Labelled("Receptor status distribution:\n", ReceptorText(cols, svc.countsRepr))
    case GeneExpression =>
      var genes := GeneFrame(cols);
      if genes == [] then ValueError(NoColumnsMessage)
      else Ok("Summary statistics for key genes:\n" + svc.describeText(genes))
    case General => Ok(svc.invoke(GetPrompt(q)))
  }

  // ---------------------------------------------------------------------------
  // Greeting detection

  /** A greeting phrase is recognised whatever the case of the query. */
  lemma GreetingCaseInsensitive(q: string)
    ensures IsGreeting(q) == IsGreeting(Lower(q))
  {
    LowerIdempotent(q);
  }

  /** A greeting phrase counts even inside another word: "this" holds "hi". */
  lemma GreetingInsideWord(q: string, i: int)
    requires OccursAt(Lower(q), "this", i)
    ensures IsGreeting(q)
  {
    var s := Lower(q);
    assert s[i..i + 4] == "this";
    assert s[i + 1] == 'h' by { assert s[i..i + 4][1] == 'h'; }
    assert s[i + 2] == 'i' by { assert s[i..i + 4][2] == 'i'; }
    assert s[i + 1..i + 3] == Greetings[0];
    ContainsAt(s, Greetings[0], i + 1);
  }

  /** Whenever a greeting phrase occurs, the reply is the fixed greeting,
      whatever the dataset and the services. */
  lemma GreetingReplyFixed(q: string, cols: seq<Column>, svc: Services)
    requires IsGreeting(q)
    ensures HandleQuery(q, cols, svc) == Ok(GreetingReply)
  {
  }

  // ---------------------------------------------------------------------------
  // Ordered dispatch

  /** "histological type" begins with the greeting "hi", so any query holding
      it is a greeting. */
  lemma HistologicalKeyIsGreeting(q: string)
    requires Contains(Lower(q), HistologicalKey)
    ensures IsGreeting(q)
  {
    assert StartsWith(HistologicalKey, Greetings[0]);
    ContainsTransitive(Lower(q), HistologicalKey, Greetings[0]);
  }

  /** The histological-type branch is never taken. */
  lemma HistologicalTypeUnreachable(q: string)
    ensures Classify(q) != HistologicalType
  {
    if Contains(Lower(q), HistologicalKey) {
      HistologicalKeyIsGreeting(q);
    }
  }

  /** A query asking for both the histological type and the vital status is
      answered with the greeting. */
  lemma MixedQueryGreets(q: string, cols: seq<Column>, svc: Services)
    requires Contains(Lower(q), HistologicalKey) && Contains(Lower(q), VitalKey)
    ensures Classify(q) == Greeting
    ensures HandleQuery(q, cols, svc) == Ok(GreetingReply)
  {
    HistologicalKeyIsGreeting(q);
  }

  /** Vital status wins among the reachable keywords whenever no greeting occurs. */
  lemma VitalStatusChosen(q: string)
    ensures Classify(q) == VitalStatus <==> !IsGreeting(q) && Contains(Lower(q), VitalKey)
  {
    HistologicalTypeUnreachable(q);
    if Contains(Lower(q), HistologicalKey) {
      HistologicalKeyIsGreeting(q);
    }
  }

  /** Receptor status is chosen exactly when there is no greeting and no vital status. */
  lemma ReceptorStatusChosen(q: string)
    ensures Classify(q) == ReceptorStatus <==>
      !IsGreeting(q) && !Contains(Lower(q), VitalKey) && Contains(Lower(q), ReceptorKey)
  {
    if Contains(Lower(q), HistologicalKey) {
      HistologicalKeyIsGreeting(q);
    }
  }

  /** Gene expression is chosen exactly when nothing earlier in the chain matches. */
  lemma GeneExpressionChosen(q: string)
    ensures Classify(q) == GeneExpression <==>
      !IsGreeting(q) && !Contains(Lower(q), VitalKey) && !Contains(Lower(q), ReceptorKey)
      && Contains(Lower(q), GeneKey)
  {
    if Contains(Lower(q), HistologicalKey) {
      HistologicalKeyIsGreeting(q);
    }
  }

  /** The fallback is taken exactly when no greeting phrase and none of the four
      keywords occurs in the lower-cased query. */
  lemma GeneralChosen(q: string)
    ensures Classify(q) == General <==> !AnyOccurs(Greetings + Keywords, Lower(q))
  {
    var all := Greetings + Keywords;
    assert forall k :: 0 <= k < |Greetings| ==> all[k] == Greetings[k];
    assert all[|Greetings|] == HistologicalKey;
    assert all[|Greetings| + 1] == VitalKey;
    assert all[|Greetings| + 2] == ReceptorKey;
    assert all[|Greetings| + 3] == GeneKey;
    assert forall k :: 0 <= k < |all| ==> all[k] in Greetings || all[k] in Keywords;
  }

  // ---------------------------------------------------------------------------
  // What each branch is given

  /** The model is asked with the prompt built from the verbatim query, and
      its answer is the reply. */
  lemma FallbackAsksModel(q: string, cols: seq<Column>, svc: Services)
    requires Classify(q) == General
    ensures HandleQuery(q, cols, svc) == Ok(svc.invoke(GetPrompt(q)))
    ensures ExtractQuery(GetPrompt(q)) == Some(q)
  {
  }

  /** The model is consulted only on the fallback: on every other branch the
      reply does not depend on it. */
  lemma ModelOnlyOnFallback(q: string, cols: seq<Column>, svc: Services, other: string -> string)
    requires Classify(q) != General
    ensures HandleQuery(q, cols, svc) == HandleQuery(q, cols, svc.(invoke := other))
  {
  }

  /** The dataset is consulted only on the dataset branches: greetings and the
      fallback reply the same for every dataset. */
  lemma DatasetOnlyOnKeywords(q: string, a: seq<Column>, b: seq<Column>, svc: Services)
    requires Classify(q) == Greeting || Classify(q) == General
    ensures HandleQuery(q, a, svc) == HandleQuery(q, b, svc)
  {
  }

  /** The gene-expression summary is computed over exactly the `rs_` columns;
      with none of them `describe()` raises instead. */
  lemma GeneSummaryUsesGeneColumns(q: string, cols: seq<Column>, svc: Services)
    requires Classify(q) == GeneExpression
    ensures GeneColumns(Names(cols)) != [] ==>
      HandleQuery(q, cols, svc) == Ok("Summary statistics for key genes:\n" + svc.describeText(GeneFrame(cols)))
    ensures GeneColumns(Names(cols)) == [] ==> HandleQuery(q, cols, svc) == ValueError(NoColumnsMessage)
    ensures Names(GeneFrame(cols)) == GeneColumns(Names(cols))
  {
  }

  /** On the gene-expression branch the reply fails exactly when no column name
      of the dataset starts with `rs_`. */
  lemma GeneSummaryFails(q: string, cols: seq<Column>, svc: Services)
    requires Classify(q) == GeneExpression
    ensures HandleQuery(q, cols, svc).ValueError? <==>
      forall i :: 0 <= i < |cols| ==> !StartsWith(cols[i].name, GenePrefix)
    ensures !HandleQuery(q, cols, svc).KeyError?
  {
    NoGeneColumns(cols);
  }

  /** A lookup failure comes only from the vital-status or receptor-status
      branch, and names a column the dataset lacks. */
  lemma KeyErrorOnlyFromDataset(q: string, cols: seq<Column>, svc: Services)
    requires HandleQuery(q, cols, svc).KeyError?
    ensures Classify(q) == VitalStatus || Classify(q) == ReceptorStatus
    ensures HandleQuery(q, cols, svc).column !in Names(cols)
    ensures Classify(q) == VitalStatus ==> HandleQuery(q, cols, svc).column == "vital.status"
  {
    HistologicalTypeUnreachable(q);
  }

  /** On the vital-status branch the reply fails exactly when the dataset lacks
      `vital.status`, and then names it. */
  lemma VitalStatusFails(q: string, cols: seq<Column>, svc: Services)
    requires Classify(q) == VitalStatus
    ensures HandleQuery(q, cols, svc).KeyError? <==> "vital.status" !in Names(cols)
    ensures "vital.status" !in Names(cols) ==> HandleQuery(q, cols, svc) == KeyError("vital.status")
  {
  }

  /** On the receptor branch the reply fails exactly when one of the three
      receptor columns is absent, and names the first absent one in the order
      ER, PR, HER2. */
  lemma ReceptorStatusReplyFails(q: string, cols: seq<Column>, svc: Services)
    requires Classify(q) == ReceptorStatus
    ensures HandleQuery(q, cols, svc).KeyError? <==>
      "ER.Status" !in Names(cols) || "PR.Status" !in Names(cols) || "HER2.Final.Status" !in Names(cols)
    ensures "ER.Status" !in Names(cols) ==> HandleQuery(q, cols, svc) == KeyError("ER.Status")
    ensures "ER.Status" in Names(cols) && "PR.Status" !in Names(cols) ==>
      HandleQuery(q, cols, svc) == KeyError("PR.Status")
    ensures "ER.Status" in Names(cols) && "PR.Status" in Names(cols) && "HER2.Final.Status" !in Names(cols) ==>
      HandleQuery(q, cols, svc) == KeyError("HER2.Final.Status")
  {
    ReceptorSummaryFails(cols);
    if "ER.Status" !in Names(cols) {
      ReceptorSummaryMissingER(cols);
    } else if "PR.Status" !in Names(cols) {
      ReceptorSummaryMissingPR(cols);
    } else if "HER2.Final.Status" !in Names(cols) {
      ReceptorSummaryMissingHER2(cols);
    }
  }

  /** When all three receptor columns exist, the receptor reply is the fixed
      header and the `repr` of the dict from ER, PR and HER2 Status to the
      counts of `ER.Status`, `PR.Status` and `HER2.Final.Status`. */
  lemma ReceptorStatusReply(q: string, cols: seq<Column>, svc: Services)
    requires Classify(q) == ReceptorStatus
    requires "ER.Status" in Names(cols) && "PR.Status" in Names(cols) && "HER2.Final.Status" in Names(cols)
    ensures HandleQuery(q, cols, svc) == Ok("Receptor status distribution:\n" + DictRepr(
      [("ER Status", CellsOf(cols, "ER.Status")),
       ("PR Status", CellsOf(cols, "PR.Status")),
       ("HER2 Status", CellsOf(cols, "HER2.Final.Status"))], svc.countsRepr))
  {
    ReceptorTextOk(cols, svc.countsRepr);
  }

  /** With all three receptor columns present the receptor text is the `repr`
      of the dict over their cells. */
  lemma ReceptorTextOk(cols: seq<Column>, show: seq<Cell> -> string)
    requires "ER.Status" in Names(cols) && "PR.Status" in Names(cols) && "HER2.Final.Status" in Names(cols)
    ensures ReceptorText(cols, show) == Ok(DictRepr(
      [("ER Status", CellsOf(cols, "ER.Status")),
       ("PR Status", CellsOf(cols, "PR.Status")),
       ("HER2 Status", CellsOf(cols, "HER2.Final.Status"))], show))
  {
    ReceptorSummaryFails(cols);
    ReceptorSummaryKeys(cols);
    var r := ReceptorSummary(cols).value;
    assert r == [r[0], r[1], r[2]];
  }

  /** Every branch except the fallback replies with a non-empty text. */
  lemma OnlyModelRepliesEmpty(q: string, cols: seq<Column>, svc: Services)
    requires HandleQuery(q, cols, svc) == Ok("")
    ensures Classify(q) == General
  {
  }
}
