# Query router of the multi-omics chat dashboard

A Dafny model of the query-handling core of `OmicAgent.py`, a Streamlit dashboard
over a breast-cancer multi-omics CSV. The dashboard answers a chat query in one of
six ways, tested in a fixed order: a canned greeting; a histological-type count; a
vital-status count; a receptor-status summary; a gene-expression summary; or a call
to a local language model. The reply is then optionally translated, and the
(query, reply) pair is appended to the session's chat history.

Modules:

- `Text` (`text.dfy`): ASCII lower-casing (`str.lower`), `str.startswith` and
  substring containment (`in`), with a recursive search proved equal to "occurs at
  some index". Containment is also proved transitive.
- `Frames` (`frames.dfy`): the dataset as a sequence of named columns of cells.
  - `df['name']` looks up the first column of that name and fails with `KeyError`
    naming the column when it is absent.
  - `value_counts()` is modelled as the multiset of the non-missing labels.
    Its rendered text is computed from the column itself, so that text can
    depend on row order as pandas' does.
  - The `rs_` gene-column filter, and `df[gene_columns]`.
  - The receptor-status dict (`ReceptorSummary`), built entry by entry over
    `ER.Status`, `PR.Status` and `HER2.Final.Status`.
- `Router` (`router.dfy`):
  - the seven greeting phrases and the fixed greeting reply;
  - the `Intent` datatype and `Classify`, the if/elif chain as the branch taken;
  - the prompt template `GetPrompt` with its inverse `ExtractQuery`;
  - `HandleQuery`, which gives the reply, or the exception the branch raises: a
    `KeyError` naming a missing column, or the `ValueError` of `describe()` on a
    dataset without `rs_` columns.
  The pandas text renderings and the model call are fields of a `Services` record
  of functions, so every result holds for every rendering and every model.
- `Chat` (`chat.dfy`):
  - the language gate (Telugu to `te`, Tamil to `ta`, anything else untranslated);
  - `Exchange`, the entries one submission adds;
  - `Replay`, the history after a run of submissions;
  - these two take the router as a `Route` (a function from query to reply), so
    the history laws hold for any router; `Routing` is `handle_query` itself,
    and `Submit` and `TwoTurns` use it;
  - class `ChatSession`, whose `history: seq<Turn>` field is appended in place by
    `Submit`.

The central fact: the greeting list contains `"hi"`, and the dispatch tests for
greetings first. `"histological type"` begins with `"hi"`, so the histological-type
branch can never be taken (`Router.HistologicalTypeUnreachable`). This holds for any
lower-casing function, because both tests look at the same lowered string. As a
consequence:

- a query holding both "histological type" and "vital status" gets the greeting,
  not the histological summary (`Router.MixedQueryGreets`);
- the priority lemmas for the other keywords need no histological condition.

Assumptions:

- Lower-casing is ASCII only.
- A query Streamlit reports as absent (`None`) is the empty string.
- An empty CSV field is a `Missing` cell, which `value_counts` drops.
- Column names are distinct: `pd.read_csv` (OmicAgent.py:34) renames a repeated
  header (`X`, `X.1`, ...). Where names repeat anyway, the model takes the first
  column of a name.

## Model

| member | source | states |
|---|---|---|
| `Text.Lower` | OmicAgent.py:114 | lower-casing keeps the length, leaves no upper-case ASCII letter, maps each upper-case letter to its lower-case form and keeps every other character |
| `Text.StartsWith` | OmicAgent.py:136 | `s.startswith(p)` holds exactly when `p` occurs in `s` at index 0 |
| `Text.StartsWithChars` | OmicAgent.py:136 | `s.startswith(p)` holds exactly when `p` fits in `s` and agrees with it character by character |
| `Text.Contains` | OmicAgent.py:114 | `sub in s` holds for an empty `sub` and for every `s` that starts with `sub`, and only when `sub` fits in `s` |
| `Text.ContainsIff` | OmicAgent.py:114 | the substring test `sub in s` holds exactly when `sub` occurs in `s` at some index |
| `Text.ContainsTransitive` | OmicAgent.py:113-124 | a string containing `m` contains every substring of `m` |
| `Router.AnyOccurs` | OmicAgent.py:114 | `any(p in s for p in phrases)` holds exactly when one of the phrases occurs in `s` |
| `Router.IsGreeting` | OmicAgent.py:112-114 | a query is a greeting exactly when one of the seven phrases occurs in its lower-cased form |
| `Router.Classify` | OmicAgent.py:117-138 | the chosen branch is the greeting exactly when a greeting phrase occurs, and each keyword branch is chosen only when its keyword occurs in the lower-cased query |
| `Router.HandleQuery` | OmicAgent.py:117-143 | a `KeyError` names a column the dataset lacks, a `ValueError` arises only on the gene-expression branch with the message of `describe()` on a frame without columns, and every reply that does not come from the model is a non-empty text |
| `Router.GreetingCaseInsensitive` | OmicAgent.py:112-114 | greeting detection gives the same answer for a query and its lower-cased form |
| `Router.GreetingInsideWord` | OmicAgent.py:113-114 | a query whose lower-cased form holds the word "this" is a greeting, since phrases may occur inside words |
| `Router.GreetingReplyFixed` | OmicAgent.py:108-119 | for a greeting the reply is exactly the fixed greeting text, for every dataset and every service |
| `Router.HistologicalKeyIsGreeting` | OmicAgent.py:113-122 | every query whose lower-cased form contains "histological type" is a greeting |
| `Router.HistologicalTypeUnreachable` | OmicAgent.py:117-124 | no query is classified into the histological-type branch |
| `Router.MixedQueryGreets` | OmicAgent.py:117-127 | a query holding both "histological type" and "vital status" is classified as a greeting and gets the greeting reply |
| `Router.VitalStatusChosen` | OmicAgent.py:117-127 | the vital-status branch is taken exactly when there is no greeting and "vital status" occurs |
| `Router.ReceptorStatusChosen` | OmicAgent.py:117-134 | the receptor branch is taken exactly when there is no greeting, no "vital status" and "receptor status" occurs |
| `Router.GeneExpressionChosen` | OmicAgent.py:117-138 | the gene branch is taken exactly when there is no greeting, no vital or receptor keyword, and "gene expression" occurs |
| `Router.GeneralChosen` | OmicAgent.py:112-143 | the model fallback is taken exactly when none of the seven greetings and none of the four keywords occurs in the lower-cased query |
| `Router.GetPrompt` | OmicAgent.py:93-105 | the query occurs verbatim right after the `#### Query:` line and right before the `#### Response Guidelines:` line, and the prompt is the query plus a fixed amount of text |
| `Router.PromptMarkers` | OmicAgent.py:93-105 | the head ends with the `#### Query:` line, the tail starts with the `#### Response Guidelines:` line, and the prompt contains query marker, query and guidelines marker in a row |
| `Router.PromptRoundTrip` | OmicAgent.py:93-105 | the query is read back out of its prompt unchanged |
| `Router.PromptInjective` | OmicAgent.py:93-105 | two queries with the same prompt are equal |
| `Router.FallbackAsksModel` | OmicAgent.py:139-143 | on the fallback the reply is the model's answer to the prompt built from the verbatim query |
| `Router.ModelOnlyOnFallback` | OmicAgent.py:117-143 | on every branch other than the fallback the reply is the same whatever the model does |
| `Router.DatasetOnlyOnKeywords` | OmicAgent.py:117-143 | greetings and the fallback reply the same for every dataset |
| `Router.GeneSummaryUsesGeneColumns` | OmicAgent.py:135-138 | when the `rs_` filter selects some column, the gene reply is the fixed header plus the summary of exactly the selected columns; when it selects none, `describe()` raises `ValueError` |
| `Router.GeneSummaryFails` | OmicAgent.py:135-138 | on the gene-expression branch the reply fails exactly when no column name of the dataset starts with `rs_`, and never with a `KeyError` |
| `Router.KeyErrorOnlyFromDataset` | OmicAgent.py:122-134 | a lookup failure arises only on the vital-status or receptor-status branch, and names a column the dataset lacks (`vital.status` on the vital branch) |
| `Router.VitalStatusFails` | OmicAgent.py:125-127 | on the vital-status branch the reply fails exactly when the dataset lacks `vital.status`, and the failure names it |
| `Router.ReceptorStatusReplyFails` | OmicAgent.py:128-134 | on the receptor branch the reply fails exactly when one of the three receptor columns is absent, naming the first absent one in the order ER, PR, HER2 |
| `Router.ReceptorStatusReply` | OmicAgent.py:128-134 | with all three columns present the receptor reply is the fixed header and the `repr` of the dict from ER, PR and HER2 Status to their columns' counts |
| `Router.ReceptorTextOk` | OmicAgent.py:129-134 | with all three receptor columns present the receptor text is the `repr` of the dict from ER, PR and HER2 Status to those columns' cells |
| `Router.ReceptorText` | OmicAgent.py:129-134 | the receptor text exists exactly when the receptor dict can be built, contains each of its three items, and a failure names a column the dataset lacks |
| `Router.DictRepr` | OmicAgent.py:134 | the `repr` of a dict is enclosed in braces, is `{}` for no entries, and contains the `'key': value` item of every entry |
| `Router.Labelled` | OmicAgent.py:122-134 | a labelled reply succeeds exactly when its summary does, starts with the header and continues with the summary unchanged; a raised exception passes through as it is |
| `Router.CountsOf` | OmicAgent.py:122-127 | the rendered counts exist exactly when the named column does, are the rendering of that column's cells, and otherwise the lookup raises `KeyError` naming the column |
| `Router.OnlyModelRepliesEmpty` | OmicAgent.py:117-143 | an empty reply can come only from the model fallback |
| `Frames.Names` | OmicAgent.py:136 | `df.columns` has one name per column, in column order |
| `Frames.Lookup` | OmicAgent.py:125-127 | `df[name]` succeeds exactly when a column of that name exists, then yields the cells of the first column of that name, and otherwise raises `KeyError(name)` |
| `Frames.ValueCounts` | OmicAgent.py:129-133 | each label is counted as often as a cell holds it, and the counts plus the missing cells add up to the column length |
| `Frames.CountsCoverAllRows` | OmicAgent.py:129-133 | the counts of a column without missing cells add up to its number of rows |
| `Frames.GeneColumns` | OmicAgent.py:136 | the selection holds each name with the `rs_` prefix as often as the columns do, and no other name |
| `Frames.GeneColumnsAppend` | OmicAgent.py:136 | the selection distributes over concatenation, so relative order is kept |
| `Frames.GeneColumnsKeepsGenes` | OmicAgent.py:136 | a list of names that all carry the prefix is selected unchanged |
| `Frames.GeneFrame` | OmicAgent.py:136-137 | the names of the selected columns are exactly the `rs_` selection, in order, and the selection holds each dataset column with the prefix as often as the dataset does, and no other column |
| `Frames.NoGeneColumns` | OmicAgent.py:136 | the `rs_` selection is empty exactly when no column name starts with `rs_` |
| `Frames.Summarize` | OmicAgent.py:129-133 | a built dict has one entry per field, and a failure names a column the dataset lacks |
| `Frames.SummarizeOk` | OmicAgent.py:129-133 | a dict is built exactly when all its columns exist, with one entry per field carrying the field's key and that column |
| `Frames.SummarizeFails` | OmicAgent.py:129-133 | a failing dict build names the first absent column in field order |
| `Frames.ReceptorSummary` | OmicAgent.py:129-133 | the receptor dict has three entries, and a failure names one of `ER.Status`, `PR.Status`, `HER2.Final.Status` that the dataset lacks |
| `Frames.ReceptorSummaryKeys` | OmicAgent.py:129-133 | the receptor dict has exactly the keys ER Status, PR Status and HER2 Status, in that order, over `ER.Status`, `PR.Status` and `HER2.Final.Status` |
| `Frames.ReceptorSummaryFails` | OmicAgent.py:129-133 | the receptor dict fails exactly when one of the three columns is absent |
| `Frames.ReceptorSummaryMissingER` | OmicAgent.py:130 | without `ER.Status` the dict fails on `ER.Status` |
| `Frames.ReceptorSummaryMissingPR` | OmicAgent.py:130-131 | with `ER.Status` but without `PR.Status` the dict fails on `PR.Status` |
| `Frames.ReceptorSummaryMissingHER2` | OmicAgent.py:130-132 | with the ER and PR columns but without `HER2.Final.Status` the dict fails on `HER2.Final.Status` |
| `Frames.ReceptorCountsSumToRows` | OmicAgent.py:129-133 | on a rectangular dataset without missing receptor cells each of the three count tables adds up to the row count |
| `Chat.TargetCode` | OmicAgent.py:185-188 | Telugu selects `te`, Tamil selects `ta`, and every other language selects no translation |
| `Chat.Localized` | OmicAgent.py:185-188 | the shown reply is the `te` translation in Telugu, the `ta` translation in Tamil, and the reply itself in every other language |
| `Chat.Localize` | OmicAgent.py:184-188 | the step-by-step reassignment of the reply yields the reply in the chosen language |
| `Chat.EnglishUntranslated` | OmicAgent.py:185-188 | in English the shown reply is the router's reply, whatever the translator does |
| `Chat.Exchange` | OmicAgent.py:181-191 | one submission adds at most one entry, and an added entry carries the submitted, non-empty query |
| `Chat.ExchangeShape` | OmicAgent.py:181-191 | one submission adds at most one entry; it adds one exactly when the query is non-empty and the reply is a non-empty text; the entry pairs the query with the translated reply |
| `Chat.ExchangeEnglish` | OmicAgent.py:181-191 | in English an answered query is recorded with the untranslated router reply, and anything else records nothing |
| `Chat.FailureNotRecorded` | OmicAgent.py:181-191 | a query whose branch raises `KeyError` or `ValueError` adds no entry to the history |
| `Chat.GreetingRecorded` | OmicAgent.py:181-191 | a greeting in English is recorded as the query paired with the fixed greeting reply |
| `Chat.Replay` | OmicAgent.py:159-191 | across submissions the history grows by at most one entry per submission, and every added entry has a non-empty query |
| `Chat.ReplayExtends` | OmicAgent.py:159-191 | across submissions the old history stays a prefix, and the history grows by at most one entry per submission |
| `Chat.ReplayAppend` | OmicAgent.py:159-191 | replaying two runs in turn equals replaying their concatenation |
| `Chat.ReplayInOrder` | OmicAgent.py:159-191 | after N answered submissions from an empty history there are N entries, in submission order, each the query with its reply |
| `Chat.ChatSession.constructor` | OmicAgent.py:159-160 | a new session starts with an empty history |
| `Chat.ChatSession.Append` | OmicAgent.py:191 | appending adds the turn at the end and keeps every earlier entry |
| `Chat.ChatSession.Submit` | OmicAgent.py:181-191 | the new history is the old one plus the submission's exchange; an empty query is not routed; otherwise the router's result is returned |
| `Chat.TwoTurns` | OmicAgent.py:158-191 | two submissions in one session leave exactly the history their replay describes |

## Left out

- Streamlit page layout, sidebar widgets, the analytics panels behind the checkboxes, and chat rendering: user interface only.
- Loading the CSV and stopping when the file is missing: file I/O before any query is handled.
- The text pandas prints for `value_counts()`, the `repr` of each count dict, and `describe()` of the gene columns: these are the `countsText`, `countsRepr` and `describeText` fields of `Router.Services`, left as arbitrary functions. `describe` computes in floating point. The `ValueError` of `describe()` on a frame without columns is modelled; no other failure of `describe` is.
- `Frames.ValueCounts`: it gives the counts as a multiset, without the key order pandas uses (count-descending, with ties depending on the rows). The rendered texts (`countsText`, `countsRepr`) are functions of the column's cells, so they may still depend on that order.
- The Ollama model call is the `invoke` field of `Router.Services`: a network call, left as an arbitrary function of the prompt.
- The Google translation call is the `translate` parameter of `Chat`: an external service. Only the choice of whether, and into which code, to translate is modelled.
- Router.FallbackAsksModel: `invoke` is total, so this does not model the exception the model call raises when the server is unreachable, which aborts the request with no reply.
- Chat.ExchangeShape: the model call and the translation call are total here, so this does not cover the run where either raises: the request then aborts before the append and records nothing, even for a non-empty query. The router's own `KeyError` and `ValueError` are covered: they record nothing (`Chat.FailureNotRecorded`).
- Chat.ChatSession.Submit: the same holds for the session update. A failing model or translation call leaves the history unchanged in the source, while the model records the call's result. A `KeyError` or `ValueError` from the router leaves the history unchanged in both and is returned as the result.
- Audio recording, the `audio_query.wav` file, speech recognition and its catch-all error: device and file I/O plus an external service. When transcription fails the query stays empty, and the model covers that case.
- Unicode lower-casing beyond ASCII letters: an assumption. The unreachability of the histological branch does not depend on it.
