/** One session of the chat: a submitted query is routed, the reply is
    translated into the chosen language, and the pair is appended to the
    session's history, which only ever grows at its end. */
module Chat {
  import opened Frames
  import opened Router

  /** A history entry: the query and the reply shown for it. */
  type Turn = (string, string)

  /** A translation service: text and target-language code to translated text. */
  type Translator = (string, string) -> string

  /** The language code a reply is translated into, if any ("English" needs none). */
  function TargetCode(language: string): (r: Option<string>)
    ensures r.Some? <==> language == "Telugu" || language == "Tamil"
    ensures language == "Telugu" ==> r == Some("te")
    ensures language == "Tamil" ==> r == Some("ta")
  {
    if language == "Telugu" then Some("te")
    else if language == "Tamil" then Some("ta")
    else None
  }

  /** The reply as shown in `language`. */
  function Localized(response: string, language: string, translate: Translator): (r: string)
    ensures language == "Telugu" ==> r == translate(response, "te")
    ensures language == "Tamil" ==> r == translate(response, "ta")
    ensures language != "Telugu" && language != "Tamil" ==> r == response
  {
    match TargetCode(language)
    case Some(code) => translate(response, code)
    case None => response
  }

  /** The translation gate reassigning `response` in place. */
  method Localize(response: string, language: string, translate: Translator) returns (shown: string)
    ensures shown == Localized(response, language, translate)
  {
    shown := response;
    if language == "Telugu" {
      shown := translate(shown, "te");
    } else if language == "Tamil" {
      shown := translate(shown, "ta");
    }
  }

  /** In English the reply is shown untranslated, whatever the translator does. */
  lemma EnglishUntranslated(response: string, translate: Translator)
    ensures Localized(response, "English", translate) == response
  {
  }

  /** What the session asks for a reply to a query: `handle_query` against a
      fixed dataset and fixed services, or any other routing the laws below
      are stated for. */
  type Route = string -> Result<string>

  /** `handle_query` on the dataset `cols` with the services `svc`. */
  function Routing(cols: seq<Column>, svc: Services): (route: Route)
    ensures forall q :: route(q) == HandleQuery(q, cols, svc)
  {
    q => HandleQuery(q, cols, svc)
  }

  /** The entries one submission adds to the history: none for an empty query,
      a raised `KeyError` or `ValueError`, or an empty reply, otherwise the
      query with its (translated) reply. */
  function Exchange(query: string, route: Route, language: string, translate: Translator): (r: seq<Turn>)
    ensures |r| <= 1
    ensures r != [] ==> r[0].0 == query && query != ""
  {
    if query == "" then []
    else
      match route(query)
      case KeyError(_) => []
      case ValueError(_) => []
      case Ok(response) =>
        if response == "" then [] else [(query, Localized(response, language, translate))]
  }

  /** A submission adds at most one entry; it adds one exactly when the query is
      non-empty and the router replies with a non-empty text, and that entry
      pairs the query with the reply in the chosen language. */
  lemma ExchangeShape(query: string, route: Route, language: string, translate: Translator)
    ensures |Exchange(query, route, language, translate)| <= 1
    ensures |Exchange(query, route, language, translate)| == 1 <==>
      query != "" && route(query).Ok? && route(query).value != ""
    ensures |Exchange(query, route, language, translate)| == 1 ==>
      Exchange(query, route, language, translate)[0] == (query, Localized(route(query).value, language, translate))
  {
  }

  /** In English an answered query is recorded with the router's reply as it is. */
  lemma ExchangeEnglish(query: string, route: Route, translate: Translator)
    ensures Exchange(query, route, "English", translate) ==
      if query != "" && route(query).Ok? && route(query).value != ""
      then [(query, route(query).value)]
      else []
  {
  }

  /** A greeting in English is always recorded with the fixed greeting reply. */
  lemma GreetingRecorded(query: string, cols: seq<Column>, svc: Services, translate: Translator)
    requires IsGreeting(query)
    ensures Exchange(query, Routing(cols, svc), "English", translate) == [(query, GreetingReply)]
  {
    GreetingReplyFixed(query, cols, svc);
  }

  /** A query whose dataset branch raises is not recorded. */
  lemma FailureNotRecorded(query: string, cols: seq<Column>, svc: Services, language: string, translate: Translator)
    requires HandleQuery(query, cols, svc).KeyError? || HandleQuery(query, cols, svc).ValueError?
    ensures Exchange(query, Routing(cols, svc), language, translate) == []
  {
  }

  /** A submitted query and the language chosen for its reply. */
  datatype Submission = Submission(query: string, language: string)

  /** The history after a run of submissions, starting from `history`. */
  function Replay(history: seq<Turn>, subs: seq<Submission>, route: Route, translate: Translator): (r: seq<Turn>)
    ensures |history| <= |r| <= |history| + |subs|
    ensures forall i :: |history| <= i < |r| ==> r[i].0 != ""
    decreases |subs|
  {
    if subs == [] then history
    else
      var s := subs[|subs| - 1];
      Replay(history, subs[..|subs| - 1], route, translate) + Exchange(s.query, route, s.language, translate)
  }

  /** The history never loses or alters an entry: what was there before stays
      a prefix, and it grows by at most one entry per submission. */
  lemma {:induction false} ReplayExtends(history: seq<Turn>, subs: seq<Submission>, route: Route, translate: Translator)
    ensures var h := Replay(history, subs, route, translate);
      |history| <= |h| <= |history| + |subs| && h[..|history|] == history
  {
    if subs != [] {
      var s := subs[|subs| - 1];
      ReplayExtends(history, subs[..|subs| - 1], route, translate);
      ExchangeShape(s.query, route, s.language, translate);
    }
  }

  /** Replaying two runs one after the other is replaying their concatenation. */
  lemma {:induction false} ReplayAppend(history: seq<Turn>, a: seq<Submission>, b: seq<Submission>, route: Route, translate: Translator)
    ensures Replay(history, a + b, route, translate) == Replay(Replay(history, a, route, translate), b, route, translate)
    decreases |b|
  {
    if b == [] {
      assert a + b == a;
    } else {
      assert (a + b)[..|a + b| - 1] == a + b[..|b| - 1];
      ReplayAppend(history, a, b[..|b| - 1], route, translate);
    }
  }

  /** The submission is answered: the router replies with a non-empty text. */
  predicate Answered(s: Submission, route: Route) {
    s.query != "" && route(s.query).Ok? && route(s.query).value != ""
  }

  /** The entry an answered submission adds: its query with the reply shown
      in its language. */
  function Recorded(s: Submission, route: Route, translate: Translator): Turn
    requires Answered(s, route)
  {
    (s.query, Localized(route(s.query).value, s.language, translate))
  }

  /** After N answered submissions from an empty history the history has N
      entries, in submission order, each pairing a query with its reply. */
  lemma {:induction false} ReplayInOrder(subs: seq<Submission>, route: Route, translate: Translator)
    requires forall i :: 0 <= i < |subs| ==> Answered(subs[i], route)
    ensures |Replay([], subs, route, translate)| == |subs|
    ensures forall i :: 0 <= i < |subs| ==> Replay([], subs, route, translate)[i] == Recorded(subs[i], route, translate)
  {
    if subs != [] {
      var n := |subs| - 1;
      var init, s := subs[..n], subs[n];
      assert forall i :: 0 <= i < n ==> init[i] == subs[i];
      ReplayInOrder(init, route, translate);
      var h0 := Replay([], init, route, translate);
      var h := Replay([], subs, route, translate);
      assert h == h0 + [Recorded(s, route, translate)];
      forall i | 0 <= i < |subs|
        ensures h[i] == Recorded(subs[i], route, translate)
      {
        if i < n {
          assert h[i] == h0[i] == Recorded(init[i], route, translate);
        }
      }
    }
  }

  /** The session state: the chat history, initialised empty once per session. */
  class ChatSession {
    var history: seq<Turn>

    constructor ()
      ensures history == []
    {
      history := [];
    }

    /** `chat_history.append(turn)` */
    method Append(turn: Turn)
      modifies this
      ensures history == old(history) + [turn]
    {
      history := history + [turn];
    }

    /** Processes one submitted query: routes it, translates a non-empty reply
        and records it. A raised `KeyError` or `ValueError` records nothing. */
    method Submit(query: string, cols: seq<Column>, svc: Services, language: string, translate: Translator)
      returns (result: Option<Result<string>>)
      modifies this
      ensures history == old(history) + Exchange(query, Routing(cols, svc), language, translate)
      ensures result == if query == "" then None else Some(HandleQuery(query, cols, svc))
    {
      if query == "" {
        return None;
      }
      var response := HandleQuery(query, cols, svc);
      result := Some(response);
      if response.Ok? && response.value != "" {
        var shown := Localize(response.value, language, translate);
        Append((query, shown));
      }
    }
  }

  /** Two submissions in one session leave the history their replay describes. */
  method TwoTurns(a: Submission, b: Submission, cols: seq<Column>, svc: Services, translate: Translator)
    returns (history: seq<Turn>)
    ensures history == Replay([], [a, b], Routing(cols, svc), translate)
  {
    var session := new ChatSession();
    var _ := session.Submit(a.query, cols, svc, a.language, translate);
    var _ := session.Submit(b.query, cols, svc, b.language, translate);
    history := session.history;
    var route := Routing(cols, svc);
    assert [a, b][..1] == [a];
    assert [a][..0] == [];
    assert Replay([], [a], route, translate) == Exchange(a.query, route, a.language, translate);
    assert Replay([], [a, b], route, translate) ==
      Replay([], [a], route, translate) + Exchange(b.query, route, b.language, translate);
  }
}
