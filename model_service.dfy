/**
 * The request handling of the prediction server (SP_TEST_03.java): a POST
 * names a model and carries queries; the model is looked up by name, each
 * query is preprocessed, sent to the model's URL, and the predicted code is
 * translated into its class label.
 *
 * The model server is the parameter `server`: `server(i, url, text)` is
 * the answer to call number i of the request, sent to url with the
 * preprocessed text, and None where the Java method returns null (any
 * failure of the HTTP exchange). Numbering the calls lets the server answer
 * two calls with the same text differently. JSON decoding of the request and encoding of the response are
 * not modelled: the handler receives the model name and the queries, and
 * answers either the rejection or the list of labels.
 */
module ModelService {
  import opened Wrappers
  import opened JavaText
  import opened Lexicon

  /** A class a model can predict: its code and its label. */
  datatype ClassInfo = ClassInfo(code: string, value: string)

  /** A model as listed in the models file. */
  datatype ModelInfo = ModelInfo(modelname: string, url: string, classes: seq<ClassInfo>)

  /** What the handler writes back: status 400 with an error body, or the labels of the queries. */
  datatype Response = Rejected(status: int, body: string) | Answered(results: seq<string>)

  /** The body sent with status 400 when no model has the requested name. */
  const ModelNotFound := "{\"error\":\"Model not found\"}"

  /** The label given when no class of the model has the predicted code. */
  const Unknown := "unknown"

  /** The first model whose name equals the requested one. */
  function FindModel(models: seq<ModelInfo>, name: string): (r: Option<ModelInfo>)
    ensures r.Some? ==> r.value in models && r.value.modelname == name
  {
    match FirstIndex(models, (m: ModelInfo) => m.modelname == name)
    case Some(i) => Some(models[i])
    case None => None
  }

  /** The label of the first class whose code equals the predicted one; "unknown" when none does or there is no prediction. */
  function LabelFor(classes: seq<ClassInfo>, code: Option<string>): (r: string)
    ensures r == Unknown || exists i :: 0 <= i < |classes| && classes[i].value == r
  {
    match code
    case None => Unknown
    case Some(c) =>
      match FirstIndex(classes, (k: ClassInfo) => k.code == c)
      case Some(i) => classes[i].value
      case None => Unknown
  }

  /** A model is found exactly when one has the name, and it is the first such model. */
  lemma FindModelFirst(models: seq<ModelInfo>, name: string)
    ensures FindModel(models, name).None? <==> forall i :: 0 <= i < |models| ==> models[i].modelname != name
    ensures FindModel(models, name).Some? ==>
              exists i :: && 0 <= i < |models| && models[i] == FindModel(models, name).value
                          && models[i].modelname == name
                          && forall j :: 0 <= j < i ==> models[j].modelname != name
  {
    var r := FirstIndex(models, (m: ModelInfo) => m.modelname == name);
    if r.Some? {
      assert models[r.value] == FindModel(models, name).value;
    }
  }

  /**
   * The label is that of the first class with the predicted code; with no
   * prediction, or no class with that code, it is "unknown".
   */
  lemma LabelForFirst(classes: seq<ClassInfo>, code: Option<string>)
    ensures code.None? ==> LabelFor(classes, code) == Unknown
    ensures code.Some? && (forall i :: 0 <= i < |classes| ==> classes[i].code != code.value) ==>
              LabelFor(classes, code) == Unknown
    ensures code.Some? && (exists i :: 0 <= i < |classes| && classes[i].code == code.value) ==>
              exists i :: && 0 <= i < |classes| && classes[i].code == code.value
                          && LabelFor(classes, code) == classes[i].value
                          && forall j :: 0 <= j < i ==> classes[j].code != code.value
  {
    if code.Some? {
      var r := FirstIndex(classes, (k: ClassInfo) => k.code == code.value);
      if r.Some? {
        assert classes[r.value].code == code.value;
      }
    }
  }

  /**
   * The label for query number i of a request: preprocess it, send it to
   * the model's URL as call number i, translate the code answered.
   */
  function Answer(dict: map<string, string>, stop: set<string>, model: ModelInfo, query: string, i: nat,
                  lower: string -> string, server: (nat, string, string) -> Option<string>): string
  {
    LabelFor(model.classes, server(i, model.url, Processed(dict, stop, query, lower)))
  }

  /** The labels of all queries: one per query, in query order, each from its own call to the model server. */
  function Answers(dict: map<string, string>, stop: set<string>, model: ModelInfo, queries: seq<string>,
                   lower: string -> string, server: (nat, string, string) -> Option<string>): (r: seq<string>)
    ensures |r| == |queries|
    ensures forall i :: 0 <= i < |queries| ==> r[i] == Answer(dict, stop, model, queries[i], i, lower, server)
  {
    seq(|queries|, i requires 0 <= i < |queries| => Answer(dict, stop, model, queries[i], i, lower, server))
  }

  /** The requests sent to the model server: one per query, in order, to the model's URL with the preprocessed query. */
  function Requests(dict: map<string, string>, stop: set<string>, model: ModelInfo, queries: seq<string>,
                    lower: string -> string): (r: seq<(string, string)>)
    ensures |r| == |queries|
    ensures forall i :: 0 <= i < |queries| ==> r[i] == (model.url, Processed(dict, stop, queries[i], lower))
  {
    seq(|queries|, i requires 0 <= i < |queries| => (model.url, Processed(dict, stop, queries[i], lower)))
  }

  /** A query whose model call fails is answered "unknown". */
  lemma FailedRequestIsUnknown(dict: map<string, string>, stop: set<string>, model: ModelInfo, query: string, i: nat,
                               lower: string -> string, server: (nat, string, string) -> Option<string>)
    requires server(i, model.url, Processed(dict, stop, query, lower)).None?
    ensures Answer(dict, stop, model, query, i, lower, server) == Unknown
  {
  }

  /**
   * Each query's label depends on its own call only: two servers that give
   * call i the same answer give query i the same label, whatever they answer
   * to the other calls. The same query sent twice may therefore be labelled
   * differently.
   */
  lemma {:induction false} LabelsFollowOwnCall(dict: map<string, string>, stop: set<string>, model: ModelInfo,
                                               queries: seq<string>, lower: string -> string,
                                               server1: (nat, string, string) -> Option<string>,
                                               server2: (nat, string, string) -> Option<string>, i: nat)
    requires i < |queries|
    requires server1(i, model.url, Processed(dict, stop, queries[i], lower)) ==
             server2(i, model.url, Processed(dict, stop, queries[i], lower))
    ensures Answers(dict, stop, model, queries, lower, server1)[i] == Answers(dict, stop, model, queries, lower, server2)[i]
  {
    assert Answers(dict, stop, model, queries, lower, server1)[i] == Answer(dict, stop, model, queries[i], i, lower, server1);
    assert Answers(dict, stop, model, queries, lower, server2)[i] == Answer(dict, stop, model, queries[i], i, lower, server2);
  }

  /** Answering one more query appends its label, from call number |queries|. */
  lemma AnswersAppend(dict: map<string, string>, stop: set<string>, model: ModelInfo, queries: seq<string>, q: string,
                      lower: string -> string, server: (nat, string, string) -> Option<string>)
    ensures Answers(dict, stop, model, queries + [q], lower, server) ==
            Answers(dict, stop, model, queries, lower, server) + [Answer(dict, stop, model, q, |queries|, lower, server)]
  {
  }

  /** Sending one more query appends its request. */
  lemma RequestsAppend(dict: map<string, string>, stop: set<string>, model: ModelInfo, queries: seq<string>, q: string,
                       lower: string -> string)
    ensures Requests(dict, stop, model, queries + [q], lower) ==
            Requests(dict, stop, model, queries, lower) + [(model.url, Processed(dict, stop, q, lower))]
  {
  }

  /**
   * `doPost` after the request is decoded: an unknown model name is
   * rejected with status 400 before any query is looked at and nothing is
   * sent; otherwise every query is preprocessed, sent as its own call, and
   * answered in order.
   */
  method HandlePost(lex: Lexicon, models: seq<ModelInfo>, modelName: string, queries: seq<string>,
                    lower: string -> string, server: (nat, string, string) -> Option<string>)
    returns (resp: Response, sent: seq<(string, string)>)
    ensures FindModel(models, modelName).None? ==> resp == Rejected(400, ModelNotFound) && sent == []
    ensures FindModel(models, modelName).Some? ==>
              && resp == Answered(Answers(lex.dictionary, lex.stopwords, FindModel(models, modelName).value, queries, lower, server))
              && sent == Requests(lex.dictionary, lex.stopwords, FindModel(models, modelName).value, queries, lower)
  {
    var found := FindModel(models, modelName);
    if found.None? {
      return Rejected(400, ModelNotFound), [];
    }
    var model := found.value;
    var results: seq<string> := [];
    sent := [];
    for i := 0 to |queries|
      invariant results == Answers(lex.dictionary, lex.stopwords, model, queries[..i], lower, server)
      invariant sent == Requests(lex.dictionary, lex.stopwords, model, queries[..i], lower)
    {
      var processed := lex.Preprocess(queries[i], lower);
      var code := server(i, model.url, processed);
      sent := sent + [(model.url, processed)];
      var value := LabelFor(model.classes, code);
      results := results + [value];
      assert queries[..i + 1] == queries[..i] + [queries[i]];
      AnswersAppend(lex.dictionary, lex.stopwords, model, queries[..i], queries[i], lower, server);
      RequestsAppend(lex.dictionary, lex.stopwords, model, queries[..i], queries[i], lower);
    }
    assert queries[..|queries|] == queries;
    return Answered(results), sent;
  }
}
