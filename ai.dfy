/** The grammar-correction handler: answers at once when there is nothing to
    work on, otherwise passes the service's result on as title and description. */
module AiController {
  import opened Common
  import opened GeminiService

  /** The response payload: `{}` when there was nothing to process, otherwise
      the title and description (absent when the parsed object lacks them). */
  datatype AiData = NothingToProcess | Processed(title: Option<Json>, description: Option<Json>)

  /** What destructuring `null` throws. */
  const NULL_DESTRUCTURE := "Cannot destructure property 'finalTitle' of null"

  /** Reads a property of a parsed value: only an object has any. */
  function Property(value: Json, key: string): (r: Option<Json>)
    ensures r.Some? <==> value.JObject? && key in value.fields
    ensures r.Some? ==> r.value == value.fields[key]
  {
    if value.JObject? then Lookup(value.fields, key) else None
  }

  /** grammarCorrectController: 200 with no data when both inputs are falsy,
      without consulting the service; otherwise 500 when the model call
      fails, and 200 with the service's finalTitle and finalDescription,
      except that a parsed `null` cannot be destructured. */
  function GrammarCorrect(title: Option<string>, description: Option<string>, reply: ModelReply,
                          parse: string -> Option<Json>): (r: Response<AiData>)
    ensures !Truthy(title) && !Truthy(description) ==> r == Ok(OK, NothingToProcess)
    ensures (Truthy(title) || Truthy(description)) ==>
      match GenerateOrFix(title, description, reply, parse)
      case Threw(m) => r == Err(SERVER_ERROR, m)
      case Fallback(t, d) => r == Ok(OK, Processed(Some(JString(t)), Some(JString(d))))
      case Parsed(v) =>
        if v == JNull then r == Err(SERVER_ERROR, NULL_DESTRUCTURE)
        else r == Ok(OK, Processed(Property(v, "finalTitle"), Property(v, "finalDescription")))
  {
    if !Truthy(title) && !Truthy(description) then Ok(OK, NothingToProcess)
    else
      match GenerateOrFix(title, description, reply, parse)
      case Threw(m) => Err(SERVER_ERROR, m)
      case Fallback(t, d) => Ok(OK, Processed(Some(JString(t)), Some(JString(d))))
      case Parsed(v) =>
        if v == JNull then Err(SERVER_ERROR, NULL_DESTRUCTURE)
        else Ok(OK, Processed(Property(v, "finalTitle"), Property(v, "finalDescription")))
  }

  /** With nothing to process the service is never consulted: the answer is
      the same whatever the model would reply and however it would parse. */
  lemma NothingToProcessIgnoresService(reply1: ModelReply, parse1: string -> Option<Json>,
                                       reply2: ModelReply, parse2: string -> Option<Json>)
    ensures GrammarCorrect(None, None, reply1, parse1) == GrammarCorrect(None, None, reply2, parse2)
    ensures GrammarCorrect(Some(""), Some(""), reply1, parse1) == Ok(OK, NothingToProcess)
  {
  }

  /** Once the model has replied, both paths answer 200 when the parser
      yields `null` only for the text "null", as JSON's does: the candidate
      text is never "null". A failed model call answers 500 with its error. */
  lemma AlwaysOk(title: Option<string>, description: Option<string>, reply: string, parse: string -> Option<Json>)
    requires forall s :: parse(s) == Some(JNull) ==> s == "null"
    ensures GrammarCorrect(title, description, Replied(reply), parse).Ok?
    ensures GrammarCorrect(title, description, Replied(reply), parse).status == OK
    ensures Truthy(title) || Truthy(description) ==>
      forall m :: GrammarCorrect(title, description, CallFailed(m), parse) == Err(SERVER_ERROR, m)
  {
    CandidateShape(reply);
    var c := Candidate(reply);
    assert c != "null" by {
      if c != "" && c != "}" {
        assert c[0] == '{';
      }
    }
  }

  /** On the fallback path, a truthy input comes back as it was. */
  lemma FallbackKeepsInputs(title: Option<string>, description: Option<string>, reply: string,
                            parse: string -> Option<Json>)
    requires Truthy(title) && Truthy(description)
    requires parse(Candidate(reply)).None?
    ensures GrammarCorrect(title, description, Replied(reply), parse)
            == Ok(OK, Processed(Some(JString(title.value)), Some(JString(description.value))))
  {
  }
}
