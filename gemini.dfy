/** The text-assist service: it asks a language model to fix or complete a
    video's title and description, cuts the JSON object out of the reply and
    parses it, and falls back to deterministic defaults when parsing fails.
    The outcome of the model call and the JSON parser are parameters. */
module GeminiService {
  import opened Common

  /** A parsed JSON value (numbers restricted to integers). */
  datatype Json =
    | JNull
    | JBool(b: bool)
    | JNumber(n: int)
    | JString(s: string)
    | JArray(items: seq<Json>)
    | JObject(fields: map<string, Json>)

  const UNTITLED := "Untitled Video"
  const DEFAULT_DESCRIPTION := "Subscribe, comment, and like!"
  const EMPTY_SLOT := "EMPTY"

  /** The two values the prompt's input lines carry. */
  datatype PromptInputs = PromptInputs(title: string, description: string)

  /** `${title || "EMPTY"}` and `${description || "EMPTY"}`. */
  function Prompt(title: Option<string>, description: Option<string>): (p: PromptInputs)
    ensures Truthy(title) ==> p.title == title.value
    ensures !Truthy(title) ==> p.title == EMPTY_SLOT
    ensures Truthy(description) ==> p.description == description.value
    ensures !Truthy(description) ==> p.description == EMPTY_SLOT
  {
    PromptInputs(OrElse(title, EMPTY_SLOT), OrElse(description, EMPTY_SLOT))
  }

  /** The prompt cannot tell a missing title from the literal title "EMPTY". */
  lemma PromptConflatesEmpty(description: Option<string>)
    ensures Prompt(None, description) == Prompt(Some(EMPTY_SLOT), description)
    ensures Prompt(Some(""), description) == Prompt(None, description)
  {
  }

  /** The first position at or after `from` that holds `c`, or -1. */
  function IndexFrom(s: string, c: char, from: nat): (r: int)
    requires from <= |s|
    ensures r == -1 || from <= r < |s|
    ensures r == -1 <==> forall i | from <= i < |s| :: s[i] != c
    ensures r >= 0 ==> s[r] == c && forall i | from <= i < r :: s[i] != c
    decreases |s| - from
  {
    if from == |s| then -1
    else if s[from] == c then from
    else IndexFrom(s, c, from + 1)
  }

  /** `s.indexOf(c)`: the first position of `c`, or -1. */
  function IndexOf(s: string, c: char): (r: int)
    ensures -1 <= r < |s|
    ensures r == -1 <==> c !in s
    ensures r >= 0 ==> s[r] == c && forall i | 0 <= i < r :: s[i] != c
  {
    IndexFrom(s, c, 0)
  }

  /** The last position before `upTo` that holds `c`, or -1. */
  function LastIndexBefore(s: string, c: char, upTo: nat): (r: int)
    requires upTo <= |s|
    ensures -1 <= r < upTo
    ensures r == -1 <==> forall i | 0 <= i < upTo :: s[i] != c
    ensures r >= 0 ==> s[r] == c && forall i | r < i < upTo :: s[i] != c
  {
    if upTo == 0 then -1
    else if s[upTo - 1] == c then upTo - 1
    else LastIndexBefore(s, c, upTo - 1)
  }

  /** `s.lastIndexOf(c)`: the last position of `c`, or -1. */
  function LastIndexOf(s: string, c: char): (r: int)
    ensures -1 <= r < |s|
    ensures r == -1 <==> c !in s
    ensures r >= 0 ==> s[r] == c && forall i | r < i < |s| :: s[i] != c
  {
    LastIndexBefore(s, c, |s|)
  }

  /** How `slice` reads a position: negative counts from the end, and the
      result is clamped to the string. */
  function SliceBound(i: int, len: nat): (r: nat)
    ensures r <= len
    ensures 0 <= i <= len ==> r == i
    ensures i < 0 ==> r == if len + i < 0 then 0 else len + i
    ensures i > len ==> r == len
  {
    if i < 0 then (if len + i < 0 then 0 else len + i)
    else if i > len then len
    else i
  }

  /** `s.slice(start, end)`. */
  function Slice(s: string, start: int, end: int): (r: string)
    ensures SliceBound(start, |s|) >= SliceBound(end, |s|) ==> r == ""
    ensures SliceBound(start, |s|) < SliceBound(end, |s|) ==> r == s[SliceBound(start, |s|)..SliceBound(end, |s|)]
  {
    var a := SliceBound(start, |s|);
    var b := SliceBound(end, |s|);
    if a >= b then "" else s[a..b]
  }

  /** The text handed to the parser: from the first "{" through the last "}". */
  function Candidate(reply: string): string {
    Slice(reply, IndexOf(reply, '{'), LastIndexOf(reply, '}') + 1)
  }

  /** Nothing after the last "}" is a "}". */
  lemma NoneAfterLast(reply: string, e: int)
    requires 0 <= e < |reply| && e == LastIndexOf(reply, '}')
    ensures '}' !in reply[e + 1..]
  {
    var tail := reply[e + 1..];
    forall i | 0 <= i < |tail| ensures tail[i] != '}' {
      assert tail[i] == reply[e + 1 + i];
    }
  }

  /** Slicing from a "{" through a later "}" takes exactly that span, which
      then starts with "{" and ends with "}". */
  lemma BraceSpan(reply: string, b: int, e: int)
    requires 0 <= b < e < |reply| && reply[b] == '{' && reply[e] == '}'
    ensures var c := Slice(reply, b, e + 1);
            c == reply[b..e + 1] && c[0] == '{' && c[|c| - 1] == '}'
  {
  }

  /** When the reply has a "{" before its last "}", the candidate is exactly
      the span from the first "{" through the last "}". */
  lemma CandidateSpan(reply: string)
    requires 0 <= IndexOf(reply, '{') < LastIndexOf(reply, '}')
    ensures var b := IndexOf(reply, '{');
            var e := LastIndexOf(reply, '}');
            var c := Candidate(reply);
            && c == reply[b..e + 1]
            && c[0] == '{' && c[|c| - 1] == '}'
            && '}' !in reply[e + 1..]
  {
    var b := IndexOf(reply, '{');
    var e := LastIndexOf(reply, '}');
    BraceSpan(reply, b, e);
    NoneAfterLast(reply, e);
  }

  /** Without any "}" the candidate is empty. */
  lemma NoCloseBraceEmpty(reply: string)
    requires '}' !in reply
    ensures Candidate(reply) == ""
  {
  }

  /** Whatever the reply, the candidate is empty, a lone "}", or starts with "{". */
  lemma CandidateShape(reply: string)
    ensures var c := Candidate(reply);
            c == "" || c == "}" || c[0] == '{'
  {
    var s := IndexOf(reply, '{');
    var e := LastIndexOf(reply, '}');
    var c := Candidate(reply);
    if c != "" && s == -1 {
      assert SliceBound(s, |reply|) == |reply| - 1;
      assert SliceBound(e + 1, |reply|) == |reply|;
      assert c == reply[|reply| - 1..];
      assert reply[|reply| - 1] == '}';
    }
  }

  /** What the model call yields: the reply's text, or the error that
      `generateContent` or `response.text()` throws. Both run before the
      `try`, so such an error leaves the service. */
  datatype ModelReply = Replied(text: string) | CallFailed(message: string)

  /** What generateOrFixWithGemini produces: the parsed value as it is, the
      fallback pair, or the model call's error, which it throws. */
  datatype GeminiResult = Parsed(value: Json) | Fallback(finalTitle: string, finalDescription: string) | Threw(message: string)

  /** generateOrFixWithGemini with the model call's outcome and the parser
      (`None` for a parse that throws) as parameters: the call's error if it
      failed, else the parsed candidate if it parses, otherwise the inputs
      where truthy and the defaults where not. */
  function GenerateOrFix(title: Option<string>, description: Option<string>, reply: ModelReply,
                         parse: string -> Option<Json>): (r: GeminiResult)
    ensures reply.CallFailed? <==> r.Threw?
    ensures reply.CallFailed? ==> r.message == reply.message
    ensures reply.Replied? && parse(Candidate(reply.text)).Some? ==> r == Parsed(parse(Candidate(reply.text)).value)
    ensures reply.Replied? && parse(Candidate(reply.text)).None? ==> r.Fallback?
    ensures r.Fallback? && Truthy(title) ==> r.finalTitle == title.value
    ensures r.Fallback? && !Truthy(title) ==> r.finalTitle == UNTITLED
    ensures r.Fallback? && Truthy(description) ==> r.finalDescription == description.value
    ensures r.Fallback? && !Truthy(description) ==> r.finalDescription == DEFAULT_DESCRIPTION
  {
    match reply
    case CallFailed(message) => Threw(message)
    case Replied(text) =>
      var parsed := parse(Candidate(text));
      if parsed.Some? then Parsed(parsed.value)
      else Fallback(OrElse(title, UNTITLED), OrElse(description, DEFAULT_DESCRIPTION))
  }

  /** A reply without any "}" always yields the fallback, provided the empty
      text does not parse (as it does not for JSON). */
  lemma NoCloseBraceFallsBack(title: Option<string>, description: Option<string>, reply: string,
                              parse: string -> Option<Json>)
    requires '}' !in reply
    requires parse("").None?
    ensures GenerateOrFix(title, description, Replied(reply), parse)
            == Fallback(OrElse(title, UNTITLED), OrElse(description, DEFAULT_DESCRIPTION))
  {
    NoCloseBraceEmpty(reply);
  }
}
