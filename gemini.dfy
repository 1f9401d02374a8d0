/**
 * The LLM gateway (callGeminiAPI) seen from the routers: what the HTTP call
 * can come back with, the response-envelope check that turns it into text or
 * a failure, and the try/catch that every prompt builder wraps around it.
 * The request itself is not modelled: a gateway is a function from the prompt
 * to the reply the service gives for it.
 */
module Gemini {
  import opened JsString

  /** One element of `content.parts`; `text` is absent or a string. */
  datatype Part = Part(text: Option<string>)
  /** `candidates[i].content`; `parts` is absent or an array. */
  datatype Content = Content(parts: Option<seq<Part>>)
  /** One element of `candidates`; `content` is absent or an object. */
  datatype Candidate = Candidate(content: Option<Content>)
  /** The parsed response body; `candidates` is absent or an array. */
  datatype Envelope = Envelope(candidates: Option<seq<Candidate>>)

  /**
   * What `response.json()` makes of the body: a rejection when the body is
   * not JSON, or a value. `Json(None)` is a value with none of the envelope's
   * fields: `null`, a number, a string, and so on.
   */
  datatype Body = Unparsable | Json(data: Option<Envelope>)

  /** What fetch gives back: a rejected request, or a status and a body. */
  datatype Reply =
    | NetworkError
    | Response(status: int, body: Body)

  /**
   * Why callGeminiAPI throws. The first two are the errors fetch and
   * `response.json()` raise; `ApiError` and `UnexpectedStructure` are the two
   * it throws itself; `MissingPart` is the TypeError of reading `text` from
   * the `undefined` that `parts[0]` is when `parts` is empty.
   */
  datatype Failure =
    | FetchFailed
    | InvalidJson
    | MissingPart
    | ApiError(status: int)
    | UnexpectedStructure

  datatype Result<+T> = Ok(value: T) | Err(failure: Failure)

  /** The external service: the reply it gives to a prompt. */
  type Gateway = string -> Reply

  /** `response.ok`: a status in the range 200 to 299. */
  predicate IsOkStatus(status: int) {
    200 <= status <= 299
  }

  /** The parsed body reaches a `parts` array that is empty. */
  predicate HasEmptyParts(data: Option<Envelope>) {
    && data.Some?
    && data.value.candidates.Some?
    && |data.value.candidates.value| > 0
    && data.value.candidates.value[0].content.Some?
    && data.value.candidates.value[0].content.value.parts == Some([])
  }

  /**
   * callGeminiAPI after the request: the body is parsed first, on either
   * status; a failed status then throws with the status; a successful one
   * runs the chain of truthiness tests on data.candidates[0].content.parts[0].text.
   * A JavaScript string is truthy exactly when it is not empty; an array,
   * even empty, is truthy.
   */
  function Extract(reply: Reply): (r: Result<string>)
    ensures reply.NetworkError? ==> r == Err(FetchFailed)
    ensures reply.Response? && reply.body.Unparsable? ==> r == Err(InvalidJson)
    ensures reply.Response? && reply.body.Json? && !IsOkStatus(reply.status) ==> r == Err(ApiError(reply.status))
    ensures r.Ok? ==> reply.Response? && reply.body.Json? && IsOkStatus(reply.status) && r.value != []
    ensures reply.Response? && reply.body.Json? && IsOkStatus(reply.status) ==>
      (r == Err(MissingPart) <==> HasEmptyParts(reply.body.data))
    ensures r.Err? && reply.Response? && reply.body.Json? && IsOkStatus(reply.status) && !HasEmptyParts(reply.body.data) ==>
      r == Err(UnexpectedStructure)
  {
    match reply
    case NetworkError => Err(FetchFailed)
    case Response(status, body) =>
      if body.Unparsable? then Err(InvalidJson)
      else if !IsOkStatus(status) then Err(ApiError(status))
      else
        var data := body.data;
        if
          && data.Some?
          && data.value.candidates.Some?
          && |data.value.candidates.value| > 0
          && data.value.candidates.value[0].content.Some?
          && data.value.candidates.value[0].content.value.parts.Some?
        then
          var parts := data.value.candidates.value[0].content.value.parts.value;
          if |parts| == 0 then Err(MissingPart)
          else if parts[0].text.Some? && parts[0].text.value != [] then Ok(parts[0].text.value)
          else Err(UnexpectedStructure)
        else Err(UnexpectedStructure)
  }

  /** A response whose first candidate's first part carries `text`, followed by any further parts and candidates. */
  function Wrap(status: int, text: string, moreParts: seq<Part>, moreCandidates: seq<Candidate>): Reply {
    Response(status, Json(Some(Envelope(Some([Candidate(Some(Content(Some([Part(Some(text))] + moreParts))))] + moreCandidates)))))
  }

  /**
   * Extraction reads exactly the first part of the first candidate: on a
   * successful status it yields that text whenever it is not empty, whatever
   * follows it, and fails on the empty string.
   */
  lemma ExtractFirstText(status: int, text: string, moreParts: seq<Part>, moreCandidates: seq<Candidate>)
    ensures IsOkStatus(status) && text != [] ==> Extract(Wrap(status, text, moreParts, moreCandidates)) == Ok(text)
    ensures IsOkStatus(status) && text == [] ==> Extract(Wrap(status, text, moreParts, moreCandidates)) == Err(UnexpectedStructure)
    ensures !IsOkStatus(status) ==> Extract(Wrap(status, text, moreParts, moreCandidates)) == Err(ApiError(status))
  {
  }

  /**
   * Each missing field along the path, and an empty `candidates`, fails with
   * the unexpected-structure error even with a successful status; an empty
   * `parts` fails with the TypeError instead; a body that is not JSON fails
   * at parsing whatever the status.
   */
  lemma ExtractRejectsMissingFields(status: int, rest: seq<Candidate>, parts: seq<Part>)
    ensures Extract(Response(status, Unparsable)) == Err(InvalidJson)
    ensures IsOkStatus(status) ==> Extract(Response(status, Json(None))) == Err(UnexpectedStructure)
    ensures IsOkStatus(status) ==> Extract(Response(status, Json(Some(Envelope(None))))) == Err(UnexpectedStructure)
    ensures IsOkStatus(status) ==> Extract(Response(status, Json(Some(Envelope(Some([])))))) == Err(UnexpectedStructure)
    ensures IsOkStatus(status) ==> Extract(Response(status, Json(Some(Envelope(Some([Candidate(None)] + rest)))))) == Err(UnexpectedStructure)
    ensures IsOkStatus(status) ==>
      Extract(Response(status, Json(Some(Envelope(Some([Candidate(Some(Content(None)))] + rest)))))) == Err(UnexpectedStructure)
    ensures IsOkStatus(status) ==>
      Extract(Response(status, Json(Some(Envelope(Some([Candidate(Some(Content(Some([]))))] + rest)))))) == Err(MissingPart)
    ensures IsOkStatus(status) ==>
      Extract(Response(status, Json(Some(Envelope(Some([Candidate(Some(Content(Some([Part(None)] + parts))))] + rest)))))) == Err(UnexpectedStructure)
  {
  }

  /** One message's dealings with the gateway: the prompts sent, in order, and the reply text. */
  datatype Exchange = Exchange(prompts: seq<string>, reply: string)

  /**
   * `try { return await callGeminiAPI(prompt) } catch { return apology }`:
   * one prompt is sent; the reply is the extracted text, or the apology
   * whatever the cause of the failure.
   */
  function AskOr(gateway: Gateway, prompt: string, apology: string): (e: Exchange)
    ensures e.prompts == [prompt]
    ensures Extract(gateway(prompt)).Ok? ==> e.reply == Extract(gateway(prompt)).value
    ensures Extract(gateway(prompt)).Err? ==> e.reply == apology
  {
    match Extract(gateway(prompt))
    case Ok(text) => Exchange([prompt], text)
    case Err(_) => Exchange([prompt], apology)
  }

  /** Two gateways that succeed on the same prompts with the same text. */
  ghost predicate SameSuccesses(g1: Gateway, g2: Gateway) {
    forall p :: Extract(g1(p)).Ok? == Extract(g2(p)).Ok?
      && (Extract(g1(p)).Ok? ==> Extract(g1(p)).value == Extract(g2(p)).value)
  }
}
