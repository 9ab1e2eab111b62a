/**
 * The envelope every JSON endpoint answers with: `{"errors": [...]}` or a bare success
 * payload. The newer revision (info-car-api/src/types/endpoint.rs) renders the error list
 * with a fold into a String; the older one (crates/info-car-api/src/types/endpoint.rs)
 * maps each item to a String and collects. Both are modelled and shown to agree.
 */
module Endpoint {

  import opened Wrappers
  import opened Json

  /** One item of the error list; its JSON keys are camelCase. */
  datatype GenericError = GenericError(code: string, path: Option<string>, userMessage: string,
                                       timestamp: string)

  datatype EndpointResponse<T> = Errors(errors: seq<GenericError>) | Success(value: T)

  datatype GenericEndpointError = GenericEndpointError(errors: seq<GenericError>)

  /** `EndpointResponse::ok`, the same in both revisions. */
  function Ok<T>(r: EndpointResponse<T>): (res: Result<T, GenericEndpointError>)
    ensures r.Success? <==> res.Ok?
    ensures r.Success? ==> res.value == r.value
    ensures r.Errors? ==> res.error.errors == r.errors
  {
    match r
    case Success(v) => Result.Ok(v)
    case Errors(errs) => Err(GenericEndpointError(errs))
  }

  /** `"{user_message} ({code}). "` for one item. */
  function ItemText(g: GenericError): string
  {
    g.userMessage + " (" + g.code + "). "
  }

  /** The newer rendering: fold the items into an accumulator, left to right. */
  function FoldText(acc: string, errs: seq<GenericError>): string
    decreases |errs|
  {
    if |errs| == 0 then acc else FoldText(acc + ItemText(errs[0]), errs[1..])
  }

  function Display(e: GenericEndpointError): string
  {
    FoldText("", e.errors)
  }

  /** The older rendering: map every item to its text and concatenate. */
  function CollectText(errs: seq<GenericError>): string
  {
    if |errs| == 0 then "" else ItemText(errs[0]) + CollectText(errs[1..])
  }

  function CrateDisplay(e: GenericEndpointError): string
  {
    CollectText(e.errors)
  }

  lemma {:induction false} FoldIsConcatenation(acc: string, errs: seq<GenericError>)
    ensures FoldText(acc, errs) == acc + CollectText(errs)
    decreases |errs|
  {
    if |errs| > 0 {
      FoldIsConcatenation(acc + ItemText(errs[0]), errs[1..]);
    }
  }

  /** Both revisions render the same message: the in-order concatenation of the items. */
  lemma DisplayRevisionsAgree(e: GenericEndpointError)
    ensures Display(e) == CrateDisplay(e)
  {
    FoldIsConcatenation("", e.errors);
  }

  /** Rendering a longer list extends the message of its prefix; an empty list renders "". */
  lemma {:induction false} CollectTextAppend(a: seq<GenericError>, b: seq<GenericError>)
    ensures CollectText(a + b) == CollectText(a) + CollectText(b)
    ensures CollectText([]) == ""
  {
    if |a| > 0 {
      assert (a + b)[1..] == a[1..] + b;
      CollectTextAppend(a[1..], b);
    } else {
      assert a + b == b;
    }
  }

  /** The message of a one-item list is that item's text, so the first item's code is visible. */
  lemma SingleErrorText(g: GenericError)
    ensures Display(GenericEndpointError([g])) == g.userMessage + " (" + g.code + "). "
  {
    FoldIsConcatenation("", [g]);
    assert [g][1..] == [];
    assert "" + (ItemText(g) + "") == ItemText(g);
  }

  function EncodeError(g: GenericError): Json
  {
    JObject(map["code" := JString(g.code), "path" := OptionalString(g.path),
                "userMessage" := JString(g.userMessage), "timestamp" := JString(g.timestamp)])
  }

  /** Serde's reading of one item: three required strings and an optional `path`. */
  function DecodeError(j: Json): Option<GenericError>
  {
    if !j.JObject? then None
    else
      var m := j.members;
      var code := StringField(m, "code");
      var path := OptionalStringField(m, "path");
      var userMessage := StringField(m, "userMessage");
      var timestamp := StringField(m, "timestamp");
      if code.Some? && path.Some? && userMessage.Some? && timestamp.Some? then
        Some(GenericError(code.value, path.value, userMessage.value, timestamp.value))
      else None
  }

  function DecodeErrors(items: seq<Json>): (r: Option<seq<GenericError>>)
    ensures r.Some? ==> |r.value| == |items|
  {
    if |items| == 0 then Some([])
    else
      match DecodeError(items[0])
      case None => None
      case Some(g) =>
        match DecodeErrors(items[1..])
        case None => None
        case Some(rest) => Some([g] + rest)
  }

  /** The shape the `errors` variant is written in: an object whose only key is `errors`. */
  predicate IsErrorsObject(j: Json)
  {
    j.JObject? && j.members.Keys == {"errors"} && j.members["errors"].JArray?
    && DecodeErrors(j.members["errors"].items).Some?
  }

  /** Try the `errors` variant first, then fall back to the untagged success payload. */
  function Decode<T>(j: Json, decodePayload: Json -> Option<T>): (r: Option<EndpointResponse<T>>)
    ensures IsErrorsObject(j) ==> r.Some? && r.value.Errors?
    ensures !IsErrorsObject(j) ==> (r.Some? <==> decodePayload(j).Some?)
    ensures !IsErrorsObject(j) && r.Some? ==> r.value == Success(decodePayload(j).value)
  {
    if IsErrorsObject(j) then Some(Errors(DecodeErrors(j.members["errors"].items).value))
    else
      match decodePayload(j)
      case None => None
      case Some(v) => Some(Success(v))
  }

  function Encode<T>(r: EndpointResponse<T>, encodePayload: T -> Json): Json
  {
    match r
    case Errors(errs) => JObject(map["errors" := JArray(seq(|errs|, i requires 0 <= i < |errs| => EncodeError(errs[i])))])
    case Success(v) => encodePayload(v)
  }

  lemma ErrorRoundTrip(g: GenericError)
    ensures DecodeError(EncodeError(g)) == Some(g)
  {
  }

  lemma {:induction false} ErrorsRoundTrip(errs: seq<GenericError>)
    ensures DecodeErrors(seq(|errs|, i requires 0 <= i < |errs| => EncodeError(errs[i]))) == Some(errs)
  {
    var items := seq(|errs|, i requires 0 <= i < |errs| => EncodeError(errs[i]));
    if |errs| > 0 {
      ErrorRoundTrip(errs[0]);
      assert items[1..] == seq(|errs[1..]|, i requires 0 <= i < |errs[1..]| => EncodeError(errs[1..][i]));
      ErrorsRoundTrip(errs[1..]);
      assert errs == [errs[0]] + errs[1..];
    }
  }

  /** An error list is read back verbatim and in order. */
  lemma ErrorsVariantRoundTrip<T>(errs: seq<GenericError>, encodePayload: T -> Json, decodePayload: Json -> Option<T>)
    ensures Decode(Encode(Errors(errs), encodePayload), decodePayload) == Some(Errors(errs))
  {
    ErrorsRoundTrip(errs);
  }

  /**
   * A success payload is read back when its own codec round-trips and its JSON is not
   * itself shaped like the `errors` variant (which is tried first and would win).
   */
  lemma SuccessVariantRoundTrip<T>(v: T, encodePayload: T -> Json, decodePayload: Json -> Option<T>)
    requires decodePayload(encodePayload(v)) == Some(v)
    requires !IsErrorsObject(encodePayload(v))
    ensures Decode(Encode(Success(v), encodePayload), decodePayload) == Some(Success(v))
  {
  }

  /** Decoding then unwrapping: an errors object becomes `Err` with its items in order. */
  lemma {:induction false} DecodedErrorsUnwrapToErr<T>(errs: seq<GenericError>, decodePayload: Json -> Option<T>)
    ensures var d := Decode(Encode(Errors(errs), (v: T) => JNull), decodePayload);
      d.Some? && Ok(d.value) == Err(GenericEndpointError(errs))
  {
    ErrorsRoundTrip(errs);
  }
}
