/**
 * The older classifier, identical in crates/info-car-api/src/error.rs and
 * crates/info-car-api/src/client/error.rs: the FIRST three quoted strings are read by
 * index, so a challenge with fewer than three of them panics.
 */
module JwtChallengeIndexed {

  import opened Wrappers
  import opened Http
  import QuotedStrings
  import JwtChallenge

  /** `JWTError(String, String, String)`: (error type, description, url). */
  datatype JwtError = JwtError(errorType: string, description: string, url: string)

  /** `Result<Response, JWTError>`, plus the panics of `expect` and of indexing past the end. */
  datatype Handled = Passed(response: Response) | Rejected(error: JwtError) | Panicked

  function FromPieces(pieces: seq<string>): (h: Handled)
    ensures |pieces| < 3 <==> h.Panicked?
    ensures |pieces| >= 3 ==> h == Rejected(JwtError(pieces[0], pieces[1], pieces[2]))
  {
    if |pieces| < 3 then Panicked else Rejected(JwtError(pieces[0], pieces[1], pieces[2]))
  }

  function HandleResponse(r: Response): (h: Handled)
    ensures r.status != 401 <==> h == Passed(r)
    ensures r.status == 401 && r.wwwAuthenticate.None? ==> h.Panicked?
    ensures r.status == 401 && r.wwwAuthenticate.Some? ==>
      h == FromPieces(QuotedStrings.Extract(HeaderText(r.wwwAuthenticate.value)))
  {
    if r.status == 401 then
      match r.wwwAuthenticate
      case None => Panicked
      case Some(header) => FromPieces(QuotedStrings.Extract(HeaderText(header)))
    else Passed(r)
  }

  /** `#[error("Error ({0}): {1} ({2})")]`. */
  function Display(e: JwtError): (s: string)
    ensures |s| == 13 + |e.errorType| + |e.description| + |e.url|
    ensures s[..7] == "Error (" && s[|s| - 1] == ')'
    ensures var t, d, u := e.errorType, e.description, e.url;
      s[7..7 + |t|] == t && s[7 + |t|..10 + |t|] == "): " && s[10 + |t|..10 + |t| + |d|] == d
      && s[10 + |t| + |d|..12 + |t| + |d|] == " (" && s[12 + |t| + |d|..|s| - 1] == u
  {
    "Error (" + e.errorType + "): " + e.description + " (" + e.url + ")"
  }

  /** Pieces after the third are ignored. */
  lemma LaterPiecesIgnored(first: seq<string>, later: seq<string>)
    requires |first| == 3
    ensures FromPieces(first + later) == Rejected(JwtError(first[0], first[1], first[2]))
  {
    assert (first + later)[..3] == first;
  }

  /** A 401 whose challenge holds fewer than six quote characters panics instead of classifying. */
  lemma {:induction false} ShortChallengePanics(header: string)
    requires QuotedStrings.CountQuotes(HeaderText(header)) < 6
    ensures HandleResponse(Response(401, Some(header), "")).Panicked?
  {
    HeaderTextHasNoNewline(header);
    QuotedStrings.FewQuotesFewPieces(HeaderText(header));
  }

  /** A header that is not visible ASCII is scanned as the fallback text, which has no quotes: panic. */
  lemma {:induction false} OpaqueHeaderPanics(header: string)
    requires !VisibleAscii(header)
    ensures HandleResponse(Response(401, Some(header), "")).Panicked?
  {
    QuotedStrings.NoQuoteByMembership(ConversionFallback);
    QuotedStrings.ExtractQuoteFree(ConversionFallback);
  }

  /** With exactly three pieces the older and the newer revision classify alike. */
  lemma {:induction false} AgreesWithNewestOnThreePieces(r: Response)
    requires r.status == 401 && r.wwwAuthenticate.Some?
    requires |QuotedStrings.Extract(HeaderText(r.wwwAuthenticate.value))| == 3
    ensures HandleResponse(r).Rejected? && JwtChallenge.HandleResponse(r).Rejected?
    ensures var e := HandleResponse(r).error; var m := JwtChallenge.HandleResponse(r).error.message;
      e.errorType == m.errorType && e.description == m.description && e.url == m.url
  {
  }

  /**
   * A challenge that also carries a `realm` attribute first: the older revision reports the
   * realm as the error type, the newer one the real `error` value.
   */
  lemma {:induction false} RealmChallengeDiffers(realm: string, errorType: string, description: string,
                                                url: string, sep: string)
    requires QuotedStrings.Clean(realm) && QuotedStrings.Clean(errorType)
    requires QuotedStrings.Clean(description) && QuotedStrings.Clean(url)
    requires QuotedStrings.NoQuote(sep)
    requires VisibleAscii(QuotedStrings.Render([realm, errorType, description, url], sep))
    ensures var r := Response(401, Some(QuotedStrings.Render([realm, errorType, description, url], sep)), "");
      HandleResponse(r) == Rejected(JwtError(realm, errorType, description))
      && JwtChallenge.HandleResponse(r)
         == JwtChallenge.Rejected(JwtChallenge.JwtError(JwtChallenge.JwtErrorMessage(errorType, description, url)))
  {
    QuotedStrings.ExtractRender([realm, errorType, description, url], sep);
  }
}
