/**
 * The HTTP side shared by every revision of `handle_response`: a response reduced to its
 * status, its `WWW-Authenticate` header and an opaque body, and `HeaderValue::to_str`.
 * The header is the challenge of section 4.1 of RFC 7235; the Bearer scheme of section 3
 * of RFC 6750 puts `error`, `error_description` and `error_uri` in it as quoted strings.
 */
module Http {

  import opened Wrappers

  datatype Response = Response(status: int, wwwAuthenticate: Option<string>, body: string)

  /** What `HeaderValue::to_str` accepts: visible ASCII and horizontal tab. */
  predicate VisibleAscii(h: string)
  {
    forall c | c in h :: (' ' <= c <= '~') || c == '\t'
  }

  const ConversionFallback: string := "Failed to convert HeaderValue to string"

  /** `header.to_str().unwrap_or("Failed to convert HeaderValue to string")`. */
  function HeaderText(h: string): (t: string)
    ensures VisibleAscii(h) ==> t == h
    ensures !VisibleAscii(h) ==> t == ConversionFallback
  {
    if VisibleAscii(h) then h else ConversionFallback
  }

  /** The text `handle_response` scans never holds a newline, whatever the header held. */
  lemma HeaderTextHasNoNewline(h: string)
    ensures forall i :: 0 <= i < |HeaderText(h)| ==> HeaderText(h)[i] != '\n'
  {
    var t := HeaderText(h);
    assert VisibleAscii(t) by {
      if !VisibleAscii(h) {
        assert VisibleAscii(ConversionFallback);
      }
    }
    forall i | 0 <= i < |t| ensures t[i] != '\n' {
      assert t[i] in t;
    }
  }
}

/**
 * The newest classifier (info-car-api/src/error.rs): the last three quoted strings of the
 * challenge become (error type, description, url); fewer than three give `unknown_error`.
 */
module JwtChallenge {

  import opened Wrappers
  import opened Text
  import opened Http
  import QuotedStrings

  datatype JwtErrorMessage = JwtErrorMessage(errorType: string, description: string, url: string)

  datatype JwtError = JwtError(message: JwtErrorMessage)

  /** `Result<Response, JWTError>`, plus the panic of `expect("Header not found")`. */
  datatype Handled = Passed(response: Response) | Rejected(error: JwtError) | Panicked

  /** `From<Vec<String>> for JWTErrorMessage`, as a value. */
  function MessageOf(pieces: seq<string>): JwtErrorMessage
  {
    if |pieces| < 3 then JwtErrorMessage("unknown_error", Join(pieces, " "), "")
    else
      var n := |pieces|;
      JwtErrorMessage(pieces[n - 3], pieces[n - 2], pieces[n - 1])
  }

  /** The conversion as the source writes it: three `pop()`s off the owned vector. */
  method FromPieces(value: seq<string>) returns (m: JwtErrorMessage)
    ensures |value| >= 3 ==> m.errorType == value[|value| - 3]
    ensures |value| >= 3 ==> m.description == value[|value| - 2] && m.url == value[|value| - 1]
    ensures |value| < 3 ==> m.errorType == "unknown_error" && m.url == ""
    ensures |value| < 3 ==> m.description == Join(value, " ")
    ensures m == MessageOf(value)
  {
    if |value| < 3 {
      return JwtErrorMessage("unknown_error", Join(value, " "), "");
    }
    var v := value;
    var url := v[|v| - 1];
    v := v[..|v| - 1];
    var description := v[|v| - 1];
    v := v[..|v| - 1];
    var errorType := v[|v| - 1];
    m := JwtErrorMessage(errorType, description, url);
  }

  /** Only the last three pieces matter: anything before them is discarded. */
  lemma EarlierPiecesDiscarded(earlier: seq<string>, last: seq<string>)
    requires |last| == 3
    ensures MessageOf(earlier + last) == JwtErrorMessage(last[0], last[1], last[2])
  {
    var s := earlier + last;
    assert s[|s| - 3] == last[0] && s[|s| - 2] == last[1] && s[|s| - 1] == last[2];
  }

  /** A short challenge never loses text: all of it is kept, space-joined, as the description. */
  lemma ShortChallengeKeepsAllText(pieces: seq<string>)
    requires |pieces| < 3
    ensures MessageOf(pieces).errorType == "unknown_error" && MessageOf(pieces).url == ""
    ensures |pieces| == 2 ==> MessageOf(pieces).description == pieces[0] + " " + pieces[1]
    ensures |pieces| == 1 ==> MessageOf(pieces).description == pieces[0]
    ensures |pieces| == 0 ==> MessageOf(pieces).description == ""
  {
    if |pieces| == 2 {
      assert Join(pieces[1..], " ") == pieces[1];
    }
  }

  function HandleResponse(r: Response): (h: Handled)
    ensures r.status != 401 <==> h == Passed(r)
    ensures r.status == 401 && r.wwwAuthenticate.None? <==> h.Panicked?
    ensures r.status == 401 && r.wwwAuthenticate.Some? ==>
      h == Rejected(JwtError(MessageOf(QuotedStrings.Extract(HeaderText(r.wwwAuthenticate.value)))))
  {
    if r.status == 401 then
      match r.wwwAuthenticate
      case None => Panicked
      case Some(header) => Rejected(JwtError(MessageOf(QuotedStrings.Extract(HeaderText(header)))))
    else Passed(r)
  }

  /** `#[error("Error ({}): {} ({})", ...)]`. */
  function Display(e: JwtError): (s: string)
    ensures |s| == 13 + |e.message.errorType| + |e.message.description| + |e.message.url|
    ensures s[..7] == "Error (" && s[|s| - 1] == ')'
    ensures var t, d, u := e.message.errorType, e.message.description, e.message.url;
      s[7..7 + |t|] == t && s[7 + |t|..10 + |t|] == "): " && s[10 + |t|..10 + |t| + |d|] == d
      && s[10 + |t| + |d|..12 + |t| + |d|] == " (" && s[12 + |t| + |d|..|s| - 1] == u
  {
    "Error (" + e.message.errorType + "): " + e.message.description + " (" + e.message.url + ")"
  }

  /**
   * A 401 whose challenge carries at least three quoted strings and no stray quote yields
   * exactly the last three of them as (type, description, url).
   */
  lemma {:induction false} RejectsWithLastThree(status: int, prefix: seq<string>, errorType: string,
                                                description: string, url: string, sep: string)
    requires status == 401
    requires forall j :: 0 <= j < |prefix| ==> QuotedStrings.Clean(prefix[j])
    requires QuotedStrings.Clean(errorType) && QuotedStrings.Clean(description) && QuotedStrings.Clean(url)
    requires QuotedStrings.NoQuote(sep)
    requires VisibleAscii(QuotedStrings.Render(prefix + [errorType, description, url], sep))
    ensures HandleResponse(Response(status, Some(QuotedStrings.Render(prefix + [errorType, description, url], sep)), ""))
         == Rejected(JwtError(JwtErrorMessage(errorType, description, url)))
  {
    var pieces := prefix + [errorType, description, url];
    QuotedStrings.ExtractRender(pieces, sep);
    EarlierPiecesDiscarded(prefix, [errorType, description, url]);
  }

  /**
   * The challenge `Bearer error="invalid_token", error_description="Token expired",
   * error_uri="https://x/y"`, written piece by piece.
   */
  const ExampleChallenge: string :=
    "Bearer error=" + QuotedStrings.Quote("invalid_token")
    + ", error_description=" + QuotedStrings.Quote("Token expired")
    + ", error_uri=" + QuotedStrings.Quote("https://x/y")

  /** The worked example of a Bearer `invalid_token` challenge. */
  lemma InvalidTokenExample()
    ensures HandleResponse(Response(401, Some(ExampleChallenge), ""))
         == Rejected(JwtError(JwtErrorMessage("invalid_token", "Token expired", "https://x/y")))
  {
    ExampleChallengeVisible();
    ExampleChallengePieces();
  }

  lemma ExampleChallengeVisible()
    ensures VisibleAscii(ExampleChallenge)
  {
    var parts := ["Bearer error=", QuotedStrings.Quote("invalid_token"),
                  ", error_description=", QuotedStrings.Quote("Token expired"),
                  ", error_uri=", QuotedStrings.Quote("https://x/y")];
    VisibleByIndex("Bearer error=");
    VisibleByIndex(QuotedStrings.Quote("invalid_token"));
    VisibleByIndex(", error_description=");
    VisibleByIndex(QuotedStrings.Quote("Token expired"));
    VisibleByIndex(", error_uri=");
    VisibleByIndex(QuotedStrings.Quote("https://x/y"));
    VisibleAsciiAppend(parts[0], parts[1]);
    VisibleAsciiAppend(parts[0] + parts[1], parts[2]);
    VisibleAsciiAppend(parts[0] + parts[1] + parts[2], parts[3]);
    VisibleAsciiAppend(parts[0] + parts[1] + parts[2] + parts[3], parts[4]);
    VisibleAsciiAppend(parts[0] + parts[1] + parts[2] + parts[3] + parts[4], parts[5]);
  }

  lemma VisibleByIndex(h: string)
    requires forall i :: 0 <= i < |h| ==> (' ' <= h[i] <= '~') || h[i] == '\t'
    ensures VisibleAscii(h)
  {
    forall c | c in h
      ensures (' ' <= c <= '~') || c == '\t'
    {
      var i :| 0 <= i < |h| && h[i] == c;
    }
  }

  lemma VisibleAsciiAppend(a: string, b: string)
    requires VisibleAscii(a) && VisibleAscii(b)
    ensures VisibleAscii(a + b)
  {
  }

  lemma ExampleChallengePieces()
    ensures QuotedStrings.Extract(ExampleChallenge) == ["invalid_token", "Token expired", "https://x/y"]
  {
    ExampleSeparatorsQuoteFree();
    ExampleValuesClean();
    QuotedStrings.ExtractThree("Bearer error=", "invalid_token", ", error_description=", "Token expired",
                               ", error_uri=", "https://x/y");
  }

  lemma ExampleSeparatorsQuoteFree()
    ensures QuotedStrings.NoQuote("Bearer error=")
    ensures QuotedStrings.NoQuote(", error_description=") && QuotedStrings.NoQuote(", error_uri=")
  {
    QuotedStrings.NoQuoteByMembership("Bearer error=");
    QuotedStrings.NoQuoteByMembership(", error_description=");
    QuotedStrings.NoQuoteByMembership(", error_uri=");
  }

  lemma ExampleValuesClean()
    ensures QuotedStrings.Clean("invalid_token")
    ensures QuotedStrings.Clean("Token expired") && QuotedStrings.Clean("https://x/y")
  {
    QuotedStrings.CleanByMembership("invalid_token");
    QuotedStrings.CleanByMembership("Token expired");
    QuotedStrings.CleanByMembership("https://x/y");
  }

  /** Fewer than three quoted strings: still a structured rejection, never a panic. */
  lemma {:induction false} ShortChallengeRejects(header: string)
    requires QuotedStrings.CountQuotes(HeaderText(header)) < 6
    ensures HandleResponse(Response(401, Some(header), "")).Rejected?
    ensures HandleResponse(Response(401, Some(header), "")).error.message.errorType == "unknown_error"
  {
    var t := HeaderText(header);
    HeaderTextHasNoNewline(header);
    assert QuotedStrings.NoNewline(t);
    QuotedStrings.FewQuotesFewPieces(t);
  }
}
