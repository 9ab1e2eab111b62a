/**
 * The older API client (crates/info-car-api/src/client/mod.rs): it keeps the bearer token
 * in a field that `set_token` writes, refuses every authenticated call with `NoBearer`
 * while no token is set, and builds the login form and the exam-schedule body. The HTTP
 * exchange itself is left to the caller: a call is described by the request it would send
 * and the response it is handed.
 */
module ApiClient {

  import opened Wrappers
  import opened Http
  import JwtChallengeIndexed
  import LicenseCategories
  import QuotedStrings

  datatype Verb = Get | Post | Put

  /** A request as it leaves the client: verb, URL, bearer token, JSON body. */
  datatype Request = Request(verb: Verb, url: string, bearer: string, body: map<string, string>)

  datatype GenericError = NoBearer | TransportError | JwtError(error: JwtChallengeIndexed.JwtError)

  /** What a call leads to: the response to decode, an error, or a panic in `handle_response`. */
  datatype CallResult = Answered(response: Response) | Failed(error: GenericError) | Panicked

  datatype Call = Call(sent: Option<Request>, result: CallResult)

  const UserInfoUrl: string := "https://info-car.pl/oauth2/userinfo"
  const ReservationsUrl: string := "https://info-car.pl/api/word/reservations"
  const WordCentersUrl: string := "https://info-car.pl/api/word/word-centers"
  const ExamScheduleUrl: string := "https://info-car.pl/api/word/word-centers/exam-schedule"

  /** The login form: username, CSRF token, password, and the CSRF token once more. */
  function LoginForm(username: string, password: string, csrf: string): (form: seq<(string, string)>)
    ensures |form| == 4
    ensures form[0] == ("username", username) && form[2] == ("password", password)
  {
    [("username", username), ("_csrf", csrf), ("password", password), ("_csrf", csrf)]
  }

  function CountKey(form: seq<(string, string)>, key: string): nat
  {
    if |form| == 0 then 0 else (if form[0].0 == key then 1 else 0) + CountKey(form[1..], key)
  }

  /** The CSRF token is sent twice, with the same value both times. */
  lemma CsrfSentTwice(username: string, password: string, csrf: string)
    ensures CountKey(LoginForm(username, password, csrf), "_csrf") == 2
    ensures forall i :: 0 <= i < 4 && LoginForm(username, password, csrf)[i].0 == "_csrf" ==>
              LoginForm(username, password, csrf)[i].1 == csrf
  {
    var form := LoginForm(username, password, csrf);
    assert "username" != "_csrf" && "password" != "_csrf";
    assert CountKey(form[3..], "_csrf") == 1 by { assert form[3..][1..] == []; }
    assert CountKey(form[2..], "_csrf") == 1 by { assert form[2..][1..] == form[3..]; }
    assert CountKey(form[1..], "_csrf") == 2 by { assert form[1..][1..] == form[2..]; }
  }

  /** The exam-schedule body; the dates are passed in their display form. */
  function ExamScheduleBody(wordId: string, endDate: string, startDate: string,
                            category: LicenseCategories.LicenseCategory): (body: map<string, string>)
    ensures body.Keys == {"category", "endDate", "startDate", "wordId"}
    ensures body["category"] == LicenseCategories.Name(category)
    ensures body["endDate"] == endDate && body["startDate"] == startDate && body["wordId"] == wordId
  {
    map["category" := LicenseCategories.Name(category), "endDate" := endDate,
        "startDate" := startDate, "wordId" := wordId]
  }

  /** The `handle_response` step shared by the checked calls. */
  function Checked(r: Response): (c: CallResult)
    ensures c.Answered? <==> JwtChallengeIndexed.HandleResponse(r).Passed?
    ensures c.Panicked? <==> JwtChallengeIndexed.HandleResponse(r).Panicked?
    ensures c.Answered? ==> c.response == r
    ensures JwtChallengeIndexed.HandleResponse(r).Rejected? ==>
              c == Failed(JwtError(JwtChallengeIndexed.HandleResponse(r).error))
  {
    match JwtChallengeIndexed.HandleResponse(r)
    case Passed(p) => Answered(p)
    case Rejected(e) => Failed(JwtError(e))
    case Panicked => Panicked
  }

  class InfoCarClient {

    var token: Option<string>

    constructor()
      ensures token.None?
    {
      token := None;
    }

    /** `set_token`: stores the token, and nothing else. */
    method SetToken(t: string)
      modifies this
      ensures token == Some(t)
    {
      token := Some(t);
    }

    /**
     * `login`: the CSRF token scraped from the login page (`None` when scraping panics)
     * and the form that is posted. The token field is not touched.
     */
    method Login(username: string, password: string, csrf: Option<string>)
      returns (form: Option<seq<(string, string)>>)
      modifies this
      ensures token == old(token)
      ensures csrf.None? ==> form.None?
      ensures csrf.Some? ==> form == Some(LoginForm(username, password, csrf.value))
    {
      if csrf.None? {
        return None;
      }
      form := Some(LoginForm(username, password, csrf.value));
    }

    /** A call that needs the bearer token: `NoBearer` before anything is sent. */
    function Authorized(verb: Verb, url: string, body: map<string, string>, response: Response,
                        checked: bool): (c: Call)
      reads this
      ensures token.None? <==> c.sent.None?
      ensures token.None? ==> c.result == Failed(NoBearer)
      ensures token.Some? ==> c.sent == Some(Request(verb, url, token.value, body))
      ensures token.Some? && !checked ==> c.result == Answered(response)
      ensures token.Some? && checked ==> c.result == Checked(response)
    {
      if token.None? then Call(None, Failed(NoBearer))
      else Call(Some(Request(verb, url, token.value, body)),
                if checked then Checked(response) else Answered(response))
    }

    /** `user_info` does not pass its response through `handle_response`. */
    function UserInfo(response: Response): (c: Call)
      reads this
      ensures c == Authorized(Get, UserInfoUrl, map[], response, false)
    {
      Authorized(Get, UserInfoUrl, map[], response, false)
    }

    function MyReservations(response: Response): (c: Call)
      reads this
      ensures c == Authorized(Get, ReservationsUrl, map[], response, true)
    {
      Authorized(Get, ReservationsUrl, map[], response, true)
    }

    function WordCenters(response: Response): (c: Call)
      reads this
      ensures c == Authorized(Get, WordCentersUrl, map[], response, true)
    {
      Authorized(Get, WordCentersUrl, map[], response, true)
    }

    function ExamSchedule(wordId: string, endDate: string, startDate: string,
                          category: LicenseCategories.LicenseCategory, response: Response): (c: Call)
      reads this
      ensures c == Authorized(Put, ExamScheduleUrl, ExamScheduleBody(wordId, endDate, startDate, category),
                              response, true)
    {
      Authorized(Put, ExamScheduleUrl, ExamScheduleBody(wordId, endDate, startDate, category),
                 response, true)
    }
  }

  /** A client fresh from `new()` refuses a call without sending it; after `set_token` it sends. */
  method FreshClientRefuses(response: Response) returns (before: Call, after: Call)
    ensures before.sent.None? && before.result == Failed(NoBearer)
    ensures after.sent.Some? && after.sent.value.bearer == "token"
  {
    var client := new InfoCarClient();
    before := client.MyReservations(response);
    client.SetToken("token");
    after := client.MyReservations(response);
  }

  /** Once a token is set, every call carries exactly that token. */
  lemma SentBearerIsToken(client: InfoCarClient, verb: Verb, url: string, body: map<string, string>,
                          response: Response, checked: bool)
    requires client.Authorized(verb, url, body, response, checked).sent.Some?
    ensures client.token.Some?
    ensures client.Authorized(verb, url, body, response, checked).sent.value.bearer == client.token.value
  {
  }

  /** A 401 on a checked call surfaces as the JWT error of the challenge's first three pieces. */
  lemma CheckedUnauthorized(r: Response)
    requires r.status == 401
    requires r.wwwAuthenticate.Some?
    requires |QuotedStrings.Extract(HeaderText(r.wwwAuthenticate.value))| >= 3
    ensures Checked(r).Failed?
    ensures var p := QuotedStrings.Extract(HeaderText(r.wwwAuthenticate.value));
      Checked(r).error == JwtError(JwtChallengeIndexed.JwtError(p[0], p[1], p[2]))
  {
  }
}
