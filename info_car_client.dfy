/**
 * The application's wrapper around the API client (src/client.rs): it logs in, falls
 * back from a failed token refresh to a fresh login, asks for the nearest practice exams
 * and builds enrolment requests. The wrapped client's own login and refresh talk to the
 * portal and are not part of this model; their outcomes are parameters, and a successful
 * one is taken to leave the expiry it reports in `token_expire_date`.
 */
module InfoCarClients {

  import opened Wrappers
  import opened Session
  import Schedule
  import CrateNewReservations
  import UserInfos

  datatype UserData = UserData(username: string, password: string, preferredOsk: string)

  /** The result of `login` / `refresh_token`: the expiry, the login error, or the `expect` panic. */
  datatype LoginResult = Expires(date: int) | LoginError(error: string) | LoginPanicked

  /** `login` after the wrapped client's login: its error, or the expiry it must have set. */
  function LoginOf(login: AuthOutcome): (r: LoginResult)
    ensures login.AuthErr? <==> r.LoginError?
    ensures login.AuthErr? ==> r.error == login.error
    ensures r.LoginPanicked? <==> login.AuthOk? && login.expireDate.None?
    ensures r.Expires? ==> r.date == login.expireDate.value
  {
    match login
    case AuthErr(e) => LoginError(e)
    case AuthOk(d) => if d.None? then LoginPanicked else Expires(d.value)
  }

  /** `refresh_token`: the refreshed expiry, or exactly what a fresh `login` gives. */
  function RefreshOf(refresh: AuthOutcome, login: AuthOutcome): (r: LoginResult)
    ensures refresh.AuthOk? ==> (r.LoginPanicked? <==> refresh.expireDate.None?)
    ensures r.Expires? && refresh.AuthOk? ==> refresh.expireDate == Some(r.date)
    ensures r.Expires? && refresh.AuthErr? ==> login == AuthOk(Some(r.date))
  {
    if refresh.AuthErr? then LoginOf(login)
    else if refresh.expireDate.None? then LoginPanicked
    else Expires(refresh.expireDate.value)
  }

  /** A failed refresh returns exactly the result of logging in again. */
  lemma RefreshFallsBackToLogin(refresh: AuthOutcome, login: AuthOutcome)
    requires refresh.AuthErr?
    ensures RefreshOf(refresh, login) == LoginOf(login)
  {
  }

  /** A successful refresh never depends on the login. */
  lemma RefreshSuccessIgnoresLogin(refresh: AuthOutcome,
                                   login1: AuthOutcome, login2: AuthOutcome)
    requires refresh.AuthOk?
    ensures RefreshOf(refresh, login1) == RefreshOf(refresh, login2)
  {
  }

  /** An error only when both the refresh and the login fail. */
  lemma RefreshErrorsOnlyIfBothFail(refresh: AuthOutcome, login: AuthOutcome)
    ensures RefreshOf(refresh, login).LoginError? <==> refresh.AuthErr? && login.AuthErr?
  {
  }

  datatype GetExamsError = ClientError(message: string) | NoExamsError

  /** `get_nearest_exams(n)`, given what the exam-schedule call returned. */
  function NearestExams(schedule: Result<Schedule.ExamSchedule, string>, n: nat)
    : (r: Result<seq<Schedule.Exam>, GetExamsError>)
    ensures schedule.Err? ==> r == Err(ClientError(schedule.error))
    ensures schedule.Ok? ==> (r == Err(NoExamsError) <==> n == 0 || Schedule.AllPracticeExams(schedule.value) == [])
    ensures r.Ok? ==> schedule.Ok? && 1 <= |r.value| <= n
                      && |r.value| <= |Schedule.AllPracticeExams(schedule.value)|
                      && r.value == Schedule.AllPracticeExams(schedule.value)[..|r.value|]
    ensures r.Ok? ==> |r.value| == n || |r.value| == |Schedule.AllPracticeExams(schedule.value)|
  {
    if schedule.Err? then Err(ClientError(schedule.error))
    else
      match Schedule.FindNPracticeExams(schedule.value, n)
      case None => Err(NoExamsError)
      case Some(v) => Ok(v)
  }

  /** Asking for one exam gives the schedule's first practice exam. */
  lemma NearestOneIsFirst(s: Schedule.ExamSchedule)
    requires Schedule.AllPracticeExams(s) != []
    ensures NearestExams(Ok(s), 1) == Ok([Schedule.AllPracticeExams(s)[0]])
  {
    var all := Schedule.AllPracticeExams(s);
    var r := NearestExams(Ok(s), 1);
    assert r.Ok? && |r.value| == 1;
    assert r.value == all[..1] == [all[0]];
  }

  class InfoCarClient {

    const userData: UserData
    const candidateData: CrateNewReservations.Candidate
    var tokenExpireDate: Option<int>

    constructor(userData: UserData, candidateData: CrateNewReservations.Candidate, tokenExpireDate: Option<int>)
      ensures this.userData == userData && this.candidateData == candidateData
      ensures this.tokenExpireDate == tokenExpireDate
    {
      this.userData := userData;
      this.candidateData := candidateData;
      this.tokenExpireDate := tokenExpireDate;
    }

    method Login(login: AuthOutcome) returns (r: LoginResult)
      modifies this
      ensures r == LoginOf(login)
      ensures tokenExpireDate == ExpireAfter(old(tokenExpireDate), login)
    {
      tokenExpireDate := ExpireAfter(tokenExpireDate, login);
      r := LoginOf(login);
    }

    method RefreshToken(refresh: AuthOutcome, login: AuthOutcome) returns (r: LoginResult)
      modifies this
      ensures r == RefreshOf(refresh, login)
      ensures tokenExpireDate == (if refresh.AuthErr? then ExpireAfter(old(tokenExpireDate), login)
                                  else ExpireAfter(old(tokenExpireDate), refresh))
    {
      tokenExpireDate := ExpireAfter(tokenExpireDate, refresh);
      if refresh.AuthErr? {
        r := Login(login);
      } else {
        r := RefreshOf(refresh, login);
      }
    }

    /** `enroll`: a practice exam at the preferred centre, the stored candidate, default settings. */
    function EnrollRequest(examId: string): (r: CrateNewReservations.NewReservation)
      ensures r.candidate == candidateData
      ensures r.exam == CrateNewReservations.NewPracticeExam(userData.preferredOsk, examId)
      ensures r.languageAndOsk == CrateNewReservations.DefaultLanguageAndOsk()
    {
      CrateNewReservations.New(candidateData,
                               CrateNewReservations.NewPracticeExam(userData.preferredOsk, examId),
                               CrateNewReservations.DefaultLanguageAndOsk())
    }
  }

  datatype NewClientError = NewLoginError(error: string) | NewGenericError(message: string)

  /** What `new` did: whether it asked for the user info, and what it returned. */
  datatype Construction = Construction(askedUserInfo: bool, result: Result<InfoCarClient, NewClientError>)

  /**
   * `new`: log in first; a failed login ends it before the user info is asked for. The
   * candidate is built from the identity record.
   */
  method New(userData: UserData, pesel: string, phoneNumber: string,
             profile: CrateNewReservations.DriverProfileType, login: AuthOutcome,
             userInfo: Result<UserInfos.UserInfo, string>) returns (c: Construction)
    ensures login.AuthErr? ==> !c.askedUserInfo && c.result == Err(NewLoginError(login.error))
    ensures login.AuthOk? ==> c.askedUserInfo
    ensures login.AuthOk? && userInfo.Err? ==> c.result == Err(NewGenericError(userInfo.error))
    ensures c.result.Ok? ==>
              (fresh(c.result.value) && login.AuthOk? && userInfo.Ok?
               && c.result.value.userData == userData
               && c.result.value.candidateData
                  == CrateNewReservations.NewFromUserInfo(userInfo.value, pesel, phoneNumber, profile)
               && c.result.value.tokenExpireDate == login.expireDate)
  {
    if login.AuthErr? {
      return Construction(false, Err(NewLoginError(login.error)));
    }
    if userInfo.Err? {
      return Construction(true, Err(NewGenericError(userInfo.error)));
    }
    var candidate := CrateNewReservations.NewFromUserInfo(userInfo.value, pesel, phoneNumber, profile);
    var client := new InfoCarClient(userData, candidate, login.expireDate);
    return Construction(true, Ok(client));
  }
}
