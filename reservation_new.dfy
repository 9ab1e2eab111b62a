/** The identity record the portal's `userinfo` endpoint returns. */
module UserInfos {

  datatype UserInfo = UserInfo(sub: string, name: string, preferredUsername: string,
                               givenName: string, familyName: string, email: string)
}

/**
 * The body of a new-reservation request, newer revision
 * (info-car-api/src/types/reservation/new.rs): a candidate, an exam reference whose
 * organisation id is a non-zero `u32`, and language settings. Serialised with camelCase
 * keys; the driver profile and the exam id are flattened into their parent objects.
 */
module NewReservations {

  import opened Wrappers
  import opened Json
  import opened UserInfos
  import Text
  import LicenseCategories

  /** Professional-driver profile (PKZ) or candidate-driver profile (PKK). */
  datatype ProfileIdType = Pkz(pkz: string) | Pkk(pkk: string)

  datatype Candidate = Candidate(firstname: string, lastname: string, email: string,
                                 phoneNumber: string, pesel: string,
                                 category: LicenseCategories.LicenseCategory,
                                 driverProfile: ProfileIdType)

  datatype ExamId = PracticeId(practiceId: string) | TheoryId(theoryId: string)

  /** `NonZeroU32`. */
  type OrganizationUnitId = n: int | 1 <= n < 0x1_0000_0000 witness 1

  datatype Exam = Exam(organizationUnitId: OrganizationUnitId, examId: ExamId)

  datatype LanguageAndOsk = LanguageAndOsk(language: string, oskVehicleReservation: Option<string>,
                                           signLanguage: string)

  datatype NewReservation = NewReservation(candidate: Candidate, exam: Exam,
                                           languageAndOsk: LanguageAndOsk)

  /** `ProfileIdType::default()`: a candidate profile with an empty number. */
  function DefaultProfile(): (p: ProfileIdType)
    ensures p.Pkk? && p.pkk == ""
  {
    Pkk("")
  }

  /** The candidate copies the name and e-mail of the identity record; the category is B. */
  function NewFromUserInfo(info: UserInfo, pesel: string, phoneNumber: string,
                           profile: ProfileIdType): (c: Candidate)
    ensures c.firstname == info.givenName && c.lastname == info.familyName && c.email == info.email
    ensures c.pesel == pesel && c.phoneNumber == phoneNumber && c.driverProfile == profile
    ensures c.category == LicenseCategories.Default()
  {
    Candidate(info.givenName, info.familyName, info.email, phoneNumber, pesel,
              LicenseCategories.Default(), profile)
  }

  function NewPracticeExam(org: OrganizationUnitId, id: string): (e: Exam)
    ensures e.organizationUnitId == org && e.examId.PracticeId? && e.examId.practiceId == id
  {
    Exam(org, PracticeId(id))
  }

  function NewTheoryExam(org: OrganizationUnitId, id: string): (e: Exam)
    ensures e.organizationUnitId == org && e.examId.TheoryId? && e.examId.theoryId == id
  {
    Exam(org, TheoryId(id))
  }

  /** The default language settings: Polish, no OSK vehicle, no sign language. */
  function DefaultLanguageAndOsk(): (l: LanguageAndOsk)
    ensures l.language == "POLISH" && l.oskVehicleReservation.None? && l.signLanguage == "NONE"
  {
    LanguageAndOsk("POLISH", None, "NONE")
  }

  function New(candidate: Candidate, exam: Exam, languageAndOsk: LanguageAndOsk): (r: NewReservation)
    ensures r.candidate == candidate && r.exam == exam && r.languageAndOsk == languageAndOsk
  {
    NewReservation(candidate, exam, languageAndOsk)
  }

  // ---- serialisation ----

  /** The key a flattened, lowercase-renamed profile is written under. */
  function ProfileKey(p: ProfileIdType): string
  {
    if p.Pkz? then "pkz" else "pkk"
  }

  function ProfileNumber(p: ProfileIdType): string
  {
    if p.Pkz? then p.pkz else p.pkk
  }

  function EncodeCandidate(c: Candidate): Json
  {
    JObject(map["firstname" := JString(c.firstname), "lastname" := JString(c.lastname),
                "email" := JString(c.email), "phoneNumber" := JString(c.phoneNumber),
                "pesel" := JString(c.pesel),
                "category" := JString(LicenseCategories.Name(c.category)),
                ProfileKey(c.driverProfile) := JString(ProfileNumber(c.driverProfile))])
  }

  /** The flattened profile: exactly one of `pkz` / `pkk` must be present. */
  function DecodeProfile(m: map<string, Json>): Option<ProfileIdType>
  {
    var pkz := StringField(m, "pkz");
    var pkk := StringField(m, "pkk");
    if pkz.Some? && "pkk" !in m then Some(Pkz(pkz.value))
    else if pkk.Some? && "pkz" !in m then Some(Pkk(pkk.value))
    else None
  }

  function DecodeCandidate(j: Json): Option<Candidate>
  {
    if !j.JObject? then None
    else
      var m := j.members;
      var firstname := StringField(m, "firstname");
      var lastname := StringField(m, "lastname");
      var email := StringField(m, "email");
      var phoneNumber := StringField(m, "phoneNumber");
      var pesel := StringField(m, "pesel");
      var category := StringField(m, "category");
      var profile := DecodeProfile(m);
      if firstname.Some? && lastname.Some? && email.Some? && phoneNumber.Some? && pesel.Some?
         && category.Some? && LicenseCategories.Decode(category.value).Some? && profile.Some?
      then
        Some(Candidate(firstname.value, lastname.value, email.value, phoneNumber.value,
                       pesel.value, LicenseCategories.Decode(category.value).value, profile.value))
      else None
  }

  function ExamIdKey(e: ExamId): string
  {
    if e.PracticeId? then "practiceId" else "theoryId"
  }

  function ExamIdValue(e: ExamId): string
  {
    if e.PracticeId? then e.practiceId else e.theoryId
  }

  function EncodeExam(e: Exam): Json
  {
    JObject(map["organizationUnitId" := JNumber(e.organizationUnitId),
                ExamIdKey(e.examId) := JString(ExamIdValue(e.examId))])
  }

  /** A number, or a string of decimal digits, in the range of a non-zero `u32`. */
  function DecodeOrganizationUnitId(j: Json): Option<OrganizationUnitId>
  {
    if j.JNumber? && 1 <= j.n < 0x1_0000_0000 then Some(j.n)
    else if j.JString? && Text.ParseDecimal(j.s).Some? && 1 <= Text.ParseDecimal(j.s).value < 0x1_0000_0000
    then Some(Text.ParseDecimal(j.s).value)
    else None
  }

  function DecodeExamId(m: map<string, Json>): Option<ExamId>
  {
    var practice := StringField(m, "practiceId");
    var theory := StringField(m, "theoryId");
    if practice.Some? && "theoryId" !in m then Some(PracticeId(practice.value))
    else if theory.Some? && "practiceId" !in m then Some(TheoryId(theory.value))
    else None
  }

  function DecodeExam(j: Json): Option<Exam>
  {
    if !j.JObject? || "organizationUnitId" !in j.members then None
    else
      var org := DecodeOrganizationUnitId(j.members["organizationUnitId"]);
      var id := DecodeExamId(j.members);
      if org.Some? && id.Some? then Some(Exam(org.value, id.value)) else None
  }

  function EncodeLanguageAndOsk(l: LanguageAndOsk): Json
  {
    JObject(map["language" := JString(l.language),
                "oskVehicleReservation" := OptionalString(l.oskVehicleReservation),
                "signLanguage" := JString(l.signLanguage)])
  }

  function DecodeLanguageAndOsk(j: Json): Option<LanguageAndOsk>
  {
    if !j.JObject? then None
    else
      var language := StringField(j.members, "language");
      var osk := OptionalStringField(j.members, "oskVehicleReservation");
      var sign := StringField(j.members, "signLanguage");
      if language.Some? && osk.Some? && sign.Some? then
        Some(LanguageAndOsk(language.value, osk.value, sign.value))
      else None
  }

  function Encode(r: NewReservation): Json
  {
    JObject(map["candidate" := EncodeCandidate(r.candidate), "exam" := EncodeExam(r.exam),
                "languageAndOsk" := EncodeLanguageAndOsk(r.languageAndOsk)])
  }

  function Decode(j: Json): Option<NewReservation>
  {
    if !j.JObject? || "candidate" !in j.members || "exam" !in j.members
       || "languageAndOsk" !in j.members
    then None
    else
      var c := DecodeCandidate(j.members["candidate"]);
      var e := DecodeExam(j.members["exam"]);
      var l := DecodeLanguageAndOsk(j.members["languageAndOsk"]);
      if c.Some? && e.Some? && l.Some? then Some(NewReservation(c.value, e.value, l.value)) else None
  }

  lemma CandidateRoundTrip(c: Candidate)
    ensures DecodeCandidate(EncodeCandidate(c)) == Some(c)
  {
    LicenseCategories.DecodeName(c.category);
    ProfileRoundTrip(c);
  }

  /** The flattened profile key is read back as the profile it was written from. */
  lemma ProfileRoundTrip(c: Candidate)
    ensures DecodeProfile(EncodeCandidate(c).members) == Some(c.driverProfile)
  {
  }

  lemma ExamRoundTrip(e: Exam)
    ensures DecodeExam(EncodeExam(e)) == Some(e)
  {
  }

  lemma LanguageAndOskRoundTrip(l: LanguageAndOsk)
    ensures DecodeLanguageAndOsk(EncodeLanguageAndOsk(l)) == Some(l)
  {
  }

  /** Serialising a request and reading it back gives the same request. */
  lemma RoundTrip(r: NewReservation)
    ensures Decode(Encode(r)) == Some(r)
  {
    CandidateRoundTrip(r.candidate);
    ExamRoundTrip(r.exam);
    LanguageAndOskRoundTrip(r.languageAndOsk);
  }

  /** The flattened keys: a practice exam is written under `practiceId`, never `theoryId`. */
  lemma PracticeExamKeys(org: OrganizationUnitId, id: string)
    ensures EncodeExam(NewPracticeExam(org, id)).members.Keys == {"organizationUnitId", "practiceId"}
    ensures EncodeExam(NewPracticeExam(org, id)).members["practiceId"] == JString(id)
  {
  }

  lemma TheoryExamKeys(org: OrganizationUnitId, id: string)
    ensures EncodeExam(NewTheoryExam(org, id)).members.Keys == {"organizationUnitId", "theoryId"}
    ensures EncodeExam(NewTheoryExam(org, id)).members["theoryId"] == JString(id)
  {
  }

  /** The flattened profile becomes a `pkk` / `pkz` key of the candidate object. */
  lemma CandidateKeys(c: Candidate)
    ensures EncodeCandidate(c).members.Keys
         == {"firstname", "lastname", "email", "phoneNumber", "pesel", "category",
             if c.driverProfile.Pkz? then "pkz" else "pkk"}
  {
  }

  /** The organisation id is also accepted as a decimal string. */
  lemma OrganizationUnitIdFromString(n: OrganizationUnitId)
    ensures DecodeOrganizationUnitId(JString(Text.DecimalOf(n))) == Some(n)
  {
    Text.DecimalRoundTrip(n);
  }
}

/**
 * The older request body (crates/info-car-api/src/client/reservation/new.rs): the same
 * candidate, but a string organisation id and exam-id variants named `PracticeExam` /
 * `TheoryExam`, so the flattened key is `practiceExam` / `theoryExam`.
 */
module CrateNewReservations {

  import opened Wrappers
  import opened Json
  import opened UserInfos
  import LicenseCategories

  datatype DriverProfileType = Pkz(pkz: string) | Pkk(pkk: string)

  datatype Candidate = Candidate(category: LicenseCategories.LicenseCategory, email: string,
                                 firstname: string, lastname: string, pesel: string,
                                 phoneNumber: string, driverProfile: DriverProfileType)

  datatype ExamId = PracticeExam(practiceExam: string) | TheoryExam(theoryExam: string)

  datatype Exam = Exam(organizationUnitId: string, examId: ExamId)

  datatype LanguageAndOsk = LanguageAndOsk(language: string, oskVehicleReservation: Option<string>,
                                           signLanguage: string)

  datatype NewReservation = NewReservation(candidate: Candidate, exam: Exam,
                                           languageAndOsk: LanguageAndOsk)

  function NewFromUserInfo(info: UserInfo, pesel: string, phoneNumber: string,
                           profile: DriverProfileType): (c: Candidate)
    ensures c.firstname == info.givenName && c.lastname == info.familyName && c.email == info.email
    ensures c.pesel == pesel && c.phoneNumber == phoneNumber && c.driverProfile == profile
    ensures c.category == LicenseCategories.Default()
  {
    Candidate(LicenseCategories.Default(), info.email, info.givenName, info.familyName, pesel,
              phoneNumber, profile)
  }

  function NewPracticeExam(org: string, id: string): (e: Exam)
    ensures e.organizationUnitId == org && e.examId.PracticeExam? && e.examId.practiceExam == id
  {
    Exam(org, PracticeExam(id))
  }

  function NewTheoryExam(org: string, id: string): (e: Exam)
    ensures e.organizationUnitId == org && e.examId.TheoryExam? && e.examId.theoryExam == id
  {
    Exam(org, TheoryExam(id))
  }

  function DefaultLanguageAndOsk(): (l: LanguageAndOsk)
    ensures l.language == "POLISH" && l.oskVehicleReservation.None? && l.signLanguage == "NONE"
  {
    LanguageAndOsk("POLISH", None, "NONE")
  }

  function New(candidate: Candidate, exam: Exam, languageAndOsk: LanguageAndOsk): (r: NewReservation)
    ensures r.candidate == candidate && r.exam == exam && r.languageAndOsk == languageAndOsk
  {
    NewReservation(candidate, exam, languageAndOsk)
  }

  function EncodeExam(e: Exam): Json
  {
    JObject(map["organizationUnitId" := JString(e.organizationUnitId),
                (if e.examId.PracticeExam? then "practiceExam" else "theoryExam")
                  := JString(if e.examId.PracticeExam? then e.examId.practiceExam else e.examId.theoryExam)])
  }

  function DecodeExam(j: Json): Option<Exam>
  {
    if !j.JObject? then None
    else
      var m := j.members;
      var org := StringField(m, "organizationUnitId");
      var practice := StringField(m, "practiceExam");
      var theory := StringField(m, "theoryExam");
      if org.None? then None
      else if practice.Some? && "theoryExam" !in m then Some(Exam(org.value, PracticeExam(practice.value)))
      else if theory.Some? && "practiceExam" !in m then Some(Exam(org.value, TheoryExam(theory.value)))
      else None
  }

  lemma ExamRoundTrip(e: Exam)
    ensures DecodeExam(EncodeExam(e)) == Some(e)
  {
  }

  /** The flattened exam key of this revision differs from the newer one's `practiceId`. */
  lemma PracticeExamKeys(org: string, id: string)
    ensures EncodeExam(NewPracticeExam(org, id)).members.Keys == {"organizationUnitId", "practiceExam"}
    ensures "practiceId" !in EncodeExam(NewPracticeExam(org, id)).members
  {
  }

  lemma TheoryExamKeys(org: string, id: string)
    ensures EncodeExam(NewTheoryExam(org, id)).members.Keys == {"organizationUnitId", "theoryExam"}
  {
  }
}
