/**
 * The driving-licence categories. The same seventeen-variant enum appears in three
 * revisions (info-car-api/src/types/license_category.rs,
 * crates/info-car-api/src/client/reservation/mod.rs and
 * crates/info-car-api/src/client/reservations.rs) with the same display table, and serde
 * reads and writes the bare variant name, which is the display text.
 */
module LicenseCategories {

  import opened Wrappers

  datatype LicenseCategory =
    | A | A1 | A2 | AM | B | B1 | BE | C | C1 | CE | C1E | D | D1 | DE | D1E | T | PT

  /** The display text, which is also the serde name. */
  function Name(c: LicenseCategory): (s: string)
    ensures 1 <= |s| <= 3
    ensures s[0] in "ABCDPT"
  {
    match c
    case A => "A"
    case A1 => "A1"
    case A2 => "A2"
    case AM => "AM"
    case B => "B"
    case B1 => "B1"
    case BE => "BE"
    case C => "C"
    case C1 => "C1"
    case CE => "CE"
    case C1E => "C1E"
    case D => "D"
    case D1 => "D1"
    case DE => "DE"
    case D1E => "D1E"
    case T => "T"
    case PT => "PT"
  }

  /** Serde's reading of a unit variant: exactly a variant name, anything else is an error. */
  function Decode(s: string): Option<LicenseCategory>
  {
    if s == "A" then Some(A)
    else if s == "A1" then Some(A1)
    else if s == "A2" then Some(A2)
    else if s == "AM" then Some(AM)
    else if s == "B" then Some(B)
    else if s == "B1" then Some(B1)
    else if s == "BE" then Some(BE)
    else if s == "C" then Some(C)
    else if s == "C1" then Some(C1)
    else if s == "CE" then Some(CE)
    else if s == "C1E" then Some(C1E)
    else if s == "D" then Some(D)
    else if s == "D1" then Some(D1)
    else if s == "DE" then Some(DE)
    else if s == "D1E" then Some(D1E)
    else if s == "T" then Some(T)
    else if s == "PT" then Some(PT)
    else None
  }

  /** `#[default]` / `impl Default`: category B. */
  function Default(): (c: LicenseCategory)
    ensures Name(c) == "B"
  {
    B
  }

  /** Decoding the displayed (serialised) name gives the category back. */
  lemma DecodeName(c: LicenseCategory)
    ensures Decode(Name(c)) == Some(c)
  {
    match c
    case A => case A1 => case A2 => case AM => case B => case B1 => case BE =>
    case C => case C1 => case CE => case C1E => case D => case D1 => case DE =>
    case D1E => case T => case PT =>
  }

  /** Only the seventeen names decode, and each to the category that displays as it. */
  lemma DecodeOnlyNames(s: string)
    ensures Decode(s).Some? ==> Name(Decode(s).value) == s
  {
  }

  /** Distinct categories display as distinct strings. */
  lemma NameInjective(c: LicenseCategory, d: LicenseCategory)
    ensures Name(c) == Name(d) ==> c == d
  {
    DecodeName(c);
    DecodeName(d);
  }
}

/**
 * Reservation statuses of the newer revision (crates/info-car-api/src/types/reservation/status.rs):
 * read from SCREAMING_SNAKE_CASE names with every other string falling to `Unknown`, and
 * displayed with spaced words.
 */
module ReservationStatuses {

  datatype PossibleStatus =
    | Created | Draft | PaymentRejected | PlaceReserved | SignupConfirmed
    | CancellationRequest | Cancelled | Unknown

  function WireName(v: PossibleStatus): string
  {
    match v
    case Created => "CREATED"
    case Draft => "DRAFT"
    case PaymentRejected => "PAYMENT_REJECTED"
    case PlaceReserved => "PLACE_RESERVED"
    case SignupConfirmed => "SIGNUP_CONFIRMED"
    case CancellationRequest => "CANCELLATION_REQUEST"
    case Cancelled => "CANCELLED"
    case Unknown => "UNKNOWN"
  }

  /** Total decoding: the `#[serde(other)]` variant takes every unrecognised string. */
  function Decode(s: string): PossibleStatus
  {
    if s == "CREATED" then Created
    else if s == "DRAFT" then Draft
    else if s == "PAYMENT_REJECTED" then PaymentRejected
    else if s == "PLACE_RESERVED" then PlaceReserved
    else if s == "SIGNUP_CONFIRMED" then SignupConfirmed
    else if s == "CANCELLATION_REQUEST" then CancellationRequest
    else if s == "CANCELLED" then Cancelled
    else Unknown
  }

  function Display(v: PossibleStatus): string
  {
    match v
    case Created => "Created"
    case Draft => "Draft"
    case PaymentRejected => "Payment Rejected"
    case PlaceReserved => "Place Reserved"
    case SignupConfirmed => "Signup Confirmed"
    case CancellationRequest => "Cancellation Request"
    case Cancelled => "Cancelled"
    case Unknown => "Unknown"
  }

  /** Every status is read back from its SCREAMING_SNAKE_CASE name. */
  lemma DecodeWireName(v: PossibleStatus)
    ensures Decode(WireName(v)) == v
  {
    match v
    case Created => case Draft => case PaymentRejected => case PlaceReserved =>
    case SignupConfirmed => case CancellationRequest => case Cancelled => case Unknown =>
  }

  /** A string decodes to a known status exactly when it is that status's name. */
  lemma DecodeKnownOnlyFromName(s: string)
    ensures Decode(s) != Unknown ==> WireName(Decode(s)) == s
  {
  }

  /** Distinct statuses display as distinct strings. */
  lemma DisplayInjective(v: PossibleStatus, w: PossibleStatus)
    ensures Display(v) == Display(w) ==> v == w
  {
    match v
    case Created => case Draft => case PaymentRejected => case PlaceReserved =>
    case SignupConfirmed => case CancellationRequest => case Cancelled => case Unknown =>
  }

  /** The display text is not a wire name: read back, it always decodes to `Unknown`. */
  lemma DisplayIsNotWireName(v: PossibleStatus)
    ensures Decode(Display(v)) == Unknown
  {
    match v
    case Created => case Draft => case PaymentRejected => case PlaceReserved =>
    case SignupConfirmed => case CancellationRequest => case Cancelled => case Unknown =>
  }
}

/**
 * The older status enum (crates/info-car-api/src/client/reservation/mod.rs), read from
 * UPPERCASE names: the variant spelled `PlaceReserveD` becomes `PLACERESERVED`.
 */
module CrateStatuses {

  datatype PossibleStatus = Created | PlaceReserved | Cancelled | SignupConfirmed | Unknown

  function WireName(v: PossibleStatus): string
  {
    match v
    case Created => "CREATED"
    case PlaceReserved => "PLACERESERVED"
    case Cancelled => "CANCELLED"
    case SignupConfirmed => "SIGNUPCONFIRMED"
    case Unknown => "UNKNOWN"
  }

  function Decode(s: string): PossibleStatus
  {
    if s == "CREATED" then Created
    else if s == "PLACERESERVED" then PlaceReserved
    else if s == "CANCELLED" then Cancelled
    else if s == "SIGNUPCONFIRMED" then SignupConfirmed
    else Unknown
  }

  lemma DecodeWireName(v: PossibleStatus)
    ensures Decode(WireName(v)) == v
  {
    match v
    case Created => case PlaceReserved => case Cancelled => case SignupConfirmed => case Unknown =>
  }

  lemma DecodeKnownOnlyFromName(s: string)
    ensures Decode(s) != Unknown ==> WireName(Decode(s)) == s
  {
  }

  /** The newer revision's underscored names are not understood here, and vice versa. */
  lemma UnderscoredNamesAreUnknown()
    ensures Decode("PLACE_RESERVED") == Unknown
    ensures Decode("SIGNUP_CONFIRMED") == Unknown
  {
  }
}
