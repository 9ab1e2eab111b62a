/**
 * The derived defaults of the older reservation-listing records
 * (crates/info-car-api/src/client/reservations.rs): every text field empty and no
 * status message.
 */
module ReservationRecords {

  import opened Wrappers
  import Commands

  datatype ReservationStatus = ReservationStatus(status: string, timestamp: string, message: Option<string>)

  datatype Candidate = Candidate(firstname: string, lastname: string)

  function DefaultStatus(): (r: ReservationStatus)
    ensures r.status == "" && r.timestamp == "" && r.message.None?
  {
    ReservationStatus("", "", None)
  }

  function DefaultCandidate(): (c: Candidate)
    ensures c.firstname == "" && c.lastname == ""
  {
    Candidate("", "")
  }

  /** A status left at its default shows the reason `None` in the bot's status listing. */
  lemma DefaultStatusReason()
    ensures Commands.Reason(DefaultStatus().message) == "None"
  {
  }
}
