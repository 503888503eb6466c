/** The one domain entity of the invitation page: a guest's response. */
module Rsvp {

  /** A guest's planned participation, as chosen on the form. */
  datatype Attendance = Yes | Maybe | No

  /** The spelling of an attendance choice in the JSON sent to the relay route. */
  function WireName(a: Attendance): (w: string)
    ensures w in {"yes", "maybe", "no"}
  {
    match a
    case Yes => "yes"
    case Maybe => "maybe"
    case No => "no"
  }

  /** Reads an attendance spelling back; anything other than the three names is rejected. */
  function ParseWireName(w: string): (r: Option<Attendance>)
    ensures r.Some? <==> w in {"yes", "maybe", "no"}
  {
    if w == "yes" then Some(Yes)
    else if w == "maybe" then Some(Maybe)
    else if w == "no" then Some(No)
    else None
  }

  lemma WireNameRoundTrip(a: Attendance)
    ensures ParseWireName(WireName(a)) == Some(a)
  {
  }

  /** One recorded response; `id` is the millisecond clock value at creation. */
  datatype Submission = Submission(
    id: int,
    name: string,
    message: string,
    attendance: Attendance,
    date: string)

  datatype Option<T> = None | Some(value: T)
}
