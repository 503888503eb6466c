/**
 * The state of the invitation page and the three handlers that change it:
 * the countdown tick, the loader that runs once on mount, and the form's
 * submit handler.  The clock, the store and the relay are outside the page;
 * what they return is passed in.
 */
module Page {
  import opened Rsvp
  import opened Countdown
  import opened Loader
  import SendEmail

  /** What `fetch` of the relay route gave the submit handler. */
  datatype FetchOutcome = Replied(status: int) | NetworkError

  /** `response.ok`: a reply with a status in 200..299. */
  predicate ResponseOk(outcome: FetchOutcome) {
    outcome.Replied? && 200 <= outcome.status <= 299
  }

  /** The record the submit handler sends, carried by JSON to the route. */
  function RequestOf(s: Submission): (req: SendEmail.Request)
    ensures req.name == s.name && req.message == s.message && req.date == s.date
    ensures ParseWireName(req.attendance) == Some(s.attendance)
  {
    WireNameRoundTrip(s.attendance);
    SendEmail.Request(s.name, WireName(s.attendance), s.message, s.date)
  }

  /**
   * The page resets its form exactly when the route's single send call
   * returned instead of throwing,
   * and the host's e-mail then names the guest's own attendance choice.
   */
  lemma FormResetsIffSendReturned(s: Submission, sendReturned: bool)
    ensures var reply := SendEmail.Post(RequestOf(s), sendReturned).reply;
      ResponseOk(Replied(reply.status)) <==> sendReturned
    ensures SendEmail.AttendanceOfPhrase(SendEmail.AttendancePhrase(RequestOf(s).attendance))
              == Some(s.attendance)
  {
    SendEmail.PhraseIdentifiesAttendance(s.attendance);
  }

  class PageState {
    var name: string
    var message: string
    var attendance: Attendance
    var isLoading: bool
    var submissions: seq<Submission>
    var timeLeft: TimeLeft

    /** The countdown on display always has its fields within their radix. */
    ghost predicate Valid()
      reads this
    {
      WellFormed(timeLeft)
    }

    /** The initial values of the page's state hooks. */
    constructor ()
      ensures Valid()
      ensures name == "" && message == "" && attendance == Yes
      ensures isLoading && submissions == []
      ensures timeLeft == TimeLeft(0, 0, 0, 0)
    {
      name, message, attendance := "", "", Yes;
      isLoading, submissions := true, [];
      timeLeft := TimeLeft(0, 0, 0, 0);
    }

    /**
     * One countdown tick at clock reading `now`: a positive distance to
     * `target` replaces the countdown with its decomposition; otherwise the
     * last countdown stays on display.
     */
    method UpdateCountdown(target: int, now: int)
      requires Valid()
      modifies this`timeLeft
      ensures Valid()
      ensures target - now > 0 ==> TotalSeconds(timeLeft) == (target - now) / 1000
      ensures target - now > 0 ==> timeLeft == Decompose(target - now)
      ensures target - now <= 0 ==> timeLeft == old(timeLeft)
    {
      var distance := target - now;
      if distance > 0 {
        timeLeft := Decompose(distance);
        DecomposeRecomposes(distance);
      }
    }

    /**
     * The loader.  With the key/value store, a non-empty key list installs
     * the parsed values sorted newest first, and an empty list or a failed
     * `list` leaves the submissions alone; with the local fallback, a
     * parseable blob is installed as stored, in its own order.  Loading ends
     * on every path.
     */
    method LoadSubmissions(backend: Backend)
      requires Valid()
      modifies this`submissions, this`isLoading
      ensures Valid()
      ensures !isLoading
      ensures backend.Remote? && backend.list.Listed? && backend.list.outcomes != [] ==>
        && SortedByIdDesc(submissions)
        && multiset(submissions) == multiset(Collect(backend.list.outcomes))
        && submissions == SortByIdDesc(Collect(backend.list.outcomes))
      ensures backend.Remote? && (backend.list.ListFailed? || backend.list.outcomes == []) ==>
        submissions == old(submissions)
      ensures backend.Local? && backend.local.Blob? ==> submissions == backend.local.stored
      ensures backend.Local? && !backend.local.Blob? ==> submissions == old(submissions)
    {
      match backend {
        case Remote(list) =>
          if list.Listed? && |list.outcomes| > 0 {
            var keys := list.outcomes;
            var loaded: seq<Submission> := [];
            var i := 0;
            while i < |keys|
              invariant 0 <= i <= |keys|
              invariant loaded == Collect(keys[..i])
            {
              assert keys[..i + 1][..i] == keys[..i];
              var fetched := keys[i];
              if fetched.Parsed? {
                loaded := loaded + [fetched.submission];
              }
              i := i + 1;
            }
            assert keys[..i] == keys;
            submissions := SortByIdDesc(loaded);
          }
        case Local(local) =>
          if local.Blob? {
            submissions := local.stored;
          }
      }
      isLoading := false;
    }

    /**
     * The submit handler, given the clock value `id`, the formatted `date`
     * and what the relay call gave.  It sends one record built from the
     * current fields; only an OK reply clears the form.
     */
    method HandleSubmit(id: int, date: string, relay: FetchOutcome) returns (sent: Submission)
      requires Valid()
      modifies this`name, this`message, this`attendance
      ensures Valid()
      ensures sent == Submission(id, old(name), old(message), old(attendance), date)
      ensures ResponseOk(relay) ==> name == "" && message == "" && attendance == Yes
      ensures !ResponseOk(relay) ==>
        name == old(name) && message == old(message) && attendance == old(attendance)
      ensures submissions == old(submissions) && isLoading == old(isLoading)
    {
      sent := Submission(id, name, message, attendance, date);
      if ResponseOk(relay) {
        name, message, attendance := "", "", Yes;
      }
    }
  }
}
