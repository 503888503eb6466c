/**
 * The notification route: it turns one posted response into one e-mail to
 * the host (subject and HTML body interpolated from the request) and maps the
 * outcome of that single send call to a JSON reply: 200 when the call
 * returns, 500 when it throws.
 */
module SendEmail {
  import opened Rsvp

  const Sender: string := "wedding@resend.dev"
  const Recipient: string := "mobilelegendsakk1@gmail.com"
  const SubjectPrefix: string := "Жаңа қонақ: "

  /** The phrases the host reads for each attendance choice. */
  const PhraseYes: string := "Иә, барамын"
  const PhraseMaybe: string := "Жұбайыммен барамын"
  const PhraseNo: string := "Келе алмаймын"

  /** The fixed text of the HTML body between the interpolated fields. */
  const BodyHead: string := "\n        <h2>Тойдан жаңа хабар</h2>\n  <p><strong>Аты-жөні:</strong> "
  const AfterName: string := "</p>\n  <p><strong>Келу жағдайы:</strong> "
  const AfterPhrase: string := "</p>\n  <p><strong>Тілегі:</strong> "
  const AfterMessage: string := "</p>\n  <p><strong>Жіберілген уақыты:</strong> "
  const BodyTail: string := "</p>\n      "

  const FailedToSend: string := "Failed to send"

  /** The posted JSON, field by field; `attendance` is whatever string the client sent. */
  datatype Request = Request(name: string, attendance: string, message: string, date: string)

  datatype Email = Email(from: string, to: string, subject: string, html: string)

  /** `{ success: true }` or `{ error: ... }`. */
  datatype ReplyBody = Success | Error(error: string)

  datatype Reply = Reply(status: int, body: ReplyBody)

  /** What one request did: the one e-mail it asked the relay to send, and its reply. */
  datatype Handled = Handled(sent: Email, reply: Reply)

  /** The nested conditional of the body: "yes", "maybe", and everything else. */
  function AttendancePhrase(attendance: string): (p: string)
    ensures attendance == "yes" ==> p == PhraseYes
    ensures attendance == "maybe" ==> p == PhraseMaybe
    ensures attendance != "yes" && attendance != "maybe" ==> p == PhraseNo
  {
    if attendance == "yes" then PhraseYes
    else if attendance == "maybe" then PhraseMaybe
    else PhraseNo
  }

  /** How the host reads a phrase back as the guest's choice. */
  function AttendanceOfPhrase(phrase: string): (a: Option<Attendance>) {
    if phrase == PhraseYes then Some(Yes)
    else if phrase == PhraseMaybe then Some(Maybe)
    else if phrase == PhraseNo then Some(No)
    else None
  }

  /** The three phrases are distinct, so the e-mail tells the host exactly what the form said. */
  lemma PhraseIdentifiesAttendance(a: Attendance)
    ensures AttendanceOfPhrase(AttendancePhrase(WireName(a))) == Some(a)
  {
    assert PhraseYes != PhraseMaybe by { assert PhraseYes[0] != PhraseMaybe[0]; }
    assert PhraseYes != PhraseNo by { assert PhraseYes[0] != PhraseNo[0]; }
    assert PhraseMaybe != PhraseNo by { assert PhraseMaybe[0] != PhraseNo[0]; }
  }

  function Subject(name: string): (s: string)
    ensures |s| == |SubjectPrefix| + |name|
    ensures s[..|SubjectPrefix|] == SubjectPrefix && s[|SubjectPrefix|..] == name
  {
    SubjectPrefix + name
  }

  /** The guest's name as read off a subject line, if the line has the prefix. */
  function NameOfSubject(subject: string): (name: Option<string>) {
    if |SubjectPrefix| <= |subject| && subject[..|SubjectPrefix|] == SubjectPrefix
    then Some(subject[|SubjectPrefix|..])
    else None
  }

  /** Every subject line names exactly one guest, and only subject lines do. */
  lemma SubjectRoundTrip(name: string, subject: string)
    ensures NameOfSubject(Subject(name)) == Some(name)
    ensures NameOfSubject(subject) == Some(name) <==> subject == Subject(name)
  {
    if NameOfSubject(subject) == Some(name) {
      assert subject == subject[..|SubjectPrefix|] + subject[|SubjectPrefix|..];
    }
  }

  function Body(req: Request): (html: string) {
    BodyHead + req.name + AfterName + AttendancePhrase(req.attendance)
      + AfterPhrase + req.message + AfterMessage + req.date + BodyTail
  }

  /** Does `part` appear in `s` starting at `at`? */
  predicate OccursAt(s: string, part: string, at: int) {
    0 <= at && at + |part| <= |s| && s[at..at + |part|] == part
  }

  /** Where each interpolated field starts in the body. */
  function NameAt(): (at: nat) { |BodyHead| }
  function PhraseAt(req: Request): (at: nat) { NameAt() + |req.name| + |AfterName| }
  function MessageAt(req: Request): (at: nat) {
    PhraseAt(req) + |AttendancePhrase(req.attendance)| + |AfterPhrase|
  }
  function DateAt(req: Request): (at: nat) { MessageAt(req) + |req.message| + |AfterMessage| }

  /** A string just appended occurs where it was appended. */
  lemma {:induction false} OccursAtEnd(pre: string, part: string)
    ensures OccursAt(pre + part, part, |pre|)
  {
    var s := pre + part;
    assert s[|pre|..] == part;
  }

  /** Appending to a string keeps every occurrence in it. */
  lemma {:induction false} OccursExtended(s: string, more: string, part: string, at: int)
    requires OccursAt(s, part, at)
    ensures OccursAt(s + more, part, at)
  {
    assert (s + more)[at..at + |part|] == s[at..at + |part|];
  }

  /** Four fields spliced between five separators each occur where their separators put them. */
  lemma {:induction false} SplicedFields(
    s0: string, f1: string, s1: string, f2: string, s2: string,
    f3: string, s3: string, f4: string, s4: string)
    ensures var s := s0 + f1 + s1 + f2 + s2 + f3 + s3 + f4 + s4;
      && OccursAt(s, f1, |s0|)
      && OccursAt(s, f2, |s0 + f1 + s1|)
      && OccursAt(s, f3, |s0 + f1 + s1 + f2 + s2|)
      && OccursAt(s, f4, |s0 + f1 + s1 + f2 + s2 + f3 + s3|)
  {
    var p1 := s0;
    var p2 := p1 + f1 + s1;
    var p3 := p2 + f2 + s2;
    var p4 := p3 + f3 + s3;
    OccursAtEnd(p1, f1);
    OccursExtended(p1 + f1, s1, f1, |p1|);
    OccursExtended(p2, f2, f1, |p1|);
    OccursExtended(p2 + f2, s2, f1, |p1|);
    OccursExtended(p3, f3, f1, |p1|);
    OccursExtended(p3 + f3, s3, f1, |p1|);
    OccursExtended(p4, f4, f1, |p1|);
    OccursExtended(p4 + f4, s4, f1, |p1|);
    OccursAtEnd(p2, f2);
    OccursExtended(p2 + f2, s2, f2, |p2|);
    OccursExtended(p3, f3, f2, |p2|);
    OccursExtended(p3 + f3, s3, f2, |p2|);
    OccursExtended(p4, f4, f2, |p2|);
    OccursExtended(p4 + f4, s4, f2, |p2|);
    OccursAtEnd(p3, f3);
    OccursExtended(p3 + f3, s3, f3, |p3|);
    OccursExtended(p4, f4, f3, |p3|);
    OccursExtended(p4 + f4, s4, f3, |p3|);
    OccursAtEnd(p4, f4);
    OccursExtended(p4 + f4, s4, f4, |p4|);
  }

  /**
   * The body carries the name, the attendance phrase, the message and the
   * date verbatim, in that order, without overlapping.
   */
  lemma BodyCarriesFields(req: Request)
    ensures OccursAt(Body(req), req.name, NameAt())
    ensures OccursAt(Body(req), AttendancePhrase(req.attendance), PhraseAt(req))
    ensures OccursAt(Body(req), req.message, MessageAt(req))
    ensures OccursAt(Body(req), req.date, DateAt(req))
    ensures NameAt() + |req.name| < PhraseAt(req)
    ensures PhraseAt(req) + |AttendancePhrase(req.attendance)| < MessageAt(req)
    ensures MessageAt(req) + |req.message| < DateAt(req)
  {
    SplicedFields(BodyHead, req.name, AfterName, AttendancePhrase(req.attendance),
      AfterPhrase, req.message, AfterMessage, req.date, BodyTail);
  }

  /**
   * The one e-mail a request asks the relay to send: from the fixed sender to
   * the fixed recipient, a subject naming the guest, and a body carrying the
   * four fields verbatim and in order.
   */
  function Compose(req: Request): (e: Email)
    ensures e.from == Sender && e.to == Recipient
    ensures e.subject == Subject(req.name) && NameOfSubject(e.subject) == Some(req.name)
    ensures e.html == Body(req)
    ensures OccursAt(e.html, req.name, NameAt())
    ensures OccursAt(e.html, AttendancePhrase(req.attendance), PhraseAt(req))
    ensures OccursAt(e.html, req.message, MessageAt(req))
    ensures OccursAt(e.html, req.date, DateAt(req))
  {
    SubjectRoundTrip(req.name, Subject(req.name));
    BodyCarriesFields(req);
    Email(Sender, Recipient, Subject(req.name), Body(req))
  }

  /**
   * The route's POST handler, given whether its single send call returned
   * (rather than threw): the reply is 200 with `{ success: true }` exactly
   * when it returned, whatever the relay's answer, otherwise 500 with the
   * fixed error text.
   */
  function Post(req: Request, sendReturned: bool): (h: Handled)
    ensures h.sent == Compose(req)
    ensures h.reply.status == 200 <==> sendReturned
    ensures h.reply.status == 500 <==> !sendReturned
    ensures h.reply.body.Success? <==> sendReturned
    ensures !sendReturned ==> h.reply.body == Error(FailedToSend)
  {
    var email := Compose(req);
    if sendReturned then Handled(email, Reply(200, Success))
    else Handled(email, Reply(500, Error(FailedToSend)))
  }
}
