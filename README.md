# Wedding invitation page: RSVP state and notification route

This project models the logic of a single-event wedding invitation page and
of its e-mail notification route. The page is a React client component and
the route is a Next.js API handler. Everything else in the page is markup and
styling. The modelled logic is:

- **Countdown** (`countdown.dfy`): one tick of the countdown. A positive
  millisecond distance to the wedding is split into days, hours, minutes and
  seconds by fixed-radix integer division.
- **Loader** (`loader.dfy`): the pure part of the loader that runs on mount.
  It keeps the keys whose stored value fetched and parsed, in key order, and
  sorts them newest first, descending by `id`.
- **Notification route** (`send_email.dfy`): the `POST` handler. It maps
  the attendance string to a fixed Kazakh phrase and interpolates the
  subject and the HTML body. It makes one send and maps its outcome to a
  200 or a 500 JSON reply.
- **Page state** (`page.dfy`): the class `PageState` holds the page's state
  hooks (`name`, `message`, `attendance`, `isLoading`, `submissions`,
  `timeLeft`). Its three handlers change them:
  - `UpdateCountdown` is one countdown tick.
  - `LoadSubmissions` is the loader. Its `for` loop is a `while` loop here.
  - `HandleSubmit` is the form's submit handler.
- **Records** (`rsvp.dfy`): the `Submission` record and the attendance
  choice shared by the other modules.

The outside world enters as parameters:

- the clock reading and the target instant of the countdown;
- the clock value used as `id` and the formatted `date` of a submission;
- what the key/value store or the local fallback returned, per key;
- whether the relay `fetch` replied, and with what status;
- whether the route's one send call returned or threw.

Facts about the code that the model keeps:

- A failed load leaves `submissions` as it was; it is not cleared. Before
  loading, the value is the initial `[]`.
- The submit handler never writes to the store. It only calls the relay.
- The countdown is not clamped at zero after the target passes. The last
  value stays on display.
- The local fallback installs the stored array in its stored order. It is
  not sorted.
- `submissions` and `isLoading` are state the page sets but never reads
  (app/page.tsx:18, 30): the loaded list is not rendered.

## Model

| member | source | states |
|---|---|---|
| `Countdown.Decompose` | app/page.tsx:177-183 | for a positive distance, days are non-negative, hours lie in 0..23, minutes and seconds in 0..59 |
| `Countdown.DecomposeRecomposes` | app/page.tsx:179-182 | `days*86400 + hours*3600 + minutes*60 + seconds` equals the distance's whole seconds, `distance / 1000` |
| `Countdown.RecomposeDecomposes` | app/page.tsx:179-182 | every well-formed countdown, with any sub-second remainder, decomposes back to itself, so the decomposition is the unique one |
| `Countdown.DecomposeExample` | app/page.tsx:179-182 | 90 061 000 ms is 1 day, 1 hour, 1 minute and 1 second |
| `Page.PageState.constructor` | app/page.tsx:15-37 | initial state: empty name and message, attendance `yes`, loading, no submissions, a zero countdown |
| `Page.PageState.UpdateCountdown` | app/page.tsx:173-185 | a positive distance installs its decomposition, which sums to the distance's whole seconds; a distance of zero or less leaves the countdown unchanged; the countdown stays within its radix |
| `Loader.Collect` | app/page.tsx:48-60 | the collected list is never longer than the key list |
| `Loader.CollectConcat` | app/page.tsx:50-60 | collecting a key list is collecting each part and concatenating, so a skipped key does not stop the keys after it |
| `Loader.CollectCount` | app/page.tsx:51-59 | each submission appears in the collected list exactly as many times as a key fetched and parsed to it; failed fetches, missing or empty values and parse failures contribute nothing |
| `Loader.CollectMembership` | app/page.tsx:51-59 | a submission is collected if and only if some key fetched and parsed to it |
| `Loader.InsertByIdDesc` | app/page.tsx:62 | inserting one submission adds exactly it and keeps a newest-first list newest first |
| `Loader.SortByIdDesc` | app/page.tsx:62 | the sort by `b.id - a.id` returns a permutation of its input with ids non-increasing |
| `Loader.SortKeepsSorted` | app/page.tsx:62 | a list already newest first is returned unchanged |
| `Loader.SortIdempotent` | app/page.tsx:62 | sorting the sorted list again yields the same sequence |
| `Loader.SortExample` | app/page.tsx:62 | ids 5, 3, 9 are ordered 9, 5, 3 |
| `Page.PageState.LoadSubmissions` | app/page.tsx:41-78 | `isLoading` ends false on every path; a non-empty key list installs exactly the parsed values, sorted newest first; a failed or empty `list` leaves `submissions` unchanged; the fallback installs a parsed blob in its own order and otherwise leaves `submissions` unchanged |
| `Page.PageState.HandleSubmit` | app/page.tsx:126-167 | the sent record carries the given id and date and the fields as they were before the call; an OK reply clears name and message and resets attendance to `yes`; a non-OK reply or a network error leaves the three fields unchanged; `submissions` and `isLoading` never change |
| `Page.RequestOf` | app/page.tsx:129-151 | the JSON the route receives carries the record's name, message and date, and an attendance spelling that reads back as the record's choice |
| `Page.FormResetsIffSendReturned` | app/page.tsx:153-162 | the form is reset if and only if the route's send call returned instead of throwing, and the host's e-mail names the guest's own attendance choice |
| `Rsvp.WireName` | app/page.tsx:19 | an attendance choice is spelled `yes`, `maybe` or `no` |
| `Rsvp.WireNameRoundTrip` | app/page.tsx:27 | every attendance spelling reads back as the choice it came from |
| `SendEmail.AttendancePhrase` | app/api/send-email/route.ts:17 | `yes` gives "Иә, барамын", `maybe` gives "Жұбайыммен барамын", and any other string, `no` included, gives "Келе алмаймын" |
| `SendEmail.PhraseIdentifiesAttendance` | app/api/send-email/route.ts:17 | the three phrases are distinct, so the phrase in the e-mail determines the form's choice |
| `SendEmail.Subject` | app/api/send-email/route.ts:13 | the subject is exactly the prefix "Жаңа қонақ: " followed by the name |
| `SendEmail.SubjectRoundTrip` | app/api/send-email/route.ts:13 | stripping the prefix recovers the name, and a line yields a name only if it is that name's subject |
| `SendEmail.BodyCarriesFields` | app/api/send-email/route.ts:14-20 | the HTML body contains the name, the attendance phrase, the message and the date verbatim, in that order, without overlap |
| `SendEmail.Compose` | app/api/send-email/route.ts:10-21 | the one e-mail goes from the fixed sender to the fixed recipient, its subject is the prefix followed by the name, and its HTML body carries the name, the attendance phrase, the message and the date verbatim, in that order |
| `SendEmail.Post` | app/api/send-email/route.ts:6-27 | for a request with four string fields, one e-mail is composed; a send call that returns replies 200 with `{ success: true }`; a send call that throws replies 500 with `{ error: 'Failed to send' }` |

## Left out

- Markup, inline styles, the CSS block, animations, images, the map and
  Instagram links (app/page.tsx:193-1036): presentation only.
- Audio autoplay, the click-listener fallback and `toggleMusic`, with
  `isPlaying` and `isVisible` (app/page.tsx:83-122): they depend on the
  browser's media and DOM behaviour.
- `setInterval`, `clearInterval` and the effect lifecycle
  (app/page.tsx:187-190): timer plumbing. Only one tick is modelled.
- The target instant `new Date('2025-12-23T19:00:00')` is parsed in the host's
  local time zone, so its millisecond value is a parameter of
  `UpdateCountdown`.
- `Date.now()` and `toLocaleString('ru-RU', …)`: clock and locale library
  calls. `HandleSubmit` takes `id` and `date` as inputs.
- `window.storage`, `localStorage`, `fetch` and `JSON.parse`/`JSON.stringify`
  are external. Their outcomes are inputs: per-key `GetOutcome` values in
  key order, a `ListOutcome`, a `LocalOutcome`, a `FetchOutcome`. A parsed
  value is assumed to have the shape of a `Submission`. Other shapes are not
  modelled. For example, a stored value `"null"` parses to `null`, which the
  loop pushes. With two or more loaded values, the sort's comparator then
  reads `null.id` and throws. The outer `catch` keeps the old `submissions`,
  so one such key loses the whole load. With a single loaded value the
  comparator is never called, and `[null]` is installed.
  A `localStorage.getItem` that throws is treated like a blob that fails to
  parse, because both end in the same `catch`.
- The required-field checks are HTML attributes in the markup, not part of
  `handleSubmit`. The handler does not check for empty fields, and neither
  does the model.
- `alert` texts and `console` logging.
- The `Resend` client and its delivery (app/api/send-email/route.ts:1-4, 10):
  a foreign library call. Whether the send call returned or threw is the
  `sendReturned` input of `Post`.
- SendEmail.Post: a request whose JSON body is `null` is not modelled,
  because `Request` always has four string fields. For that body,
  `request.json()` returns `null`. Reading `data.name` while building the
  send's argument (route.ts:13) then throws inside the `try`. The route
  answers 500 with `{ error: 'Failed to send' }` without attempting any send,
  so no e-mail is composed for that request.
- SendEmail.Post: a send that the relay rejects but reports in the `error`
  field of its returned value, rather than by throwing, is still answered
  200 with `{ success: true }`. The route discards the returned value
  (route.ts:10, 23), so the page then resets its form as if the e-mail had
  gone out. The model cannot tell such a rejection from a delivered e-mail.
  The API key hard-coded at route.ts:4 is a credential exposure. It is a
  security defect, not modelled behaviour.
- `request.json()` at route.ts:7 runs outside the route's `try`. A malformed
  request body therefore fails before any send, with the framework's own
  error reply, which is not modelled. The route's request fields are modelled
  as strings. A missing field, which the template would print as
  `undefined`, is not modelled.
- Loader.SortByIdDesc: stability (equal ids keep their key order) holds by
  construction, but no lemma states it.
