# TeslaScrub, modelled in Dafny

TeslaScrub is a watchdog run periodically from cron. It logs into the Tesla
account site and collects the reservation numbers of the cars on the profile
page. Then it emails a summary. Numbers are expected to start with "RN". A
number that does not escalates the subject and forces the email out at once.
Otherwise the routine ("boring") summary is let through only in the first
CRONJOB_FREQUENCY seconds of every BORING_EMAIL_FREQUENCY-second period.

The model covers the decision logic of `teslascrub.py`:

- `PyStr` (`py_str.dfy`) holds the Python string semantics the code uses:
  `str.strip()` with Python's whitespace set, `str.lower()` and the clamped
  slice `s[0:2]`.
- `Mailer` (`mailer.dfy`) models `send_email`. It holds the rate-limit test
  with Python's `%`, the message text and what one call hands to the mail
  relay. It also reads a message back in the layout of section 2.1 of RFC 5322
  (CRLF-terminated header lines, an empty line, the body), and states the
  rate limit as "the clock is in the first window of some period".
- `Scrubber` (`scrubber.dfy`) holds the class `ProfileScrubber`. Its fields
  `csrfToken`, `profilePage` and `reservationNumbers` are updated in place, as
  in the source. Its methods model the token check of `get_csrf_token`, the
  empty-page check of `log_in`, the append loop of `find_reservation_numbers`,
  the summary loop of `scrub`, and `scrub` itself. `Run` is the `__main__`
  block. It makes a fresh scrubber, and when scrubbing raises it sends a
  forced error message.

HTML parsing and HTTP are parameters. The login page enters as a `CsrfInput`:
no `_csrf` input, or one with or without a `value`. The login response enters
as its text. The profile page enters as its sequence of `car-link` elements,
each with the text of its nested `notranslate` span if it has one. The clock
enters as whole seconds, and the `[Email]` configuration section as an
`EmailConfig`. What `send_email` would hand to the mail relay is returned as
`Some(text)`, and a suppressed message as `None`.

Some consequences of the code that a reader might not expect:

- Extraction is not idempotent. `find_reservation_numbers` appends to the
  instance list (teslascrub.py:137), so a second call on the same scrubber
  appends the numbers again. `FindReservationNumbers` states the append.
- After its loop, extraction fails only if the whole instance list is empty,
  including numbers held from before (teslascrub.py:140-143). It does not
  check whether this call added anything.
- An HTTP failure raises `requests.HTTPError` (teslascrub.py:82, 115), which
  `__main__` does not catch (teslascrub.py:176), so no error email goes out.
- A span holding only whitespace gives an empty number. That number has no
  "RN" prefix, so it escalates the summary.

## Model

| member | source | states |
|---|---|---|
| `PyStr.TrimStartSpec` | teslascrub.py:137 | the leading-whitespace trim drops only whitespace and stops at the first character that is not whitespace |
| `PyStr.TrimEndSpec` | teslascrub.py:137 | the trailing-whitespace trim drops only whitespace and stops at the last character that is not whitespace |
| `PyStr.Strip` | teslascrub.py:137 | `.strip()` gives a string no longer than its input that neither begins nor ends with whitespace |
| `PyStr.StripSpec` | teslascrub.py:137 | the stripped text is a contiguous piece of the input with only whitespace on either side of it |
| `PyStr.StripPadded` | teslascrub.py:137 | stripping undoes any whitespace padding around a text that has none at its ends |
| `PyStr.StripIdempotent` | teslascrub.py:137 | stripping twice is stripping once |
| `Mailer.PyMod` | teslascrub.py:45 | Python's `%` gives a remainder with the sign of the divisor, smaller in size than the divisor, that differs from the dividend by a multiple of the divisor |
| `Mailer.SendEmail` | teslascrub.py:44-48 | whatever is handed to the relay is the From/To/Subject message built from the arguments; a call hands it over exactly when it is forced or the clock modulo the period is below the window |
| `Mailer.PeriodOf` | teslascrub.py:45 | for a clock inside the k-th period, the remainder is the offset from that period's start |
| `Mailer.ShouldSendIff` | teslascrub.py:45-47 | a routine message goes out exactly when the clock lies in the first CRONJOB_FREQUENCY seconds of some period |
| `Mailer.ShouldSendPeriodic` | teslascrub.py:45-47 | the send decision is the same one whole period later or earlier |
| `Mailer.OneRoutineSendPerPeriod` | teslascrub.py:45-47 | with runs every CRONJOB_FREQUENCY seconds and a window no longer than the period, exactly one run per period sends the routine message |
| `Mailer.EmailTextRoundTrip` | teslascrub.py:48 | the message text reads back (three CRLF header lines, an empty line, the body) into the sender, recipient, subject and body it was built from, when the header values hold no line break |
| `Scrubber.CsrfToken` | teslascrub.py:89-96 | the token is accepted exactly when the `_csrf` input exists and has a non-empty value, and it is then that value; otherwise the error is "Could not find CSRF token in login page." |
| `Scrubber.ProfileScrubber.constructor` | teslascrub.py:68-75 | a new scrubber holds the recipient it was given and no reservation numbers |
| `Scrubber.ProfileScrubber.GetCsrfToken` | teslascrub.py:89-96 | stores the token and passes when `CsrfToken` accepts it; otherwise fails with that error and holds an empty token |
| `Scrubber.ProfileScrubber.LogIn` | teslascrub.py:116-119 | stores the response text as the profile page and fails with "Profile page failed to load." exactly when it is empty |
| `Scrubber.ProfileScrubber.FindReservationNumbers` | teslascrub.py:128-144 | with no car links, fails with "No cars were found…" and changes nothing; otherwise appends the stripped span texts in document order to the numbers already held, and fails with "Could not find any reservation numbers…" exactly when the whole list is then empty |
| `Scrubber.SpanNumbersSnoc` | teslascrub.py:135-139 | one more car link adds its stripped span text at the end, or nothing when it has no span |
| `Scrubber.SpanNumbersAppend` | teslascrub.py:135-139 | the numbers of two runs of links are the first run's numbers followed by the second's |
| `Scrubber.SpanNumbersAt` | teslascrub.py:135-139 | the link at position i contributes its stripped span text between the numbers of the links before it and after it; a link without a span contributes nothing and raises no error |
| `Scrubber.SpanNumbersEmpty` | teslascrub.py:135-144 | no number is collected exactly when no car link has a span |
| `Scrubber.SpanNumbersShape` | teslascrub.py:135-139 | at most one number per car link, and every number is stripped |
| `Scrubber.HasRnPrefixIff` | teslascrub.py:156 | `rn.lower()[0:2] == "rn"` holds exactly when the number has at least two characters, the first `r`/`R` and the second `n`/`N` |
| `Scrubber.EscalatesIff` | teslascrub.py:152-159 | the loop's escalation ends set exactly when some number lacks the "RN" prefix |
| `Scrubber.EscalatesAppend` | teslascrub.py:155-159 | once escalated, later numbers never undo it; a run escalates exactly when one of its parts does |
| `Scrubber.LineRoundTrip` | teslascrub.py:156-161 | each body line reads back into its number and whether that number still had the "RN" prefix |
| `Scrubber.BodyAppend` | teslascrub.py:151-161 | the body of two runs of numbers is the first run's body followed by the second's |
| `Scrubber.BodySnoc` | teslascrub.py:155-161 | one more number adds exactly its line at the end of the body |
| `Scrubber.BodyAt` | teslascrub.py:155-161 | the i-th number's line sits after the lines of the numbers before it and before those of the numbers after it |
| `Scrubber.BoringExample` | teslascrub.py:151-161 | `["RN12345"]` gives no escalation and the single line "Reservation number RN12345 is still boring." |
| `Scrubber.ExcitingExample` | teslascrub.py:151-161 | `["RN12345", "XY999"]` escalates, and its body has the boring line, then the "missing 'RN'" line |
| `Scrubber.ProfileScrubber.Summarize` | teslascrub.py:151-161 | the body is one `Line(rn)` per held number `rn`, in order; the force flag is set exactly when some number lacks the "RN" prefix; the subject is the exciting one exactly when the flag is set |
| `Scrubber.ProfileScrubber.Scrub` | teslascrub.py:146-164 | the first failing check decides the error (token, then empty page, then no car links, then no numbers); the scrubber then holds the accepted token (or `""`), the response text once the token passed, and its old numbers after the first three errors; otherwise the numbers are the old ones plus the extracted ones, and the result is what `send_email` hands to the relay for their summary, addressed to the scrubber's recipient |
| `Scrubber.Run` | teslascrub.py:167-181 | a failed run always sends the error subject and the error message to the configured recipient, because the send is forced; a successful run sends or suppresses the summary of the extracted numbers |

## Left out

- HTTP: the session, the GET and POST requests, cookies, `raise_for_status` and the Origin, User-Agent and Referer headers. This is network I/O, and Origin depends on `urlparse`. The account username and password only feed the POST, so the scrubber does not hold them.
- BeautifulSoup parsing. The model receives what the parser would find: the `_csrf` input and the `car-link` elements with their span texts.
- SMTP: the connection, EHLO, STARTTLS, login, `sendmail`, and the swallowing of delivery exceptions. These are external I/O. The model stops at the text handed to the relay.
- Logging: the rotating file handler, every `log.*` call, and the "minutes left" estimate with its float rounding. These only produce log output.
- Configuration loading: ConfigParser, module globals and the `int(...)` conversions. Values arrive as an `EmailConfig`.
- A zero BORING_EMAIL_FREQUENCY. Python raises ZeroDivisionError for it, so `SendEmail`, `Scrub` and `Run` require it to be non-zero.
- The floating-point clock. `time.time()` becomes whole seconds `now`. For a positive period `p` and an integer window `w`, `floor(t) % p < w` holds exactly when `t % p < w`, so nothing is lost there.
- Mailer.SendEmail: for a negative BORING_EMAIL_FREQUENCY the whole-second clock can decide differently from Python's float clock (with period -2, window 0 and clock 2.5, Python's `2.5 % -2` is -1.5 and sends, while `2 % -2` is 0 and does not). Such a period makes no sense as a configuration, and the model keeps the integer decision.
- Non-ASCII case mapping of `str.lower()`: `Lower` maps only ASCII letters. No other character lower-cases to a string starting with `r` or `n`, so `HasRnPrefix` agrees with Python on every input.
- Scrubber.ProfileScrubber.GetCsrfToken: on failure Python leaves `csrf_token` as `None` or `""`; the model holds `""` in both cases.
