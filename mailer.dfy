/**
  The notifier, `send_email`: the rate-limiting decision that lets a routine
  ("boring") message through only in the first CRONJOB_FREQUENCY seconds of
  every BORING_EMAIL_FREQUENCY-second period but a forced one always, and the
  plain-text message it hands to the mail relay, laid out as section 2.1 of
  RFC 5322 describes (header lines ending in CRLF, an empty line, the body).
 */
module Mailer {

  datatype Option<T> = None | Some(value: T)

  /** The `[Email]` section of the configuration file. */
  datatype EmailConfig = EmailConfig(
    fromEmail: string,
    toEmail: string,
    boringEmailFrequency: int,  // the period, in seconds
    cronjobFrequency: int,      // the window at the start of each period, in seconds
    boringSubject: string,
    excitingSubject: string)

  /** Python's `a % b`: the remainder takes the sign of the divisor. */
  function PyMod(a: int, b: int): (r: int)
    requires b != 0
    ensures b > 0 ==> 0 <= r < b
    ensures b < 0 ==> b < r <= 0
    ensures exists q :: a == q * b + r
  {
    if b > 0 then
      assert a == (a / b) * b + a % b;
      a % b
    else
      var m, x := -b, -a;
      assert x == (x / m) * m + x % m;
      assert a == (x / m) * b + -(x % m);
      -(x % m)
  }

  /** The test `send_email` makes before doing anything: the clock `now`, in
      whole seconds, falls in the window at the start of its period, or the
      message is forced. */
  predicate ShouldSend(now: int, boringEmailFrequency: int, cronjobFrequency: int, force: bool)
    requires boringEmailFrequency != 0
  {
    PyMod(now, boringEmailFrequency) < cronjobFrequency || force
  }

  /** The message text `send_email` builds. */
  function EmailText(fromEmail: string, toEmail: string, subject: string, body: string): string {
    "From: " + fromEmail + "\r\nTo: " + toEmail + "\r\nSubject: " + subject + "\r\n\r\n" + body
  }

  /** What one call of `send_email` hands to the mail relay: the message text
      when the call gets past the rate limit, nothing when it is suppressed. */
  function SendEmail(cfg: EmailConfig, now: int, subject: string, body: string,
                     fromEmail: string, toEmail: string, force: bool): (r: Option<string>)
    requires cfg.boringEmailFrequency != 0
    ensures r.Some? ==> r.value == EmailText(fromEmail, toEmail, subject, body)
    ensures r.Some? <==> (force || PyMod(now, cfg.boringEmailFrequency) < cfg.cronjobFrequency)
  {
    if ShouldSend(now, cfg.boringEmailFrequency, cfg.cronjobFrequency, force)
    then Some(EmailText(fromEmail, toEmail, subject, body))
    else None
  }

  // ---------------------------------------------------------------------
  // The rate limit, stated without the remainder operator.
  // ---------------------------------------------------------------------

  /** `now` lies in the first `window` seconds of the `k`-th period. */
  predicate InWindow(now: int, k: int, period: int, window: int) {
    k * period <= now < k * period + window
  }

  /** `now` lies in the `k`-th period. */
  predicate InPeriod(now: int, k: int, period: int) {
    k * period <= now < k * period + period
  }

  /** Whole periods are at least a period apart. */
  lemma {:induction false} PeriodsApart(i: int, k: int, period: int)
    requires period > 0 && i < k
    ensures i * period + period <= k * period
    decreases k - i
  {
    if i + 1 < k {
      PeriodsApart(i + 1, k, period);
      assert (i + 1) * period == i * period + period;
    } else {
      assert k * period == i * period + period;
    }
  }

  /** With a positive period, the period that `now` lies in is `now / period`
      and the offset into it is `now % period`. */
  lemma {:induction false} PeriodOf(now: int, k: int, period: int)
    requires period > 0
    requires InPeriod(now, k, period)
    ensures now / period == k && PyMod(now, period) == now - k * period
  {
    var q, r := now / period, now % period;
    assert now == q * period + r && 0 <= r < period;
    if q < k {
      PeriodsApart(q, k, period);
    } else if q > k {
      PeriodsApart(k, q, period);
    }
  }

  /** A routine message goes out exactly when the clock is in the first
      `cronjobFrequency` seconds of some period. */
  lemma {:induction false} ShouldSendIff(now: int, boringEmailFrequency: int, cronjobFrequency: int)
    requires boringEmailFrequency > 0
    ensures ShouldSend(now, boringEmailFrequency, cronjobFrequency, false)
      <==> exists k :: InWindow(now, k, boringEmailFrequency, cronjobFrequency)
  {
    var b, c := boringEmailFrequency, cronjobFrequency;
    var q := now / b;
    PeriodOf(now, q, b);
    if ShouldSend(now, b, c, false) {
      assert InWindow(now, q, b, c);
    }
    if k :| InWindow(now, k, b, c) {
      if k > q {
        PeriodsApart(q, k, b);
      } else if k < q {
        PeriodsApart(k, q, b);
      }
    }
  }

  /** The decision repeats with the period. */
  lemma {:induction false} ShouldSendPeriodic(now: int, k: int, boringEmailFrequency: int,
                                              cronjobFrequency: int, force: bool)
    requires boringEmailFrequency > 0
    ensures ShouldSend(now + k * boringEmailFrequency, boringEmailFrequency, cronjobFrequency, force)
        == ShouldSend(now, boringEmailFrequency, cronjobFrequency, force)
  {
    var b := boringEmailFrequency;
    var q := now / b;
    PeriodOf(now, q, b);
    assert InPeriod(now + k * b, q + k, b) by {
      assert (q + k) * b == q * b + k * b;
    }
    PeriodOf(now + k * b, q + k, b);
    assert (q + k) * b == q * b + k * b;
  }

  /** The time of the `j`-th run of a job started at `t0` and repeated every
      `every` seconds. */
  function RunTime(t0: int, j: int, every: int): int {
    t0 + j * every
  }

  /** When the job runs every `cronjobFrequency` seconds and that is no longer
      than the period, exactly one run in every period sends the routine
      message. */
  lemma {:induction false} OneRoutineSendPerPeriod(t0: int, k: int, boringEmailFrequency: int, cronjobFrequency: int)
    requires 0 < cronjobFrequency <= boringEmailFrequency
    ensures exists j :: InPeriod(RunTime(t0, j, cronjobFrequency), k, boringEmailFrequency)
                     && ShouldSend(RunTime(t0, j, cronjobFrequency), boringEmailFrequency, cronjobFrequency, false)
    ensures forall j1, j2 ::
              && InPeriod(RunTime(t0, j1, cronjobFrequency), k, boringEmailFrequency)
              && ShouldSend(RunTime(t0, j1, cronjobFrequency), boringEmailFrequency, cronjobFrequency, false)
              && InPeriod(RunTime(t0, j2, cronjobFrequency), k, boringEmailFrequency)
              && ShouldSend(RunTime(t0, j2, cronjobFrequency), boringEmailFrequency, cronjobFrequency, false)
              ==> j1 == j2
  {
    var b, c := boringEmailFrequency, cronjobFrequency;
    // the first run at or after the start of the k-th period
    var d := k * b - t0;
    var j := (d + c - 1) / c;
    assert d <= j * c < d + c by {
      var r := (d + c - 1) % c;
      assert j * c == d + c - 1 - r;
    }
    var t := RunTime(t0, j, c);
    assert InWindow(t, k, b, c);
    assert InPeriod(t, k, b);
    PeriodOf(t, k, b);
    assert ShouldSend(t, b, c, false);
    forall j1, j2 |
      && InPeriod(RunTime(t0, j1, c), k, b) && ShouldSend(RunTime(t0, j1, c), b, c, false)
      && InPeriod(RunTime(t0, j2, c), k, b) && ShouldSend(RunTime(t0, j2, c), b, c, false)
      ensures j1 == j2
    {
      PeriodOf(RunTime(t0, j1, c), k, b);
      PeriodOf(RunTime(t0, j2, c), k, b);
      if j1 < j2 {
        PeriodsApart(j1, j2, c);
      } else if j2 < j1 {
        PeriodsApart(j2, j1, c);
      }
    }
  }

  // ---------------------------------------------------------------------
  // The message layout, and reading it back.
  // ---------------------------------------------------------------------

  /** A message read back into its parts. */
  datatype Message = Message(fromEmail: string, toEmail: string, subject: string, body: string)

  /** True if `s` holds neither CR nor LF, as an unfolded header field value
      must not (section 2.2 of RFC 5322). */
  predicate NoLineBreak(s: string) {
    forall k :: 0 <= k < |s| ==> s[k] != '\r' && s[k] != '\n'
  }

  /** Splits `s` at its first CRLF into the line before it and the rest after
      it; none when `s` holds no CRLF. */
  function SplitLine(s: string): Option<(string, string)> {
    if |s| < 2 then None
    else if s[0] == '\r' && s[1] == '\n' then Some(([], s[2..]))
    else match SplitLine(s[1..])
      case None => None
      case Some((line, rest)) => Some(([s[0]] + line, rest))
  }

  /** Strips the header name `name` off a header line. */
  function FieldValue(line: string, name: string): Option<string> {
    if |name| <= |line| && line[..|name|] == name then Some(line[|name|..]) else None
  }

  /** Reads a message laid out by `EmailText` back into its parts: three
      CRLF-terminated header lines (From, To, Subject), an empty line, and the
      body, which is all that follows. */
  function ParseMessage(text: string): Option<Message> {
    match SplitLine(text)
    case None => None
    case Some((l1, r1)) =>
      match SplitLine(r1)
      case None => None
      case Some((l2, r2)) =>
        match SplitLine(r2)
        case None => None
        case Some((l3, r3)) =>
          match (FieldValue(l1, "From: "), FieldValue(l2, "To: "), FieldValue(l3, "Subject: "))
          case (Some(f), Some(t), Some(s)) =>
            if |r3| >= 2 && r3[..2] == "\r\n" then Some(Message(f, t, s, r3[2..])) else None
          case _ => None
  }

  lemma {:induction false} SplitLineOf(line: string, rest: string)
    requires forall k :: 0 <= k < |line| ==> line[k] != '\r'
    ensures SplitLine(line + "\r\n" + rest) == Some((line, rest))
  {
    var s := line + "\r\n" + rest;
    if line == [] {
      assert s[2..] == rest;
    } else {
      assert s[1..] == line[1..] + "\r\n" + rest;
      SplitLineOf(line[1..], rest);
      assert [line[0]] + line[1..] == line;
    }
  }

  /** The message `send_email` builds reads back into the sender, recipient,
      subject and body it was built from, provided the three header values
      hold no line break. */
  lemma {:induction false} EmailTextRoundTrip(fromEmail: string, toEmail: string, subject: string, body: string)
    requires NoLineBreak(fromEmail) && NoLineBreak(toEmail) && NoLineBreak(subject)
    ensures ParseMessage(EmailText(fromEmail, toEmail, subject, body))
         == Some(Message(fromEmail, toEmail, subject, body))
  {
    var l1, l2, l3 := "From: " + fromEmail, "To: " + toEmail, "Subject: " + subject;
    var r3 := "\r\n" + body;
    var r2 := l3 + "\r\n" + r3;
    var r1 := l2 + "\r\n" + r2;
    assert EmailText(fromEmail, toEmail, subject, body) == l1 + "\r\n" + r1;
    SplitLineOf(l1, r1);
    SplitLineOf(l2, r2);
    SplitLineOf(l3, r3);
    assert l1[|"From: "|..] == fromEmail;
    assert l2[|"To: "|..] == toEmail;
    assert l3[|"Subject: "|..] == subject;
    assert r3[2..] == body;
  }
}
