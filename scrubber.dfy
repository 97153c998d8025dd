/**
  The profile scrubber: it checks the login page for an anti-forgery token,
  checks that logging in gave back a profile page, collects the reservation
  numbers of the cars on that page, and summarises them in one message whose
  subject and force flag escalate as soon as a number does not start with
  "RN". HTML parsing and HTTP are left to the caller: the login form's `_csrf`
  input and the profile page's car links reach the model already parsed.
 */
module Scrubber {
  import opened PyStr
  import opened Mailer

  /** The one exception the scrubber raises; it carries its message. */
  datatype ScrubbingError = ScrubbingError(message: string)

  /** A step's value, or the error it raised; a step that only checks
      something returns `Result<()>`. */
  datatype Result<T> = Ok(value: T) | Err(error: ScrubbingError)

  const CsrfMissingMessage := "Could not find CSRF token in login page."
  const ProfileMissingMessage := "Profile page failed to load."
  const NoCarsMessage := "No cars were found in the profile page!"
  const NoNumbersMessage := "Could not find any reservation numbers on the profile page!"

  /** The subject of the message sent when scrubbing fails. */
  const ErrorSubject := "Something went wrong with Tesla profile scrubber"

  // ---------------------------------------------------------------------
  // The anti-forgery token.
  // ---------------------------------------------------------------------

  /** What the login page offers for the token: no `<input name="_csrf">` at
      all, or such an input with or without a `value` attribute. */
  datatype CsrfInput = NoInput | Input(value: Option<string>)

  /** The token check of `get_csrf_token`: a missing input, a missing value
      and an empty value are all errors; any other value is the token. */
  function CsrfToken(input: CsrfInput): (r: Result<string>)
    ensures r.Ok? <==> input.Input? && input.value.Some? && input.value.value != ""
    ensures r.Ok? ==> r.value == input.value.value
    ensures r.Err? ==> r.error.message == CsrfMissingMessage
  {
    match input
    case Input(Some(token)) =>
      if token == "" then Err(ScrubbingError(CsrfMissingMessage)) else Ok(token)
    case _ => Err(ScrubbingError(CsrfMissingMessage))
  }

  // ---------------------------------------------------------------------
  // Reservation numbers on the profile page.
  // ---------------------------------------------------------------------

  /** An element of class `car-link`, with the text of the
      `<span class="notranslate">` nested in it if it has one. */
  datatype CarLink = CarLink(span: Option<string>)

  /** What one link contributes: the stripped text of its span, or nothing
      when it has no span. */
  function Found(link: CarLink): seq<string> {
    match link.span
    case Some(text) => [Strip(text)]
    case None => []
  }

  /** The numbers extraction collects from `links`: the stripped span text of
      every link that has a span, in document order. */
  function SpanNumbers(links: seq<CarLink>): seq<string> {
    if links == [] then []
    else SpanNumbers(links[..|links| - 1]) + Found(links[|links| - 1])
  }

  /** One more link adds its stripped span text at the end, or nothing. */
  lemma {:induction false} SpanNumbersSnoc(links: seq<CarLink>, link: CarLink)
    ensures SpanNumbers(links + [link]) == SpanNumbers(links) + Found(link)
  {
    assert (links + [link])[..|links|] == links;
  }

  /** Extraction follows the document: the numbers of two runs of links
      are the numbers of the first followed by those of the second. */
  lemma {:induction false} SpanNumbersAppend(a: seq<CarLink>, b: seq<CarLink>)
    ensures SpanNumbers(a + b) == SpanNumbers(a) + SpanNumbers(b)
    decreases |b|
  {
    if b != [] {
      var n := |b|;
      assert (a + b)[..|a + b| - 1] == a + b[..n - 1];
      assert (a + b)[|a + b| - 1] == b[n - 1];
      SpanNumbersAppend(a, b[..n - 1]);
    } else {
      assert a + b == a;
    }
  }

  /** The link at position `i` contributes its stripped span text, if it has a
      span, between the numbers of the links before it and those after it. */
  lemma {:induction false} SpanNumbersAt(links: seq<CarLink>, i: nat)
    requires i < |links|
    ensures SpanNumbers(links) == SpanNumbers(links[..i]) + Found(links[i]) + SpanNumbers(links[i + 1..])
  {
    var pre, link, post := links[..i], links[i], links[i + 1..];
    assert links == pre + [link] + post;
    SpanNumbersAppend(pre + [link], post);
    SpanNumbersSnoc(pre, link);
  }

  /** No number is collected exactly when no link has a span. */
  lemma {:induction false} SpanNumbersEmpty(links: seq<CarLink>)
    ensures SpanNumbers(links) == [] <==> forall i :: 0 <= i < |links| ==> links[i].span.None?
  {
    if links != [] {
      var n := |links|;
      SpanNumbersEmpty(links[..n - 1]);
      assert forall i :: 0 <= i < n - 1 ==> links[..n - 1][i] == links[i];
    }
  }

  /** One number per link that has a span, and every number stripped. */
  lemma {:induction false} SpanNumbersShape(links: seq<CarLink>)
    ensures |SpanNumbers(links)| <= |links|
    ensures forall k :: 0 <= k < |SpanNumbers(links)| ==> Trimmed(SpanNumbers(links)[k])
  {
    if links != [] {
      SpanNumbersShape(links[..|links| - 1]);
    }
  }

  // ---------------------------------------------------------------------
  // The summary of the numbers.
  // ---------------------------------------------------------------------

  /** The test `rn.lower()[0:2] != "rn"` fails: the number still starts with
      "RN" in some mix of cases. */
  predicate HasRnPrefix(rn: string) {
    Head(Lower(rn), 2) == "rn"
  }

  /** The prefix test is a case-insensitive look at the first two characters;
      a number shorter than two characters never passes it. */
  lemma {:induction false} HasRnPrefixIff(rn: string)
    ensures HasRnPrefix(rn)
        <==> |rn| >= 2 && (rn[0] == 'r' || rn[0] == 'R') && (rn[1] == 'n' || rn[1] == 'N')
  {
    if |rn| >= 2 {
      assert Head(Lower(rn), 2) == [LowerChar(rn[0]), LowerChar(rn[1])];
    } else if |rn| == 1 {
      assert Head(Lower(rn), 2) == [LowerChar(rn[0])];
    }
  }

  /** The summary loop's escalation, number by number: the subject and the
      force flag escalate at a number that lacks the "RN" prefix and stay
      escalated. */
  predicate Escalates(numbers: seq<string>) {
    numbers != [] && (Escalates(numbers[..|numbers| - 1]) || !HasRnPrefix(numbers[|numbers| - 1]))
  }

  /** The summary escalates exactly when some number lacks the "RN" prefix. */
  lemma {:induction false} EscalatesIff(numbers: seq<string>)
    ensures Escalates(numbers) <==> exists i :: 0 <= i < |numbers| && !HasRnPrefix(numbers[i])
  {
    if numbers != [] {
      var n := |numbers|;
      var init := numbers[..n - 1];
      EscalatesIff(init);
      if i :| 0 <= i < n - 1 && !HasRnPrefix(init[i]) {
        assert numbers[i] == init[i];
      }
      if i :| 0 <= i < n && !HasRnPrefix(numbers[i]) {
        if i < n - 1 {
          assert init[i] == numbers[i];
        }
      }
    }
  }

  const LinePrefix := "Reservation number "
  const BoringSuffix := " is still boring.\n"
  const MissingSuffix := " missing 'RN'\n"

  /** The body line for one number. */
  function Line(rn: string): string {
    if HasRnPrefix(rn) then LinePrefix + rn + BoringSuffix else LinePrefix + rn + MissingSuffix
  }

  /** The body line of every number, in order. */
  function Lines(numbers: seq<string>): seq<string> {
    seq(|numbers|, i requires 0 <= i < |numbers| => Line(numbers[i]))
  }

  /** `lines` written one after another. */
  function Concat(lines: seq<string>): string {
    if lines == [] then ""
    else Concat(lines[..|lines| - 1]) + lines[|lines| - 1]
  }

  /** The message body for `numbers`: their lines, one after another. */
  function Body(numbers: seq<string>): string {
    Concat(Lines(numbers))
  }

  /** Reads a body line back into the number and whether it still had the
      "RN" prefix. */
  function ParseLine(line: string): Option<(string, bool)> {
    var p := |LinePrefix|;
    if |line| < p || line[..p] != LinePrefix then None
    else if |line| >= p + |BoringSuffix| && line[|line| - |BoringSuffix|..] == BoringSuffix
    then Some((line[p..|line| - |BoringSuffix|], true))
    else if |line| >= p + |MissingSuffix| && line[|line| - |MissingSuffix|..] == MissingSuffix
    then Some((line[p..|line| - |MissingSuffix|], false))
    else None
  }

  /** Each body line names its number and says truthfully whether it still had
      the "RN" prefix. */
  lemma {:induction false} LineRoundTrip(rn: string)
    ensures ParseLine(Line(rn)) == Some((rn, HasRnPrefix(rn)))
  {
    var line := Line(rn);
    var p := |LinePrefix|;
    assert line[..p] == LinePrefix;
    if HasRnPrefix(rn) {
      assert line[|line| - |BoringSuffix|..] == BoringSuffix;
      assert line[p..|line| - |BoringSuffix|] == rn;
    } else {
      assert line[|line| - |MissingSuffix|..] == MissingSuffix;
      assert line[p..|line| - |MissingSuffix|] == rn;
      // the two suffixes end differently: ".\n" against "'\n"
      assert line[|line| - 2] == '\'';
      assert line[|line| - |BoringSuffix|..] != BoringSuffix by {
        if |line| >= p + |BoringSuffix| {
          assert line[|line| - |BoringSuffix|..][|BoringSuffix| - 2] == line[|line| - 2];
        }
      }
    }
  }

  /** Writing out two runs of lines is writing out the first, then the second. */
  lemma {:induction false} ConcatAppend(a: seq<string>, b: seq<string>)
    ensures Concat(a + b) == Concat(a) + Concat(b)
    decreases |b|
  {
    if b != [] {
      var n := |b|;
      assert (a + b)[..|a + b| - 1] == a + b[..n - 1];
      assert (a + b)[|a + b| - 1] == b[n - 1];
      ConcatAppend(a, b[..n - 1]);
    } else {
      assert a + b == a;
    }
  }

  /** The body of a sequence of numbers is the body of a first part followed
      by the body of the rest. */
  lemma {:induction false} BodyAppend(a: seq<string>, b: seq<string>)
    ensures Body(a + b) == Body(a) + Body(b)
  {
    assert Lines(a + b) == Lines(a) + Lines(b);
    ConcatAppend(Lines(a), Lines(b));
  }

  /** Adding a number adds its line at the end of the body. */
  lemma {:induction false} BodySnoc(numbers: seq<string>, rn: string)
    ensures Body(numbers + [rn]) == Body(numbers) + Line(rn)
  {
    BodyAppend(numbers, [rn]);
    var one := [Line(rn)];
    assert Lines([rn]) == one;
    assert one[..0] == [];
    assert Concat(one) == "" + Line(rn) == Line(rn);
  }

  /** The body holds the line of the `i`-th number after the lines of the
      numbers before it and before the lines of the numbers after it. */
  lemma {:induction false} BodyAt(numbers: seq<string>, i: nat)
    requires i < |numbers|
    ensures Body(numbers) == Body(numbers[..i]) + Line(numbers[i]) + Body(numbers[i + 1..])
  {
    var pre, rn, post := numbers[..i], numbers[i], numbers[i + 1..];
    assert numbers == pre + [rn] + post;
    BodyAppend(pre + [rn], post);
    BodySnoc(pre, rn);
  }

  /** Escalation is never taken back: once a number without the prefix has
      been seen, later numbers, with the prefix or not, leave it escalated;
      and a run of numbers escalates exactly when one of its parts does. */
  lemma {:induction false} EscalatesAppend(a: seq<string>, b: seq<string>)
    ensures Escalates(a + b) <==> Escalates(a) || Escalates(b)
  {
    EscalatesIff(a);
    EscalatesIff(b);
    EscalatesIff(a + b);
    if Escalates(a) {
      var i :| 0 <= i < |a| && !HasRnPrefix(a[i]);
      assert (a + b)[i] == a[i];
    }
    if Escalates(b) {
      var i :| 0 <= i < |b| && !HasRnPrefix(b[i]);
      assert (a + b)[|a| + i] == b[i];
    }
    if Escalates(a + b) {
      var i :| 0 <= i < |a + b| && !HasRnPrefix((a + b)[i]);
      if i < |a| {
        assert a[i] == (a + b)[i];
      } else {
        assert b[i - |a|] == (a + b)[i];
      }
    }
  }

  /** A single number with the prefix gives one "still boring" line and no
      escalation. */
  lemma {:induction false} BoringExample()
    ensures !Escalates(["RN12345"])
    ensures Body(["RN12345"]) == LinePrefix + "RN12345" + BoringSuffix
  {
    HasRnPrefixIff("RN12345");
    BodySnoc([], "RN12345");
    assert [] + ["RN12345"] == ["RN12345"];
  }

  /** A number without the prefix after one with it escalates, and the body
      keeps their order. */
  lemma {:induction false} ExcitingExample()
    ensures Escalates(["RN12345", "XY999"])
    ensures Body(["RN12345", "XY999"])
         == LinePrefix + "RN12345" + BoringSuffix + (LinePrefix + "XY999" + MissingSuffix)
  {
    HasRnPrefixIff("XY999");
    BoringExample();
    assert ["RN12345", "XY999"] == ["RN12345"] + ["XY999"];
    BodySnoc(["RN12345"], "XY999");
  }

  // ---------------------------------------------------------------------
  // The scrubber.
  // ---------------------------------------------------------------------

  class ProfileScrubber {
    const emailTo: string
    var csrfToken: string
    var profilePage: string
    var reservationNumbers: seq<string>

    constructor (emailTo: string)
      ensures this.emailTo == emailTo
      ensures reservationNumbers == []
    {
      this.emailTo := emailTo;
      csrfToken := "";
      profilePage := "";
      reservationNumbers := [];
    }

    /** `get_csrf_token`, given what the fetched login page offers for the
        token. */
    method GetCsrfToken(input: CsrfInput) returns (outcome: Result<()>)
      modifies this`csrfToken
      ensures CsrfToken(input).Ok? ==> outcome == Ok(()) && csrfToken == CsrfToken(input).value
      ensures CsrfToken(input).Err? ==> outcome == Err(CsrfToken(input).error) && csrfToken == ""
    {
      csrfToken := "";
      match input {
        case Input(Some(token)) => csrfToken := token;
        case _ =>
      }
      if csrfToken == "" {
        outcome := Err(ScrubbingError(CsrfMissingMessage));
      } else {
        outcome := Ok(());
      }
    }

    /** The check `log_in` makes on the text the login request returned. */
    method LogIn(responseText: string) returns (outcome: Result<()>)
      modifies this`profilePage
      ensures profilePage == responseText
      ensures outcome == if responseText == "" then Err(ScrubbingError(ProfileMissingMessage)) else Ok(())
    {
      profilePage := responseText;
      if profilePage == "" {
        outcome := Err(ScrubbingError(ProfileMissingMessage));
      } else {
        outcome := Ok(());
      }
    }

    /** `find_reservation_numbers`, given the car links of the profile page.
        The numbers are appended to those already held, and the final check
        is on the whole list. */
    method FindReservationNumbers(carLinks: seq<CarLink>) returns (outcome: Result<()>)
      modifies this`reservationNumbers
      ensures carLinks == [] ==>
                outcome == Err(ScrubbingError(NoCarsMessage))
                && reservationNumbers == old(reservationNumbers)
      ensures carLinks != [] ==>
                reservationNumbers == old(reservationNumbers) + SpanNumbers(carLinks)
                && outcome == if reservationNumbers == [] then Err(ScrubbingError(NoNumbersMessage)) else Ok(())
    {
      if carLinks == [] {
        return Err(ScrubbingError(NoCarsMessage));
      }
      ghost var before := reservationNumbers;
      var i := 0;
      while i < |carLinks|
        invariant 0 <= i <= |carLinks|
        invariant reservationNumbers == before + SpanNumbers(carLinks[..i])
      {
        SpanNumbersSnoc(carLinks[..i], carLinks[i]);
        assert carLinks[..i + 1] == carLinks[..i] + [carLinks[i]];
        var span := carLinks[i].span;
        if span.Some? {
          reservationNumbers := reservationNumbers + [Strip(span.value)];
        }
        i := i + 1;
      }
      assert carLinks[..i] == carLinks;
      if reservationNumbers != [] {
        outcome := Ok(());
      } else {
        outcome := Err(ScrubbingError(NoNumbersMessage));
      }
    }

    /** The summary loop of `scrub`: one body line per number in order, and the
        subject and force flag escalated exactly when some number lacks the
        "RN" prefix. */
    method Summarize(boringSubject: string, excitingSubject: string)
      returns (body: string, subject: string, force: bool)
      ensures body == Body(reservationNumbers)
      ensures force <==> Escalates(reservationNumbers)
      ensures force <==> exists k :: 0 <= k < |reservationNumbers| && !HasRnPrefix(reservationNumbers[k])
      ensures subject == if force then excitingSubject else boringSubject
    {
      body, subject, force := "", boringSubject, false;
      var i := 0;
      while i < |reservationNumbers|
        invariant 0 <= i <= |reservationNumbers|
        invariant body == Body(reservationNumbers[..i])
        invariant force <==> Escalates(reservationNumbers[..i])
        invariant subject == if force then excitingSubject else boringSubject
      {
        var rn := reservationNumbers[i];
        assert reservationNumbers[..i + 1] == reservationNumbers[..i] + [rn];
        BodySnoc(reservationNumbers[..i], rn);
        assert (reservationNumbers[..i] + [rn])[..i] == reservationNumbers[..i];
        if !HasRnPrefix(rn) {
          body := body + (LinePrefix + rn + MissingSuffix);
          subject := excitingSubject;
          force := true;
        } else {
          body := body + (LinePrefix + rn + BoringSuffix);
        }
        i := i + 1;
      }
      assert reservationNumbers[..i] == reservationNumbers;
      EscalatesIff(reservationNumbers);
    }

    /** `scrub`: on success, what its call of `send_email` hands to the mail
        relay (none when the message is suppressed); otherwise the first
        error raised. */
    method Scrub(cfg: EmailConfig, now: int, login: CsrfInput, responseText: string,
                 carLinks: seq<CarLink>) returns (result: Result<Option<string>>)
      requires cfg.boringEmailFrequency != 0
      modifies this`csrfToken, this`profilePage, this`reservationNumbers
      ensures csrfToken == if CsrfToken(login).Ok? then CsrfToken(login).value else ""
      ensures profilePage == if CsrfToken(login).Ok? then responseText else old(profilePage)
      ensures CsrfToken(login).Err? || responseText == "" || carLinks == [] ==>
                reservationNumbers == old(reservationNumbers)
      ensures CsrfToken(login).Err? ==> result == Err(CsrfToken(login).error)
      ensures CsrfToken(login).Ok? && responseText == "" ==>
                result == Err(ScrubbingError(ProfileMissingMessage))
      ensures CsrfToken(login).Ok? && responseText != "" && carLinks == [] ==>
                result == Err(ScrubbingError(NoCarsMessage))
      ensures CsrfToken(login).Ok? && responseText != "" && carLinks != [] ==>
                reservationNumbers == old(reservationNumbers) + SpanNumbers(carLinks)
                && result == if reservationNumbers == [] then Err(ScrubbingError(NoNumbersMessage))
                             else Ok(SendEmail(cfg, now,
                                               if Escalates(reservationNumbers) then cfg.excitingSubject else cfg.boringSubject,
                                               Body(reservationNumbers), cfg.fromEmail, emailTo,
                                               Escalates(reservationNumbers)))
    {
      var outcome := GetCsrfToken(login);
      if outcome.Err? { return Err(outcome.error); }
      outcome := LogIn(responseText);
      if outcome.Err? { return Err(outcome.error); }
      outcome := FindReservationNumbers(carLinks);
      if outcome.Err? { return Err(outcome.error); }
      var body, subject, force := Summarize(cfg.boringSubject, cfg.excitingSubject);
      result := Ok(SendEmail(cfg, now, subject, body, cfg.fromEmail, emailTo, force));
    }
  }

  /** The first error a fresh scrubber raises on these inputs, if any. */
  function RunError(login: CsrfInput, responseText: string, carLinks: seq<CarLink>): Option<ScrubbingError> {
    if CsrfToken(login).Err? then Some(CsrfToken(login).error)
    else if responseText == "" then Some(ScrubbingError(ProfileMissingMessage))
    else if carLinks == [] then Some(ScrubbingError(NoCarsMessage))
    else if forall i :: 0 <= i < |carLinks| ==> carLinks[i].span.None? then Some(ScrubbingError(NoNumbersMessage))
    else None
  }

  /** The program's entry point: a fresh scrubber for the configured
      recipient scrubs once; if it raises, a forced message with the error
      subject and the error's text goes to the configured recipient. The
      result is what reaches the mail relay, if anything. */
  method Run(cfg: EmailConfig, now: int, login: CsrfInput, responseText: string,
             carLinks: seq<CarLink>) returns (attempt: Option<string>)
    requires cfg.boringEmailFrequency != 0
    ensures RunError(login, responseText, carLinks).Some? ==>
              attempt == Some(EmailText(cfg.fromEmail, cfg.toEmail, ErrorSubject,
                                        RunError(login, responseText, carLinks).value.message))
    ensures RunError(login, responseText, carLinks).None? ==>
              var numbers := SpanNumbers(carLinks);
              attempt == SendEmail(cfg, now,
                                   if Escalates(numbers) then cfg.excitingSubject else cfg.boringSubject,
                                   Body(numbers), cfg.fromEmail, cfg.toEmail, Escalates(numbers))
  {
    SpanNumbersEmpty(carLinks);
    assert [] + SpanNumbers(carLinks) == SpanNumbers(carLinks);
    var scrubber := new ProfileScrubber(cfg.toEmail);
    var result := scrubber.Scrub(cfg, now, login, responseText, carLinks);
    ghost var failure := RunError(login, responseText, carLinks);
    assert result.Err? <==> failure.Some?;
    if result.Err? {
      assert result.error == failure.value;
      attempt := SendEmail(cfg, now, ErrorSubject, result.error.message, cfg.fromEmail, cfg.toEmail, true);
    } else {
      assert scrubber.reservationNumbers == SpanNumbers(carLinks);
      attempt := result.value;
    }
  }
}
