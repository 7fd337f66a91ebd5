/** Email verification of one user: the attempt counter, the cooldown between codes, and how many
    codes can be guessed in a given time. Hashing is injective, so a hash is the pair it is made of. */
module EmailVerification {
  import opened Models

  const MAX_ATTEMPTS := 5
  const COOLDOWN := 60_000_000_000

  datatype CodeHash = CodeHash(email: string, code: string)

  datatype User = User(email: string, verified: bool, codeHash: Option<CodeHash>,
                       expiresAt: Option<int>, sentAt: Option<int>, attempts: nat)

  datatype Check = Verified | AlreadyVerified | NotRequested | Expired | TooManyAttempts | WrongCode | UnknownUser

  datatype Sent = Sent | NotFound | VerifiedBefore | TooSoon

  function NewUser(email: string): User {
    User(email, false, None, None, None, 0)
  }

  // ----- the statements on the user row -----

  function SaveEmailVerification(user: User, codeHash: CodeHash, expiresAt: int, now: int): User {
    user.(codeHash := Some(codeHash), expiresAt := Some(expiresAt), sentAt := Some(now), attempts := 0)
  }

  function IncrementAttempts(user: User): User {
    user.(attempts := user.attempts + 1)
  }

  function MarkEmailVerified(user: User): User {
    user.(verified := true, codeHash := None, expiresAt := None, sentAt := None, attempts := 0)
  }

  // ----- the requests -----

  /** What VerifyEmail answers before and with the comparison of the codes. */
  function CheckCode(user: User, code: string, now: int): Check {
    if user.verified then AlreadyVerified
    else if user.codeHash == None || user.expiresAt == None then NotRequested
    else if now > user.expiresAt.value then Expired
    else if user.attempts >= MAX_ATTEMPTS then TooManyAttempts
    else if user.codeHash.value != CodeHash(user.email, code) then WrongCode
    else Verified
  }

  /** `recorded` says whether the increment, whose error is ignored, reached the database. */
  function AfterAttempt(user: User, code: string, now: int, recorded: bool): User {
    match CheckCode(user, code, now)
    case WrongCode => if recorded then IncrementAttempts(user) else user
    case Verified => MarkEmailVerified(user)
    case _ => user
  }

  function CheckResend(user: User, now: int): Sent {
    if user.verified then VerifiedBefore
    else if user.sentAt.Some? && now - user.sentAt.value < COOLDOWN then TooSoon
    else Sent
  }

  function AfterSend(user: User, code: string, now: int, ttl: int): User {
    SaveEmailVerification(user, CodeHash(user.email, code), now + ttl, now)
  }

  function AfterResend(user: User, code: string, now: int, ttl: int): User {
    if CheckResend(user, now) == Sent then AfterSend(user, code, now, ttl) else user
  }

  // ----- what one request answers and leaves -----

  /** The code was saved for this e-mail address, is not over, and may still be tried. */
  predicate Opens(user: User, code: string, now: int) {
    && !user.verified
    && user.codeHash == Some(CodeHash(user.email, code))
    && user.expiresAt.Some? && now <= user.expiresAt.value
    && user.attempts < 5
  }

  /** An attempt verifies the user exactly if the code opens the account at that time, and then clears the
      code; a compared wrong code is counted if the increment gets through; and nothing else changes. */
  lemma AttemptEffect(user: User, code: string, now: int, recorded: bool)
    ensures CheckCode(user, code, now) == Verified <==> Opens(user, code, now)
    ensures CheckCode(user, code, now) ==
            if user.verified then AlreadyVerified
            else if user.codeHash == None || user.expiresAt == None then NotRequested
            else if now > user.expiresAt.value then Expired
            else if user.attempts >= 5 then TooManyAttempts
            else if user.codeHash == Some(CodeHash(user.email, code)) then Verified
            else WrongCode
    ensures var after := AfterAttempt(user, code, now, recorded);
            if Opens(user, code, now) then after == User(user.email, true, None, None, None, 0)
            else if CheckCode(user, code, now) == WrongCode && recorded
              then after == User(user.email, false, user.codeHash, user.expiresAt, user.sentAt, user.attempts + 1)
            else after == user
  {
  }

  /** A new code is sent to users who are not verified, a minute after the last one or later; it replaces the
      last one, is good for the ttl, and starts with no attempts. */
  lemma ResendEffect(user: User, code: string, now: int, ttl: int)
    ensures CheckResend(user, now) ==
            if user.verified then VerifiedBefore
            else if user.sentAt.Some? && now < user.sentAt.value + 60_000_000_000 then TooSoon
            else Sent
    ensures AfterResend(user, code, now, ttl) ==
            if !user.verified && (user.sentAt == None || now >= user.sentAt.value + 60_000_000_000)
            then User(user.email, false, Some(CodeHash(user.email, code)), Some(now + ttl), Some(now), 0)
            else user
  {
  }

  // ----- runs -----

  datatype Event =
    | Attempt(now: int, code: string, recorded: bool)
    | Resend(now: int, code: string)
    | ChangeEmail(now: int, email: string)

  function After(user: User, event: Event, ttl: int): User {
    match event
    case Attempt(now, code, recorded) => AfterAttempt(user, code, now, recorded)
    case Resend(now, code) => AfterResend(user, code, now, ttl)
    case ChangeEmail(_, email) => user.(email := email)
  }

  /** The row after registration, whose code may not have been saved, and the events that follow. */
  function Run(start: User, events: seq<Event>, ttl: int): User {
    if events == [] then start
    else After(Run(start, events[..|events| - 1], ttl), events[|events| - 1], ttl)
  }

  /** The attempts that compared a wrong code. */
  function WrongCodes(start: User, events: seq<Event>, ttl: int): nat {
    if events == [] then 0
    else
      var last := |events| - 1;
      var event := events[last];
      WrongCodes(start, events[..last], ttl) +
      if event.Attempt? && CheckCode(Run(start, events[..last], ttl), event.code, event.now) == WrongCode then 1 else 0
  }

  /** The wrong attempts whose increment was lost. */
  function LostIncrements(start: User, events: seq<Event>, ttl: int): nat {
    if events == [] then 0
    else
      var last := |events| - 1;
      var event := events[last];
      LostIncrements(start, events[..last], ttl) +
      if event.Attempt? && !event.recorded && CheckCode(Run(start, events[..last], ttl), event.code, event.now) == WrongCode then 1 else 0
  }

  /** The codes sent, the one of the registration included if it was saved. */
  function CodesSent(start: User, events: seq<Event>, ttl: int): nat {
    if events == [] then if start.sentAt.Some? then 1 else 0
    else
      var last := |events| - 1;
      var event := events[last];
      CodesSent(start, events[..last], ttl) +
      if event.Resend? && CheckResend(Run(start, events[..last], ttl), event.now) == Sent then 1 else 0
  }

  /** A row as registration at `born` leaves it. */
  predicate Registered(user: User, born: int) {
    !user.verified && user.attempts == 0 && (user.sentAt.Some? <==> user.codeHash.Some?) && (user.sentAt.Some? ==> user.sentAt.value == born)
  }

  ghost predicate InOrder(born: int, events: seq<Event>) {
    && (forall i :: 0 <= i < |events| ==> born <= events[i].now)
    && (forall i, j :: 0 <= i <= j < |events| ==> events[i].now <= events[j].now)
  }

  // ----- guesses per code -----

  lemma {:induction false} GuessesPerCode(start: User, born: int, events: seq<Event>, ttl: int)
    requires Registered(start, born)
    ensures var user := Run(start, events, ttl);
            var wrong, lost, sent := WrongCodes(start, events, ttl), LostIncrements(start, events, ttl), CodesSent(start, events, ttl);
            && user.attempts <= MAX_ATTEMPTS
            && (user.codeHash.Some? ==> sent >= 1)
            && wrong <= MAX_ATTEMPTS * sent + lost
            && (!user.verified && sent >= 1 ==> wrong <= MAX_ATTEMPTS * (sent - 1) + user.attempts + lost)
            && (sent == 0 ==> wrong == 0)
  {
    if events != [] {
      GuessesPerCode(start, born, events[..|events| - 1], ttl);
    }
  }

  /** At most five wrong codes are compared per code sent, not counting attempts whose increment was
      lost. */
  lemma WrongCodesPerCodeSent(start: User, born: int, events: seq<Event>, ttl: int)
    requires Registered(start, born)
    ensures WrongCodes(start, events, ttl) <= MAX_ATTEMPTS * CodesSent(start, events, ttl) + LostIncrements(start, events, ttl)
  {
    GuessesPerCode(start, born, events, ttl);
  }

  // ----- guesses on the current code -----

  predicate Guesses(user: User, event: Event) {
    event.Attempt? && CheckCode(user, event.code, event.now) == WrongCode
  }

  predicate Sends(user: User, event: Event) {
    event.Resend? && CheckResend(user, event.now) == Sent
  }

  /** The wrong codes compared since the last code was sent. */
  function WrongSinceSent(start: User, events: seq<Event>, ttl: int): nat {
    if events == [] then 0
    else
      var last := |events| - 1;
      var before := Run(start, events[..last], ttl);
      if Sends(before, events[last]) then 0
      else WrongSinceSent(start, events[..last], ttl) + if Guesses(before, events[last]) then 1 else 0
  }

  /** Those of them whose increment was lost. */
  function LostSinceSent(start: User, events: seq<Event>, ttl: int): nat {
    if events == [] then 0
    else
      var last := |events| - 1;
      var before := Run(start, events[..last], ttl);
      if Sends(before, events[last]) then 0
      else LostSinceSent(start, events[..last], ttl) + if Guesses(before, events[last]) && !events[last].recorded then 1 else 0
  }

  /** The counter of an unverified user misses exactly the lost increments: it is the number of wrong
      codes compared on the current code without them. */
  lemma {:induction false} CounterMissesTheLost(start: User, born: int, events: seq<Event>, ttl: int)
    requires Registered(start, born)
    ensures var user := Run(start, events, ttl);
            !user.verified ==> WrongSinceSent(start, events, ttl) == user.attempts + LostSinceSent(start, events, ttl)
    ensures WrongSinceSent(start, events, ttl) <= MAX_ATTEMPTS + LostSinceSent(start, events, ttl)
  {
    if events != [] {
      CounterMissesTheLost(start, born, events[..|events| - 1], ttl);
      GuessesPerCode(start, born, events[..|events| - 1], ttl);
    }
  }

  /** More than five wrong codes are compared on the current code of an unverified user exactly when the
      counter and the lost increments together exceed five, which takes a lost increment. */
  lemma OverGuessedIff(start: User, born: int, events: seq<Event>, ttl: int)
    requires Registered(start, born) && !Run(start, events, ttl).verified
    ensures WrongSinceSent(start, events, ttl) > MAX_ATTEMPTS
       <==> LostSinceSent(start, events, ttl) > MAX_ATTEMPTS - Run(start, events, ttl).attempts
    ensures WrongSinceSent(start, events, ttl) > MAX_ATTEMPTS ==> LostSinceSent(start, events, ttl) > 0
  {
    CounterMissesTheLost(start, born, events, ttl);
  }

  // ----- codes per minute -----

  lemma {:induction false} CodesAreSpaced(start: User, born: int, events: seq<Event>, ttl: int)
    requires Registered(start, born) && InOrder(born, events)
    ensures var user, sent := Run(start, events, ttl), CodesSent(start, events, ttl);
            var now := if events == [] then born else events[|events| - 1].now;
            && (sent >= 1 ==> now >= born + (sent - 1) * COOLDOWN)
            && (!user.verified && sent >= 1 ==> user.sentAt.Some? && now >= user.sentAt.value >= born + (sent - 1) * COOLDOWN)
            && (!user.verified && sent == 0 ==> user.sentAt.None?)
  {
    if events != [] {
      CodesAreSpaced(start, born, events[..|events| - 1], ttl);
    }
  }

  /** Within time T of the registration at most 1 + floor(T / 1 min) codes are sent. */
  lemma CodesSentBound(start: User, born: int, events: seq<Event>, ttl: int, elapsed: nat)
    requires Registered(start, born) && InOrder(born, events)
    requires events != [] ==> events[|events| - 1].now <= born + elapsed
    ensures CodesSent(start, events, ttl) <= 1 + elapsed / COOLDOWN
  {
    CodesAreSpaced(start, born, events, ttl);
  }

  /** Within time T of the registration at most 5 * (1 + floor(T / 1 min)) wrong codes are compared,
      plus those whose increment was lost. */
  lemma WrongCodesBound(start: User, born: int, events: seq<Event>, ttl: int, elapsed: nat)
    requires Registered(start, born) && InOrder(born, events)
    requires events != [] ==> events[|events| - 1].now <= born + elapsed
    ensures WrongCodes(start, events, ttl) <= MAX_ATTEMPTS * (1 + elapsed / COOLDOWN) + LostIncrements(start, events, ttl)
  {
    WrongCodesPerCodeSent(start, born, events, ttl);
    CodesSentBound(start, born, events, ttl, elapsed);
  }

  /** Verified is permanent. */
  lemma {:induction false} VerifiedStays(user: User, events: seq<Event>, ttl: int)
    requires user.verified
    ensures Run(user, events, ttl).verified
  {
    if events != [] {
      VerifiedStays(user, events[..|events| - 1], ttl);
    }
  }

  // ----- which code verifies -----

  /** The code of a message and when it was sent. */
  datatype Mail = Mail(codeHash: CodeHash, at: int)

  /** The last code sent, the one of the registration included. */
  function LastMail(start: User, events: seq<Event>, ttl: int): Option<Mail> {
    if events == [] then if start.codeHash.Some? && start.sentAt.Some? then Some(Mail(start.codeHash.value, start.sentAt.value)) else None
    else
      var last := |events| - 1;
      var before := Run(start, events[..last], ttl);
      match events[last]
      case Resend(now, code) =>
        if !before.verified && (before.sentAt == None || now >= before.sentAt.value + 60_000_000_000)
        then Some(Mail(CodeHash(before.email, code), now)) else LastMail(start, events[..last], ttl)
      case _ => LastMail(start, events[..last], ttl)
  }

  lemma {:induction false} RowHoldsTheLastMail(start: User, born: int, events: seq<Event>, ttl: int)
    requires Registered(start, born) && (start.codeHash.Some? ==> start.expiresAt == Some(born + ttl))
    ensures var user, mail := Run(start, events, ttl), LastMail(start, events, ttl);
            !user.verified ==>
              match mail
              case None => user.codeHash == None
              case Some(Mail(codeHash, at)) => user.codeHash == Some(codeHash) && user.expiresAt == Some(at + ttl)
  {
    if events != [] {
      var last := |events| - 1;
      RowHoldsTheLastMail(start, born, events[..last], ttl);
      match events[last]
      case Resend(now, code) => ResendEffect(Run(start, events[..last], ttl), code, now, ttl);
      case _ =>
    }
  }

  /** A user who becomes verified does so with the last code sent, for the e-mail address it was sent to,
      and at most the ttl after it was sent. */
  lemma VerifiedByTheLastMail(start: User, born: int, events: seq<Event>, event: Event, ttl: int)
    requires Registered(start, born) && (start.codeHash.Some? ==> start.expiresAt == Some(born + ttl))
    requires !Run(start, events, ttl).verified && After(Run(start, events, ttl), event, ttl).verified
    ensures event.Attempt? && LastMail(start, events, ttl).Some?
    ensures var mail, user := LastMail(start, events, ttl).value, Run(start, events, ttl);
            mail.codeHash == CodeHash(user.email, event.code) && event.now <= mail.at + ttl
  {
    RowHoldsTheLastMail(start, born, events, ttl);
  }

  // ----- what lost increments cost -----

  /** `n` wrong attempts in a row whose increments are all lost. */
  function Unrecorded(n: nat): seq<Event> {
    seq(n, i => Attempt(0, "b", false))
  }

  /** Without the recorded increments there is no bound: every one of the attempts is compared. */
  lemma {:induction false} LostIncrementsLiftTheBound(n: nat)
    ensures var start := AfterSend(NewUser("e"), "a", 0, 1);
            && Run(start, Unrecorded(n), 1) == start
            && WrongCodes(start, Unrecorded(n), 1) == n
            && CodesSent(start, Unrecorded(n), 1) == 1
  {
    if n > 0 {
      assert Unrecorded(n)[..n - 1] == Unrecorded(n - 1);
      LostIncrementsLiftTheBound(n - 1);
      assert "a" != "b";
    }
  }
}
