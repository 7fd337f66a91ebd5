/** Verification requests of one user that run at the same time. VerifyEmail reads the row and compares
    the code, and writes in a later step; so does a request for a new code. */
module VerificationRaces {
  import opened Models
  import opened EmailVerification

  /** What a request has decided to write. */
  datatype Job = Count | Mark | Save(codeHash: CodeHash, expiresAt: int)

  /** `compared` and `lost` are history: the wrong codes compared since the current code was saved, and
      the increments that have been lost since then. */
  datatype System = System(user: User, jobs: map<int, Job>, compared: nat, lost: nat)

  datatype Move =
    | Compare(task: int, code: string, now: int)
    | AskAgain(task: int, code: string, now: int)
    | Write(task: int, reached: bool, now: int)
    | ChangeEmail(task: int, email: string, now: int)

  function Idle(user: User): System {
    System(user, map[], 0, 0)
  }

  function Begin(sys: System, task: int, job: Job): System {
    sys.(jobs := sys.jobs[task := job])
  }

  function WriteStep(sys: System, task: int, job: Job, reached: bool, now: int): System {
    var left := sys.(jobs := sys.jobs - {task});
    match job
    case Count => if reached then left.(user := IncrementAttempts(sys.user)) else left.(lost := sys.lost + 1)
    case Mark => if reached then left.(user := MarkEmailVerified(sys.user)) else left
    case Save(codeHash, expiresAt) =>
      if reached then left.(user := SaveEmailVerification(sys.user, codeHash, expiresAt, now), compared := 0, lost := 0) else left
  }

  function Step(sys: System, move: Move, ttl: int): System {
    match move
    case Compare(task, code, now) =>
      if task in sys.jobs then sys
      else
        (match CheckCode(sys.user, code, now)
         case WrongCode => Begin(sys, task, Count).(compared := sys.compared + 1)
         case Verified => Begin(sys, task, Mark)
         case _ => sys)
    case AskAgain(task, code, now) =>
      if task in sys.jobs || CheckResend(sys.user, now) != Sent then sys
      else Begin(sys, task, Save(CodeHash(sys.user.email, code), now + ttl))
    case Write(task, reached, now) =>
      if task in sys.jobs then WriteStep(sys, task, sys.jobs[task], reached, now) else sys
    case ChangeEmail(_, email, _) => sys.(user := sys.user.(email := email))
  }

  function Steps(sys: System, moves: seq<Move>, ttl: int): System {
    if moves == [] then sys else Step(Steps(sys, moves[..|moves| - 1], ttl), moves[|moves| - 1], ttl)
  }

  /** The attempts that have compared a wrong code and not counted it yet. */
  function InFlight(sys: System): set<int> {
    set t | t in sys.jobs && sys.jobs[t].Count?
  }

  /** Never more than `limit` attempts are between their comparison and their increment. */
  ghost predicate AtMostInFlight(sys: System, moves: seq<Move>, ttl: int, limit: nat) {
    && |InFlight(Steps(sys, moves, ttl))| <= limit
    && (moves != [] ==> AtMostInFlight(sys, moves[..|moves| - 1], ttl, limit))
  }

  // ----- one attempt at a time -----

  lemma TwoSteps(sys: System, a: Move, b: Move, ttl: int)
    ensures Steps(sys, [a, b], ttl) == Step(Step(sys, a, ttl), b, ttl)
  {
    assert [a, b][..1] == [a] && [a][..0] == [];
    assert Steps(sys, [a], ttl) == Step(sys, a, ttl);
  }

  /** An attempt whose two steps are not interrupted leaves the row that the undivided attempt leaves. */
  lemma UninterruptedAttempt(user: User, code: string, now: int, reached: bool, ttl: int)
    requires CheckCode(user, code, now) == Verified ==> reached
    ensures Steps(Idle(user), [Compare(0, code, now), Write(0, reached, now)], ttl).user == AfterAttempt(user, code, now, reached)
  {
    TwoSteps(Idle(user), Compare(0, code, now), Write(0, reached, now), ttl);
  }

  lemma UninterruptedResend(user: User, code: string, now: int, ttl: int)
    ensures Steps(Idle(user), [AskAgain(0, code, now), Write(0, true, now)], ttl).user == AfterResend(user, code, now, ttl)
  {
    TwoSteps(Idle(user), AskAgain(0, code, now), Write(0, true, now), ttl);
  }

  // ----- the bound -----

  /** Every wrong code compared on the current code is counted, lost, or still in flight. */
  ghost predicate Accounted(sys: System) {
    !sys.user.verified ==> sys.compared <= sys.user.attempts + |InFlight(sys)| + sys.lost
  }

  lemma StepKeepsAccounted(sys: System, move: Move, ttl: int)
    requires Accounted(sys)
    ensures Accounted(Step(sys, move, ttl))
  {
    match move
    case Write(task, reached, now) =>
      if task in sys.jobs {
        WriteKeepsAccounted(sys, task, reached, now);
      }
    case ChangeEmail(_, _, _) =>
      assert InFlight(Step(sys, move, ttl)) == InFlight(sys);
    case _ =>
      if move.task !in sys.jobs && Step(sys, move, ttl) != sys {
        Begins(sys, move.task, Step(sys, move, ttl).jobs[move.task]);
      }
  }

  lemma Begins(sys: System, task: int, job: Job)
    requires task !in sys.jobs
    ensures |InFlight(Begin(sys, task, job))| == |InFlight(sys)| + if job.Count? then 1 else 0
  {
    assert InFlight(Begin(sys, task, job)) == if job.Count? then InFlight(sys) + {task} else InFlight(sys);
  }

  lemma WriteKeepsAccounted(sys: System, task: int, reached: bool, now: int)
    requires Accounted(sys) && task in sys.jobs
    ensures Accounted(WriteStep(sys, task, sys.jobs[task], reached, now))
  {
    assert InFlight(WriteStep(sys, task, sys.jobs[task], reached, now)) == InFlight(sys) - {task};
  }

  lemma {:induction false} ComparedIsBounded(user: User, moves: seq<Move>, ttl: int, limit: nat)
    requires limit >= 1 && AtMostInFlight(Idle(user), moves, ttl, limit)
    ensures var sys := Steps(Idle(user), moves, ttl);
            Accounted(sys) && sys.compared <= MAX_ATTEMPTS - 1 + limit + sys.lost
  {
    if moves != [] {
      var last := |moves| - 1;
      ComparedIsBounded(user, moves[..last], ttl, limit);
      StepKeepsAccounted(Steps(Idle(user), moves[..last], ttl), moves[last], ttl);
    }
  }

  /** However the requests interleave, if never more than `limit` attempts are in flight, then at most
      4 + `limit` wrong codes are compared per code saved, not counting lost increments. One at a time,
      that is five. */
  lemma OverlappingGuessesBound(user: User, moves: seq<Move>, ttl: int, limit: nat)
    requires limit >= 1 && AtMostInFlight(Idle(user), moves, ttl, limit)
    ensures Steps(Idle(user), moves, ttl).compared <= MAX_ATTEMPTS - 1 + limit + Steps(Idle(user), moves, ttl).lost
  {
    ComparedIsBounded(user, moves, ttl, limit);
  }

  // ----- over all codes -----

  predicate ComparesWrong(sys: System, move: Move) {
    move.Compare? && move.task !in sys.jobs && CheckCode(sys.user, move.code, move.now) == WrongCode
  }

  predicate LosesIncrement(sys: System, move: Move) {
    move.Write? && move.task in sys.jobs && sys.jobs[move.task].Count? && !move.reached
  }

  predicate SavesCode(sys: System, move: Move) {
    move.Write? && move.task in sys.jobs && sys.jobs[move.task].Save? && move.reached
  }

  /** All wrong codes compared in the run, all increments lost in it, and all codes saved in it. */
  function AllCompared(user: User, moves: seq<Move>, ttl: int): nat {
    if moves == [] then 0
    else
      var last := |moves| - 1;
      AllCompared(user, moves[..last], ttl) + if ComparesWrong(Steps(Idle(user), moves[..last], ttl), moves[last]) then 1 else 0
  }

  function AllLost(user: User, moves: seq<Move>, ttl: int): nat {
    if moves == [] then 0
    else
      var last := |moves| - 1;
      AllLost(user, moves[..last], ttl) + if LosesIncrement(Steps(Idle(user), moves[..last], ttl), moves[last]) then 1 else 0
  }

  function CodesSaved(user: User, moves: seq<Move>, ttl: int): nat {
    if moves == [] then 0
    else
      var last := |moves| - 1;
      CodesSaved(user, moves[..last], ttl) + if SavesCode(Steps(Idle(user), moves[..last], ttl), moves[last]) then 1 else 0
  }

  /** The tallies of the current code go along with those of the whole run. */
  lemma StepTallies(sys: System, move: Move, ttl: int)
    ensures var after := Step(sys, move, ttl);
            if SavesCode(sys, move) then after.compared == 0 && after.lost == 0
            else
              && after.compared == sys.compared + (if ComparesWrong(sys, move) then 1 else 0)
              && after.lost == sys.lost + (if LosesIncrement(sys, move) then 1 else 0)
    ensures SavesCode(sys, move) ==> !ComparesWrong(sys, move) && !LosesIncrement(sys, move)
  {
  }

  lemma {:induction false} EarlierCodesAreBounded(user: User, moves: seq<Move>, ttl: int, limit: nat)
    requires limit >= 1 && AtMostInFlight(Idle(user), moves, ttl, limit)
    ensures var sys := Steps(Idle(user), moves, ttl);
            AllCompared(user, moves, ttl) + sys.lost
            <= (MAX_ATTEMPTS - 1 + limit) * CodesSaved(user, moves, ttl) + AllLost(user, moves, ttl) + sys.compared
  {
    if moves != [] {
      var last := |moves| - 1;
      var before, saved := Steps(Idle(user), moves[..last], ttl), CodesSaved(user, moves[..last], ttl);
      EarlierCodesAreBounded(user, moves[..last], ttl, limit);
      ComparedIsBounded(user, moves[..last], ttl, limit);
      StepTallies(before, moves[last], ttl);
      OneCodeMore(MAX_ATTEMPTS - 1 + limit, saved);
    }
  }

  lemma OneCodeMore(each: nat, codes: nat)
    ensures each * (codes + 1) == each * codes + each
  {
  }

  /** The codes the user has been sent: those saved in the run, and the one the row starts with. */
  function CodesOut(user: User, moves: seq<Move>, ttl: int): nat {
    CodesSaved(user, moves, ttl) + if user.codeHash.Some? then 1 else 0
  }

  lemma {:induction false} NoCodeNoGuess(user: User, moves: seq<Move>, ttl: int)
    requires CodesOut(user, moves, ttl) == 0
    ensures Steps(Idle(user), moves, ttl).user.codeHash == None && Steps(Idle(user), moves, ttl).compared == 0
  {
    if moves != [] {
      NoCodeNoGuess(user, moves[..|moves| - 1], ttl);
    }
  }

  /** Over a whole interleaved run at most 4 + `limit` wrong codes are compared for each code sent, plus
      one for each increment lost. */
  lemma OverlappingGuessesInAll(user: User, moves: seq<Move>, ttl: int, limit: nat)
    requires limit >= 1 && AtMostInFlight(Idle(user), moves, ttl, limit)
    ensures AllCompared(user, moves, ttl) <= (MAX_ATTEMPTS - 1 + limit) * CodesOut(user, moves, ttl) + AllLost(user, moves, ttl)
  {
    EarlierCodesAreBounded(user, moves, ttl, limit);
    ComparedIsBounded(user, moves, ttl, limit);
    if user.codeHash.Some? {
      OneCodeMore(MAX_ATTEMPTS - 1 + limit, CodesSaved(user, moves, ttl));
    } else if CodesSaved(user, moves, ttl) == 0 {
      NoCodeNoGuess(user, moves, ttl);
    } else {
      FirstCodeSaved(user, moves, ttl, limit);
    }
  }

  /** A row without a code has nothing compared before the first code is saved. */
  lemma {:induction false} FirstCodeSaved(user: User, moves: seq<Move>, ttl: int, limit: nat)
    requires limit >= 1 && AtMostInFlight(Idle(user), moves, ttl, limit)
    requires user.codeHash == None && CodesSaved(user, moves, ttl) >= 1
    ensures var sys := Steps(Idle(user), moves, ttl);
            AllCompared(user, moves, ttl) + sys.lost
            <= (MAX_ATTEMPTS - 1 + limit) * (CodesSaved(user, moves, ttl) - 1) + AllLost(user, moves, ttl) + sys.compared
  {
    var last := |moves| - 1;
    var before, saved := Steps(Idle(user), moves[..last], ttl), CodesSaved(user, moves[..last], ttl);
    ComparedIsBounded(user, moves[..last], ttl, limit);
    StepTallies(before, moves[last], ttl);
    if saved >= 1 {
      FirstCodeSaved(user, moves[..last], ttl, limit);
      OneCodeMore(MAX_ATTEMPTS - 1 + limit, saved - 1);
    } else {
      NoCodeNoGuess(user, moves[..last], ttl);
      EarlierCodesAreBounded(user, moves[..last], ttl, limit);
    }
  }

  // ----- codes per minute -----

  /** The requests for a new code that have passed the cooldown and not saved the code yet. */
  function Sending(sys: System): set<int> {
    set t | t in sys.jobs && sys.jobs[t].Save?
  }

  ghost predicate AtMostSending(sys: System, moves: seq<Move>, ttl: int, limit: nat) {
    && |Sending(Steps(sys, moves, ttl))| <= limit
    && (moves != [] ==> AtMostSending(sys, moves[..|moves| - 1], ttl, limit))
  }

  /** The moves come in the order of their times, none before `born`. */
  ghost predicate InTime(born: int, moves: seq<Move>) {
    moves != [] ==> InTime(born, moves[..|moves| - 1]) && Now(born, moves[..|moves| - 1]) <= moves[|moves| - 1].now
  }

  function Now(born: int, moves: seq<Move>): int {
    if moves == [] then born else moves[|moves| - 1].now
  }

  /** As many codes as `limit` requests at a time can send until `elapsed`. */
  function Quota(limit: nat, elapsed: nat): nat {
    limit * (1 + elapsed / COOLDOWN)
  }

  lemma QuotaGrows(limit: nat, earlier: nat, later: nat)
    requires earlier <= later
    ensures limit <= Quota(limit, earlier) <= Quota(limit, later)
    ensures later - earlier >= COOLDOWN ==> Quota(limit, earlier) + limit <= Quota(limit, later)
  {
    var a, b := earlier / COOLDOWN, later / COOLDOWN;
    assert a <= b;
    LessOrEqual(limit, 1, 1 + a);
    LessOrEqual(limit, 1 + a, 1 + b);
    if later - earlier >= COOLDOWN {
      assert a + 1 <= b;
      LessOrEqual(limit, 2 + a, 1 + b);
      OneCodeMore(limit, 1 + a);
    }
  }

  lemma LessOrEqual(each: nat, some: nat, more: nat)
    requires some <= more
    ensures each * some <= each * more
  {
  }

  /** What the saved codes and those about to be saved keep to. */
  ghost predicate Spaced(sys: System, born: int, now: int, codes: nat, limit: nat) {
    && now >= born
    && codes + |Sending(sys)| <= Quota(limit, now - born)
    && (!sys.user.verified ==>
          match sys.user.sentAt
          case None => codes == 0
          case Some(sent) => born <= sent <= now && codes <= Quota(limit, sent - born))
  }

  lemma SaveKeepsSpaced(sys: System, born: int, before: int, codes: nat, limit: nat, move: Move, ttl: int)
    requires Spaced(sys, born, before, codes, limit) && before <= move.now && SavesCode(sys, move)
    ensures Spaced(Step(sys, move, ttl), born, move.now, codes + 1, limit)
  {
    QuotaGrows(limit, before - born, move.now - born);
    assert move.task in Sending(sys);
    assert Sending(Step(sys, move, ttl)) == Sending(sys) - {move.task};
  }

  lemma AskKeepsSpaced(sys: System, born: int, before: int, codes: nat, limit: nat, move: Move, ttl: int)
    requires Spaced(sys, born, before, codes, limit) && before <= move.now && move.AskAgain?
    requires |Sending(Step(sys, move, ttl))| <= limit
    ensures Spaced(Step(sys, move, ttl), born, move.now, codes, limit)
  {
    QuotaGrows(limit, before - born, move.now - born);
    if move.task !in sys.jobs && CheckResend(sys.user, move.now) == Sent {
      if sys.user.sentAt.Some? {
        QuotaGrows(limit, sys.user.sentAt.value - born, move.now - born);
      }
    }
  }

  lemma OtherMoveKeepsSpaced(sys: System, born: int, before: int, codes: nat, limit: nat, move: Move, ttl: int)
    requires Spaced(sys, born, before, codes, limit) && before <= move.now && !move.AskAgain? && !SavesCode(sys, move)
    ensures Spaced(Step(sys, move, ttl), born, move.now, codes, limit)
  {
    QuotaGrows(limit, before - born, move.now - born);
    OtherMoveSendsNothing(sys, move, ttl);
    SubsetIsSmaller(Sending(Step(sys, move, ttl)), Sending(sys));
  }

  lemma OtherMoveSendsNothing(sys: System, move: Move, ttl: int)
    requires !move.AskAgain? && !SavesCode(sys, move)
    ensures Sending(Step(sys, move, ttl)) <= Sending(sys)
    ensures var after := Step(sys, move, ttl).user;
            !after.verified ==> !sys.user.verified && after.sentAt == sys.user.sentAt
  {
  }

  lemma SubsetIsSmaller(a: set<int>, b: set<int>)
    requires a <= b
    ensures |a| <= |b|
  {
    assert b == a + (b - a);
  }

  lemma {:induction false} CodesAreSpacedOut(user: User, born: int, moves: seq<Move>, ttl: int, limit: nat)
    requires Registered(user, born) && InTime(born, moves) && limit >= 1 && AtMostSending(Idle(user), moves, ttl, limit)
    ensures Spaced(Steps(Idle(user), moves, ttl), born, Now(born, moves), CodesOut(user, moves, ttl), limit)
  {
    if moves == [] {
      assert Sending(Idle(user)) == {};
      QuotaGrows(limit, 0, 0);
    } else {
      var last := |moves| - 1;
      var before, codes := Steps(Idle(user), moves[..last], ttl), CodesOut(user, moves[..last], ttl);
      CodesAreSpacedOut(user, born, moves[..last], ttl, limit);
      if SavesCode(before, moves[last]) {
        SaveKeepsSpaced(before, born, Now(born, moves[..last]), codes, limit, moves[last], ttl);
      } else if moves[last].AskAgain? {
        AskKeepsSpaced(before, born, Now(born, moves[..last]), codes, limit, moves[last], ttl);
      } else {
        OtherMoveKeepsSpaced(before, born, Now(born, moves[..last]), codes, limit, moves[last], ttl);
      }
    }
  }

  /** However the requests interleave, if never more than `limit` requests for a code are between their
      check and their save, then within time T of the registration at most
      `limit` * (1 + floor(T / 1 min)) codes are sent. */
  lemma OverlappingCodesBound(user: User, born: int, moves: seq<Move>, ttl: int, limit: nat, elapsed: nat)
    requires Registered(user, born) && InTime(born, moves) && limit >= 1 && AtMostSending(Idle(user), moves, ttl, limit)
    requires Now(born, moves) <= born + elapsed
    ensures CodesOut(user, moves, ttl) <= Quota(limit, elapsed)
  {
    CodesAreSpacedOut(user, born, moves, ttl, limit);
    QuotaGrows(limit, Now(born, moves) - born, elapsed);
  }

  /** And with never more than `guessing` attempts in flight, within time T at most
      (4 + `guessing`) * `sending` * (1 + floor(T / 1 min)) wrong codes are compared, plus those whose
      increment was lost. */
  lemma OverlappingWrongCodesBound(user: User, born: int, moves: seq<Move>, ttl: int, guessing: nat, sending: nat, elapsed: nat)
    requires Registered(user, born) && InTime(born, moves) && guessing >= 1 && sending >= 1
    requires AtMostInFlight(Idle(user), moves, ttl, guessing) && AtMostSending(Idle(user), moves, ttl, sending)
    requires Now(born, moves) <= born + elapsed
    ensures AllCompared(user, moves, ttl) <= (MAX_ATTEMPTS - 1 + guessing) * Quota(sending, elapsed) + AllLost(user, moves, ttl)
  {
    OverlappingGuessesInAll(user, moves, ttl, guessing);
    OverlappingCodesBound(user, born, moves, ttl, sending, elapsed);
    LessOrEqual(MAX_ATTEMPTS - 1 + guessing, CodesOut(user, moves, ttl), Quota(sending, elapsed));
  }

  // ----- the bound is reached -----

  function WithCode(attempts: nat): User {
    User("e", false, Some(CodeHash("e", "a")), Some(1), Some(0), attempts)
  }

  /** `n` wrong attempts one after the other. */
  function OneByOne(n: nat): seq<Move> {
    if n == 0 then [] else OneByOne(n - 1) + [Compare(0, "b", 0)] + [Write(0, true, 0)]
  }

  /** Four wrong attempts one after the other and then `n` that all compare before any of them counts. */
  function Rush(n: nat): seq<Move> {
    if n == 0 then OneByOne(MAX_ATTEMPTS - 1) else Rush(n - 1) + [Compare(n - 1, "b", 0)]
  }

  lemma OneMore(sys: System, moves: seq<Move>, move: Move, ttl: int, limit: nat)
    requires AtMostInFlight(sys, moves, ttl, limit)
    requires |InFlight(Step(Steps(sys, moves, ttl), move, ttl))| <= limit
    ensures Steps(sys, moves + [move], ttl) == Step(Steps(sys, moves, ttl), move, ttl)
    ensures AtMostInFlight(sys, moves + [move], ttl, limit)
  {
    assert (moves + [move])[..|moves|] == moves;
  }

  lemma {:induction false} OneByOneCounts(n: nat, limit: nat)
    requires n < MAX_ATTEMPTS && limit >= 1
    ensures Steps(Idle(WithCode(0)), OneByOne(n), 1) == System(WithCode(n), map[], n, 0)
    ensures AtMostInFlight(Idle(WithCode(0)), OneByOne(n), 1, limit)
  {
    if n == 0 {
      assert InFlight(Idle(WithCode(0))) == {};
    } else {
      OneByOneCounts(n - 1, limit);
      CompareAndCount(n);
      TwoMore(Idle(WithCode(0)), OneByOne(n - 1), Compare(0, "b", 0), Write(0, true, 0), 1, limit);
    }
  }

  lemma TwoMore(sys: System, moves: seq<Move>, a: Move, b: Move, ttl: int, limit: nat)
    requires AtMostInFlight(sys, moves, ttl, limit)
    requires |InFlight(Step(Steps(sys, moves, ttl), a, ttl))| <= limit
    requires |InFlight(Step(Step(Steps(sys, moves, ttl), a, ttl), b, ttl))| <= limit
    ensures Steps(sys, moves + [a] + [b], ttl) == Step(Step(Steps(sys, moves, ttl), a, ttl), b, ttl)
    ensures AtMostInFlight(sys, moves + [a] + [b], ttl, limit)
  {
    OneMore(sys, moves, a, ttl, limit);
    OneMore(sys, moves + [a], b, ttl, limit);
  }

  lemma CompareAndCount(n: nat)
    requires 1 <= n < MAX_ATTEMPTS
    ensures var compared := Step(System(WithCode(n - 1), map[], n - 1, 0), Compare(0, "b", 0), 1);
            && |InFlight(compared)| == 1
            && Step(compared, Write(0, true, 0), 1) == System(WithCode(n), map[], n, 0)
            && |InFlight(System(WithCode(n), map[], n, 0))| == 0
  {
    assert "a" != "b";
    var compared := System(WithCode(n - 1), map[0 := Count], n, 0);
    assert InFlight(compared) == {0};
    assert map[0 := Count] - {0} == map[];
    assert InFlight(System(WithCode(n), map[], n, 0)) == {};
  }

  function Counting(n: nat): (jobs: map<int, Job>)
    ensures forall t :: t in jobs ==> 0 <= t < n && jobs[t] == Count
  {
    if n == 0 then map[] else Counting(n - 1)[n - 1 := Count]
  }

  function Rushing(n: nat): System {
    System(WithCode(MAX_ATTEMPTS - 1), Counting(n), MAX_ATTEMPTS - 1 + n, 0)
  }

  lemma {:induction false} RushingInFlight(n: nat)
    ensures |InFlight(Rushing(n))| == n
  {
    if n == 0 {
      assert InFlight(Rushing(0)) == {};
    } else {
      RushingInFlight(n - 1);
      assert InFlight(Rushing(n)) == InFlight(Rushing(n - 1)) + {n - 1};
    }
  }

  lemma {:induction false} RushCompares(n: nat, limit: nat)
    requires n <= limit && limit >= 1
    ensures Steps(Idle(WithCode(0)), Rush(n), 1) == Rushing(n)
    ensures AtMostInFlight(Idle(WithCode(0)), Rush(n), 1, limit)
  {
    if n == 0 {
      OneByOneCounts(MAX_ATTEMPTS - 1, limit);
      assert Rushing(0).jobs == map[];
    } else {
      RushCompares(n - 1, limit);
      assert "a" != "b";
      assert Step(Rushing(n - 1), Compare(n - 1, "b", 0), 1).jobs == Rushing(n).jobs;
      RushingInFlight(n);
      OneMore(Idle(WithCode(0)), Rush(n - 1), Compare(n - 1, "b", 0), 1, limit);
    }
  }

  /** For every `limit` a run with no more attempts in flight and nothing lost compares 4 + `limit` wrong
      codes on one code: attempts that read the counter at the same time all get their comparison. */
  lemma OverlappingGuessesReachTheBound(limit: nat)
    requires limit >= 1
    ensures AtMostInFlight(Idle(AfterSend(NewUser("e"), "a", 0, 1)), Rush(limit), 1, limit)
    ensures var sys := Steps(Idle(AfterSend(NewUser("e"), "a", 0, 1)), Rush(limit), 1);
            sys.compared == MAX_ATTEMPTS - 1 + limit && sys.lost == 0
  {
    assert AfterSend(NewUser("e"), "a", 0, 1) == WithCode(0);
    RushCompares(limit, limit);
  }
}
