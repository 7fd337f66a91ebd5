/** Refresh tokens under concurrent requests. A refresh finds its token, loads the user, revokes the
    token and creates the next one, in four steps between which other requests run. Tokens stand for
    their hashes; a generated token is new. */
module Sessions {
  import opened Models

  /** A row of auth_tokens. `parent` is history: the token whose refresh created the row. */
  datatype Token = Token(userId: int, revoked: bool, expiresAt: int, parent: Option<int>)

  datatype Job =
    | Found(token: int, userId: int)
    | Loaded(token: int, userId: int)
    | Claimed(token: int, userId: int)
    | Authenticated(userId: int)
    | CodeMatched(userId: int)

  /** `users` maps a user to whether the email is verified; `grants` is history: one entry per login
      or email verification that stored a token. */
  datatype System = System(users: map<int, bool>, tokens: map<int, Token>, jobs: map<int, Job>, grants: multiset<int>)

  const START := System(map[], map[], map[], multiset{})

  datatype Move =
    | Register(userId: int)
    | FindToken(task: int, token: int, now: int)
    | LoadUser(task: int)
    | RevokeToken(task: int)
    | CreateToken(task: int, issued: int, expiresAt: int)
    | Login(task: int, userId: int)
    | MatchCode(task: int, userId: int)
    | MarkVerified(task: int)
    | Logout(token: int)
    | LogoutAll(userId: int)
    | Abandon(task: int)

  function IsVerified(users: map<int, bool>, userId: int): bool {
    userId in users && users[userId]
  }

  // ----- the statements on auth_tokens -----

  /** FindActiveByHash */
  predicate ActiveAt(tokens: map<int, Token>, token: int, now: int) {
    token in tokens && !tokens[token].revoked && tokens[token].expiresAt > now
  }

  /** RevokeByHash: affects a row only if it is not revoked yet. */
  function RevokeByHash(tokens: map<int, Token>, token: int): map<int, Token> {
    if token in tokens then tokens[token := tokens[token].(revoked := true)] else tokens
  }

  function RevokeAll(tokens: map<int, Token>, userId: int): map<int, Token> {
    map t | t in tokens :: if tokens[t].userId == userId then tokens[t].(revoked := true) else tokens[t]
  }

  /** Revoking one token, or all tokens of one user, changes no other row. */
  lemma RevocationEffect(tokens: map<int, Token>, token: int, userId: int)
    ensures RevokeByHash(tokens, token).Keys == tokens.Keys && RevokeAll(tokens, userId).Keys == tokens.Keys
    ensures forall t :: t in tokens ==>
      RevokeByHash(tokens, token)[t] == Token(tokens[t].userId, tokens[t].revoked || t == token, tokens[t].expiresAt, tokens[t].parent)
    ensures forall t :: t in tokens ==>
      RevokeAll(tokens, userId)[t] == Token(tokens[t].userId, tokens[t].revoked || tokens[t].userId == userId, tokens[t].expiresAt, tokens[t].parent)
  {
  }

  /** A token can be exchanged while it is stored, not revoked, and not over. */
  lemma ActiveIff(tokens: map<int, Token>, token: int, now: int)
    ensures ActiveAt(tokens, token, now) <==> token in tokens && !tokens[token].revoked && now < tokens[token].expiresAt
  {
  }

  // ----- the moves -----

  function Drop(sys: System, task: int): System {
    sys.(jobs := sys.jobs - {task})
  }

  /** createAuthResponse: the insert fails if the token exists already. */
  function Store(sys: System, task: int, issued: int, userId: int, expiresAt: int, parent: Option<int>): System {
    if issued in sys.tokens then Drop(sys, task)
    else
      Drop(sys, task).(
        tokens := sys.tokens[issued := Token(userId, false, expiresAt, parent)],
        grants := if parent.None? then sys.grants + multiset{userId} else sys.grants)
  }

  function Step(sys: System, move: Move): System {
    match move
    case Register(userId) => if userId in sys.users then sys else sys.(users := sys.users[userId := false])
    case FindToken(task, token, now) =>
      if task in sys.jobs || !ActiveAt(sys.tokens, token, now) then sys
      else sys.(jobs := sys.jobs[task := Found(token, sys.tokens[token].userId)])
    case LoadUser(task) =>
      if task !in sys.jobs || !sys.jobs[task].Found? then sys
      else if !IsVerified(sys.users, sys.jobs[task].userId) then Drop(sys, task)
      else sys.(jobs := sys.jobs[task := Loaded(sys.jobs[task].token, sys.jobs[task].userId)])
    case RevokeToken(task) =>
      if task !in sys.jobs || !sys.jobs[task].Loaded? then sys
      else
        var token := sys.jobs[task].token;
        if token !in sys.tokens || sys.tokens[token].revoked then Drop(sys, task)
        else sys.(tokens := RevokeByHash(sys.tokens, token), jobs := sys.jobs[task := Claimed(token, sys.jobs[task].userId)])
    case CreateToken(task, issued, expiresAt) =>
      if task !in sys.jobs then sys
      else
        (match sys.jobs[task]
         case Claimed(token, userId) => Store(sys, task, issued, userId, expiresAt, Some(token))
         case Authenticated(userId) => Store(sys, task, issued, userId, expiresAt, None)
         case _ => sys)
    case Login(task, userId) =>
      if task in sys.jobs || !IsVerified(sys.users, userId) then sys
      else sys.(jobs := sys.jobs[task := Authenticated(userId)])
    case MatchCode(task, userId) =>
      if task in sys.jobs || userId !in sys.users || sys.users[userId] then sys
      else sys.(jobs := sys.jobs[task := CodeMatched(userId)])
    case MarkVerified(task) =>
      if task !in sys.jobs || !sys.jobs[task].CodeMatched? then sys
      else sys.(users := sys.users[sys.jobs[task].userId := true], jobs := sys.jobs[task := Authenticated(sys.jobs[task].userId)])
    case Logout(token) => sys.(tokens := RevokeByHash(sys.tokens, token))
    case LogoutAll(userId) => sys.(tokens := RevokeAll(sys.tokens, userId))
    case Abandon(task) => Drop(sys, task)
  }

  function Steps(sys: System, moves: seq<Move>): System {
    if moves == [] then sys else Step(Steps(sys, moves[..|moves| - 1]), moves[|moves| - 1])
  }

  // ----- one successor per token -----

  /** A token has a successor, or a task is about to create one. Each token has one of them at most,
      and only after it was revoked. */
  ghost predicate SingleUse(sys: System) {
    && (forall a, b :: a in sys.tokens && b in sys.tokens && sys.tokens[a].parent.Some? && sys.tokens[a].parent == sys.tokens[b].parent ==> a == b)
    && (forall a, b :: a in sys.jobs && b in sys.jobs && sys.jobs[a].Claimed? && sys.jobs[b].Claimed? && sys.jobs[a].token == sys.jobs[b].token ==> a == b)
    && (forall a, b :: a in sys.tokens && b in sys.jobs && sys.jobs[b].Claimed? ==> sys.tokens[a].parent != Some(sys.jobs[b].token))
    && (forall a :: a in sys.tokens && sys.tokens[a].parent.Some? ==> RevokedIn(sys.tokens, sys.tokens[a].parent.value))
    && (forall b :: b in sys.jobs && sys.jobs[b].Claimed? ==> RevokedIn(sys.tokens, sys.jobs[b].token))
  }

  predicate RevokedIn(tokens: map<int, Token>, token: int) {
    token in tokens && tokens[token].revoked
  }

  /** Rows are never deleted or reassigned, and a revoked row stays revoked. */
  ghost predicate Grows(before: map<int, Token>, after: map<int, Token>) {
    forall t :: t in before ==>
      && t in after
      && after[t].userId == before[t].userId && after[t].parent == before[t].parent
      && (before[t].revoked ==> after[t].revoked)
  }

  lemma StepGrows(sys: System, move: Move)
    ensures Grows(sys.tokens, Step(sys, move).tokens)
  {
  }

  lemma ClaimKeepsSingleUse(sys: System, task: int)
    requires SingleUse(sys)
    ensures SingleUse(Step(sys, RevokeToken(task)))
  {
  }

  lemma CreateKeepsSingleUse(sys: System, task: int, issued: int, expiresAt: int)
    requires SingleUse(sys)
    ensures SingleUse(Step(sys, CreateToken(task, issued, expiresAt)))
  {
    if task in sys.jobs && issued !in sys.tokens && sys.jobs[task].Claimed? {
      ExchangeKeepsSingleUse(sys, task, issued, expiresAt);
    }
  }

  lemma ExchangeKeepsSingleUse(sys: System, task: int, issued: int, expiresAt: int)
    requires SingleUse(sys) && issued !in sys.tokens && task in sys.jobs && sys.jobs[task].Claimed?
    ensures SingleUse(Store(sys, task, issued, sys.jobs[task].userId, expiresAt, Some(sys.jobs[task].token)))
  {
  }

  /** A step that makes no claim and stores no token: the rows keep their parents, and the claims were
      there before. */
  lemma NoNewClaims(before: System, after: System)
    requires SingleUse(before)
    requires Grows(before.tokens, after.tokens) && after.tokens.Keys <= before.tokens.Keys
    requires forall j :: j in after.jobs && after.jobs[j].Claimed? ==> j in before.jobs && before.jobs[j] == after.jobs[j]
    ensures SingleUse(after)
  {
  }

  lemma StepKeepsSingleUse(sys: System, move: Move)
    requires SingleUse(sys)
    ensures SingleUse(Step(sys, move))
  {
    match move
    case RevokeToken(task) => ClaimKeepsSingleUse(sys, task);
    case CreateToken(task, issued, expiresAt) => CreateKeepsSingleUse(sys, task, issued, expiresAt);
    case _ =>
      StepGrows(sys, move);
      NoNewClaims(sys, Step(sys, move));
  }

  lemma {:induction false} StepsKeepSingleUse(sys: System, moves: seq<Move>)
    requires SingleUse(sys)
    ensures SingleUse(Steps(sys, moves))
  {
    if moves != [] {
      StepsKeepSingleUse(sys, moves[..|moves| - 1]);
      StepKeepsSingleUse(Steps(sys, moves[..|moves| - 1]), moves[|moves| - 1]);
    }
  }

  /** Under any interleaving a refresh token is exchanged for at most one other token. */
  lemma AtMostOneSuccessor(moves: seq<Move>, a: int, b: int)
    requires var tokens := Steps(START, moves).tokens;
             a in tokens && b in tokens && tokens[a].parent.Some? && tokens[a].parent == tokens[b].parent
    ensures a == b
    ensures RevokedIn(Steps(START, moves).tokens, Steps(START, moves).tokens[a].parent.value)
  {
    StepsKeepSingleUse(START, moves);
  }

  /** A revoked token never becomes active again. */
  lemma {:induction false} RevokedStaysRevoked(sys: System, moves: seq<Move>, token: int, now: int)
    requires RevokedIn(sys.tokens, token)
    ensures RevokedIn(Steps(sys, moves).tokens, token)
    ensures !ActiveAt(Steps(sys, moves).tokens, token, now)
  {
    if moves != [] {
      RevokedStaysRevoked(sys, moves[..|moves| - 1], token, now);
      StepGrows(Steps(sys, moves[..|moves| - 1]), moves[|moves| - 1]);
    }
  }

  // ----- tokens and grants -----

  function Live(sys: System, userId: int): set<int> {
    set t | t in sys.tokens && sys.tokens[t].userId == userId && !sys.tokens[t].revoked
  }

  function Refreshing(sys: System, userId: int): set<int> {
    set j | j in sys.jobs && sys.jobs[j].Claimed? && sys.jobs[j].userId == userId
  }

  /** The jobs name the user that their token belongs to. */
  ghost predicate JobsMatch(sys: System) {
    forall j :: j in sys.jobs ==>
      match sys.jobs[j]
      case Found(token, userId) => token in sys.tokens && sys.tokens[token].userId == userId
      case Loaded(token, userId) => token in sys.tokens && sys.tokens[token].userId == userId
      case _ => true
  }

  lemma StepKeepsJobsMatch(sys: System, move: Move)
    requires JobsMatch(sys)
    ensures JobsMatch(Step(sys, move))
  {
  }

  /** The tokens that are live or being exchanged are covered by logins and verifications. */
  ghost predicate Covered(sys: System, userId: int) {
    |Live(sys, userId)| + |Refreshing(sys, userId)| <= sys.grants[userId]
  }

  lemma Smaller(a: set<int>, b: set<int>)
    requires a <= b
    ensures |a| <= |b|
  {
    var rest := b - a;
    assert b == a + rest;
  }

  lemma DropKeepsCovered(sys: System, task: int, userId: int)
    requires Covered(sys, userId)
    ensures Covered(Drop(sys, task), userId)
  {
    Smaller(Refreshing(Drop(sys, task), userId), Refreshing(sys, userId));
    assert Live(Drop(sys, task), userId) == Live(sys, userId);
  }

  lemma ClaimKeepsCovered(sys: System, task: int, userId: int)
    requires JobsMatch(sys) && Covered(sys, userId)
    ensures Covered(Step(sys, RevokeToken(task)), userId)
  {
    var after := Step(sys, RevokeToken(task));
    if task in sys.jobs && sys.jobs[task].Loaded? {
      var token := sys.jobs[task].token;
      if token !in sys.tokens || sys.tokens[token].revoked {
        DropKeepsCovered(sys, task, userId);
      } else if sys.jobs[task].userId == userId {
        assert Live(after, userId) == Live(sys, userId) - {token};
        assert Refreshing(after, userId) == Refreshing(sys, userId) + {task};
      } else {
        assert Live(after, userId) == Live(sys, userId);
        assert Refreshing(after, userId) == Refreshing(sys, userId);
      }
    }
  }

  /** The exchanged token takes the place of the exchange. */
  lemma ExchangeKeepsCovered(sys: System, task: int, issued: int, expiresAt: int, userId: int)
    requires Covered(sys, userId) && issued !in sys.tokens && task in sys.jobs && sys.jobs[task].Claimed?
    ensures Covered(Store(sys, task, issued, sys.jobs[task].userId, expiresAt, Some(sys.jobs[task].token)), userId)
  {
    var after := Store(sys, task, issued, sys.jobs[task].userId, expiresAt, Some(sys.jobs[task].token));
    if sys.jobs[task].userId == userId {
      assert Live(after, userId) == Live(sys, userId) + {issued};
      assert Refreshing(after, userId) == Refreshing(sys, userId) - {task};
    } else {
      assert Live(after, userId) == Live(sys, userId);
      assert Refreshing(after, userId) == Refreshing(sys, userId);
    }
  }

  /** A login or verification grants the token it stores. */
  lemma GrantKeepsCovered(sys: System, task: int, issued: int, expiresAt: int, userId: int)
    requires Covered(sys, userId) && issued !in sys.tokens && task in sys.jobs && sys.jobs[task].Authenticated?
    ensures Covered(Store(sys, task, issued, sys.jobs[task].userId, expiresAt, None), userId)
  {
    var after := Store(sys, task, issued, sys.jobs[task].userId, expiresAt, None);
    assert Refreshing(after, userId) == Refreshing(sys, userId);
    if sys.jobs[task].userId == userId {
      assert Live(after, userId) == Live(sys, userId) + {issued};
    } else {
      assert Live(after, userId) == Live(sys, userId);
    }
  }

  lemma CreateKeepsCovered(sys: System, task: int, issued: int, expiresAt: int, userId: int)
    requires Covered(sys, userId)
    ensures Covered(Step(sys, CreateToken(task, issued, expiresAt)), userId)
  {
    if task in sys.jobs {
      if issued in sys.tokens {
        DropKeepsCovered(sys, task, userId);
      } else if sys.jobs[task].Claimed? {
        ExchangeKeepsCovered(sys, task, issued, expiresAt, userId);
      } else if sys.jobs[task].Authenticated? {
        GrantKeepsCovered(sys, task, issued, expiresAt, userId);
      }
    }
  }

  /** A step that neither claims nor stores a token adds nothing to cover. */
  lemma OthersKeepCovered(sys: System, move: Move, userId: int)
    requires Covered(sys, userId) && !move.RevokeToken? && !move.CreateToken?
    ensures Covered(Step(sys, move), userId)
  {
    Smaller(Live(Step(sys, move), userId), Live(sys, userId));
    Smaller(Refreshing(Step(sys, move), userId), Refreshing(sys, userId));
  }

  lemma {:induction false} StepsKeepCovered(sys: System, moves: seq<Move>, userId: int)
    requires JobsMatch(sys) && Covered(sys, userId)
    ensures JobsMatch(Steps(sys, moves)) && Covered(Steps(sys, moves), userId)
  {
    if moves != [] {
      var before, move := Steps(sys, moves[..|moves| - 1]), moves[|moves| - 1];
      StepsKeepCovered(sys, moves[..|moves| - 1], userId);
      StepKeepsJobsMatch(before, move);
      match move
      case RevokeToken(task) => ClaimKeepsCovered(before, task, userId);
      case CreateToken(task, issued, expiresAt) => CreateKeepsCovered(before, task, issued, expiresAt, userId);
      case _ => OthersKeepCovered(before, move, userId);
    }
  }

  /** Under any interleaving, the active tokens of a user never outnumber the logins and email
      verifications that stored a token for the user. */
  lemma ActiveTokensAreGranted(moves: seq<Move>, userId: int, now: int)
    ensures var sys := Steps(START, moves);
            |set t | t in sys.tokens && sys.tokens[t].userId == userId && ActiveAt(sys.tokens, t, now)| <= sys.grants[userId]
  {
    var sys := Steps(START, moves);
    assert Live(START, userId) == {} && Refreshing(START, userId) == {};
    StepsKeepCovered(START, moves, userId);
    Smaller((set t | t in sys.tokens && sys.tokens[t].userId == userId && ActiveAt(sys.tokens, t, now)), Live(sys, userId));
  }

  // ----- tokens belong to verified users -----

  ghost predicate TokensOfVerified(sys: System) {
    && (forall t :: t in sys.tokens ==> IsVerified(sys.users, sys.tokens[t].userId))
    && (forall j :: j in sys.jobs && !sys.jobs[j].CodeMatched? && !sys.jobs[j].Found? ==> IsVerified(sys.users, sys.jobs[j].userId))
  }

  /** Verified is permanent, and every stored token belongs to a verified user. */
  lemma {:induction false} OnlyVerifiedUsersHoldTokens(moves: seq<Move>)
    ensures TokensOfVerified(Steps(START, moves))
  {
    if moves != [] {
      OnlyVerifiedUsersHoldTokens(moves[..|moves| - 1]);
      StepKeepsVerified(Steps(START, moves[..|moves| - 1]), moves[|moves| - 1]);
    }
  }

  lemma StepKeepsVerified(sys: System, move: Move)
    requires TokensOfVerified(sys)
    ensures TokensOfVerified(Step(sys, move))
    ensures forall u :: IsVerified(sys.users, u) ==> IsVerified(Step(sys, move).users, u)
  {
  }

  /** A user becomes verified only by the step that marks a matched code, and that user alone. */
  lemma VerifiedOnlyByACode(sys: System, move: Move, userId: int)
    ensures IsVerified(Step(sys, move).users, userId) <==>
      || IsVerified(sys.users, userId)
      || (move.MarkVerified? && move.task in sys.jobs && sys.jobs[move.task] == CodeMatched(userId))
  {
  }
}
