/** The account requests as the program runs them: methods over the users and auth_tokens tables. */
module Accounts {
  import opened Models
  import V = EmailVerification
  import S = Sessions

  datatype Reply = Ok | Unauthorized | EmailNotVerified | TokenConflict | Denied(check: V.Check)

  /** What a refresh leaves in auth_tokens when nothing else runs meanwhile. */
  function Refreshed(tokens: map<int, S.Token>, token: int, now: int, verified: bool, issued: int, expiresAt: int): map<int, S.Token> {
    if !S.ActiveAt(tokens, token, now) || !verified then tokens
    else
      var revoked := S.RevokeByHash(tokens, token);
      if issued in tokens then revoked
      else revoked[issued := S.Token(tokens[token].userId, false, expiresAt, Some(token))]
  }

  /** A refresh revokes the token and stores its successor, which is good until `expiresAt`; a token that is
      missing, revoked or over changes nothing. */
  lemma RefreshEffect(tokens: map<int, S.Token>, token: int, now: int, verified: bool, issued: int, expiresAt: int)
    ensures var after := Refreshed(tokens, token, now, verified, issued, expiresAt);
            if token !in tokens || tokens[token].revoked || tokens[token].expiresAt <= now || !verified then after == tokens
            else
              && after.Keys == tokens.Keys + {issued}
              && after[token] == S.Token(tokens[token].userId, true, tokens[token].expiresAt, tokens[token].parent)
              && (issued !in tokens ==> after[issued] == S.Token(tokens[token].userId, false, expiresAt, Some(token)))
              && forall t :: t in tokens && t != token ==> after[t] == tokens[t]
  {
  }

  /** Uninterrupted, the four steps of a refresh exchange the token for its successor. */
  lemma UninterruptedRefresh(sys: S.System, token: int, now: int, issued: int, expiresAt: int)
    requires sys.jobs == map[]
    ensures var moves := [S.FindToken(0, token, now), S.LoadUser(0), S.RevokeToken(0), S.CreateToken(0, issued, expiresAt)];
            var verified := token in sys.tokens && S.IsVerified(sys.users, sys.tokens[token].userId);
            S.Steps(sys, moves) == sys.(tokens := Refreshed(sys.tokens, token, now, verified, issued, expiresAt))
  {
    var find, load, claim, create := S.FindToken(0, token, now), S.LoadUser(0), S.RevokeToken(0), S.CreateToken(0, issued, expiresAt);
    assert [find, load, claim, create][..3] == [find, load, claim];
    assert [find, load, claim][..2] == [find, load] && [find, load][..1] == [find] && [find][..0] == [];
    var one := S.Step(sys, find);
    var two := S.Step(one, load);
    var three := S.Step(two, claim);
    assert S.Steps(sys, [find]) == one && S.Steps(sys, [find, load]) == two && S.Steps(sys, [find, load, claim]) == three;
    if S.ActiveAt(sys.tokens, token, now) && S.IsVerified(sys.users, sys.tokens[token].userId) {
      assert three.jobs == map[0 := S.Claimed(token, sys.tokens[token].userId)];
      assert three.jobs - {0} == map[];
    } else if S.ActiveAt(sys.tokens, token, now) {
      assert one.jobs - {0} == map[];
      assert two == sys;
    }
  }

  /** Uninterrupted, a login stores one token for a verified user and does nothing for any other. */
  lemma UninterruptedLogin(sys: S.System, userId: int, issued: int, expiresAt: int)
    requires sys.jobs == map[]
    ensures S.Steps(sys, [S.Login(0, userId), S.CreateToken(0, issued, expiresAt)]) ==
            if userId in sys.users && sys.users[userId] && issued !in sys.tokens
            then sys.(tokens := sys.tokens[issued := S.Token(userId, false, expiresAt, None)], grants := sys.grants + multiset{userId})
            else sys
  {
    var login, create := S.Login(0, userId), S.CreateToken(0, issued, expiresAt);
    assert [login, create][..1] == [login] && [login][..0] == [];
    var one := S.Step(sys, login);
    assert S.Steps(sys, [login]) == one;
    if one != sys {
      assert one.jobs - {0} == map[];
    }
  }

  /** Uninterrupted, a correct code verifies the user and stores one token. */
  lemma UninterruptedVerification(sys: S.System, userId: int, issued: int, expiresAt: int)
    requires sys.jobs == map[] && userId in sys.users && !sys.users[userId] && issued !in sys.tokens
    ensures S.Steps(sys, [S.MatchCode(0, userId), S.MarkVerified(0), S.CreateToken(0, issued, expiresAt)]) ==
            S.System(sys.users[userId := true], sys.tokens[issued := S.Token(userId, false, expiresAt, None)], map[], sys.grants + multiset{userId})
  {
    var compare, mark, create := S.MatchCode(0, userId), S.MarkVerified(0), S.CreateToken(0, issued, expiresAt);
    assert [compare, mark, create][..2] == [compare, mark] && [compare, mark][..1] == [compare] && [compare][..0] == [];
    var one := S.Step(sys, compare);
    var two := S.Step(one, mark);
    assert S.Steps(sys, [compare]) == one && S.Steps(sys, [compare, mark]) == two;
    assert two.jobs - {0} == map[];
  }

  /** A logout revokes the one token, a logout everywhere all tokens of the user. */
  lemma LogoutEffect(sys: S.System, token: int, userId: int)
    ensures S.Step(sys, S.Logout(token)) == sys.(tokens := S.RevokeByHash(sys.tokens, token))
    ensures forall t :: t in sys.tokens ==>
      && t in S.Step(sys, S.LogoutAll(userId)).tokens
      && (S.Step(sys, S.LogoutAll(userId)).tokens[t].revoked <==> sys.tokens[t].revoked || sys.tokens[t].userId == userId)
  {
    S.RevocationEffect(sys.tokens, token, userId);
  }

  class UserService {
    var users: map<int, V.User>
    var tokens: map<int, S.Token>
    const refreshTtl: int
    const codeTtl: int

    constructor (refreshTtl: int, codeTtl: int)
      ensures users == map[] && tokens == map[]
      ensures this.refreshTtl == refreshTtl && this.codeTtl == codeTtl
    {
      users, tokens := map[], map[];
      this.refreshTtl, this.codeTtl := refreshTtl, codeTtl;
    }

    ghost predicate VerifiedAt(userId: int)
      reads this
    {
      userId in users && users[userId].verified
    }

    /** users_email_key */
    ghost predicate UniqueEmails()
      reads this
    {
      forall i, j :: i in users && j in users && users[i].email == users[j].email ==> i == j
    }

    // ----- auth_tokens -----

    method RevokeByHash(token: int) returns (found: bool)
      modifies this`tokens
      ensures found == (token in old(tokens) && !old(tokens)[token].revoked)
      ensures tokens == S.RevokeByHash(old(tokens), token)
    {
      found := token in tokens && !tokens[token].revoked;
      if found {
        tokens := tokens[token := tokens[token].(revoked := true)];
      }
      assert token in old(tokens) && !found ==> old(tokens)[token].(revoked := true) == old(tokens)[token];
    }

    method RevokeAllByUserId(userId: int)
      modifies this`tokens
      ensures tokens == S.RevokeAll(old(tokens), userId)
    {
      tokens := map t | t in tokens ::
        if tokens[t].userId == userId && !tokens[t].revoked then tokens[t].(revoked := true) else tokens[t];
    }

    /** Only a verified user gets a token, and only one that no row has yet. */
    method CreateAuthResponse(userId: int, now: int, issued: int, parent: Option<int>) returns (reply: Reply)
      modifies this`tokens
      ensures reply == if !VerifiedAt(userId) then EmailNotVerified else if issued in old(tokens) then TokenConflict else Ok
      ensures tokens == if reply == Ok then old(tokens)[issued := S.Token(userId, false, now + refreshTtl, parent)] else old(tokens)
    {
      if userId !in users || !users[userId].verified {
        return EmailNotVerified;
      }
      if issued in tokens {
        return TokenConflict;
      }
      tokens := tokens[issued := S.Token(userId, false, now + refreshTtl, parent)];
      reply := Ok;
    }

    // ----- requests -----

    method Refresh(token: int, now: int, issued: int) returns (reply: Reply)
      modifies this`tokens
      ensures reply == Ok <==>
        && token in old(tokens) && !old(tokens)[token].revoked && now < old(tokens)[token].expiresAt
        && VerifiedAt(old(tokens)[token].userId) && issued !in old(tokens)
      ensures tokens == Refreshed(old(tokens), token, now, token in old(tokens) && VerifiedAt(old(tokens)[token].userId), issued, now + refreshTtl)
    {
      if token !in tokens || tokens[token].revoked || !(tokens[token].expiresAt > now) {
        return Unauthorized;
      }
      var userId := tokens[token].userId;
      if userId !in users || !users[userId].verified {
        return EmailNotVerified;
      }
      var found := RevokeByHash(token);
      if !found {
        return Unauthorized;
      }
      reply := CreateAuthResponse(userId, now, issued, Some(token));
    }

    method Login(email: string, passwordMatches: bool, now: int, issued: int) returns (reply: Reply)
      requires UniqueEmails()
      modifies this`tokens
      ensures forall id :: id in users && users[id].email == email ==>
        && (reply == Ok <==> passwordMatches && users[id].verified && issued !in old(tokens))
        && tokens == if reply == Ok then old(tokens)[issued := S.Token(id, false, now + refreshTtl, None)] else old(tokens)
      ensures (forall id :: id in users ==> users[id].email != email) ==> reply == Unauthorized && tokens == old(tokens)
    {
      if id :| id in users && users[id].email == email {
        if !passwordMatches {
          return Unauthorized;
        }
        reply := CreateAuthResponse(id, now, issued, None);
      } else {
        reply := Unauthorized;
      }
    }

    /** The attempt changes the row as AfterAttempt says, and a token is stored exactly when the code was
        right. */
    method VerifyEmail(email: string, code: string, now: int, recorded: bool, issued: int) returns (reply: Reply)
      requires UniqueEmails()
      modifies this`users, this`tokens
      ensures forall id :: id in old(users) && old(users)[id].email == email ==>
        var check := V.CheckCode(old(users)[id], code, now);
        && users == old(users)[id := V.AfterAttempt(old(users)[id], code, now, recorded)]
        && (check != V.Verified ==> reply == Denied(check) && tokens == old(tokens))
        && (check == V.Verified && issued !in old(tokens) ==>
              reply == Ok && tokens == old(tokens)[issued := S.Token(id, false, now + refreshTtl, None)])
        && (check == V.Verified && issued in old(tokens) ==> reply == TokenConflict && tokens == old(tokens))
      ensures (forall id :: id in old(users) ==> old(users)[id].email != email) ==>
        reply == Denied(V.UnknownUser) && users == old(users) && tokens == old(tokens)
      ensures reply == Ok <==>
        issued !in old(tokens) && exists id :: id in old(users) && old(users)[id].email == email && V.Opens(old(users)[id], code, now)
    {
      if id :| id in users && users[id].email == email {
        var user := users[id];
        if user.verified {
          return Denied(V.AlreadyVerified);
        }
        if user.codeHash == None || user.expiresAt == None {
          return Denied(V.NotRequested);
        }
        if now > user.expiresAt.value {
          return Denied(V.Expired);
        }
        if user.attempts >= V.MAX_ATTEMPTS {
          return Denied(V.TooManyAttempts);
        }
        var expectedHash := V.CodeHash(email, code);
        if expectedHash != user.codeHash.value {
          if recorded {
            users := users[id := V.IncrementAttempts(user)];
          }
          return Denied(V.WrongCode);
        }
        users := users[id := V.MarkEmailVerified(user)];
        reply := CreateAuthResponse(id, now, issued, None);
      } else {
        reply := Denied(V.UnknownUser);
      }
    }

    method ResendEmailVerification(email: string, code: string, now: int) returns (sent: V.Sent)
      requires UniqueEmails()
      modifies this`users
      ensures forall id :: id in old(users) && old(users)[id].email == email ==>
        && sent == V.CheckResend(old(users)[id], now)
        && users == old(users)[id := V.AfterResend(old(users)[id], code, now, codeTtl)]
      ensures (forall id :: id in old(users) ==> old(users)[id].email != email) ==> sent == V.NotFound && users == old(users)
    {
      if id :| id in users && users[id].email == email {
        var user := users[id];
        if user.verified {
          return V.VerifiedBefore;
        }
        if user.sentAt.Some? && now - user.sentAt.value < V.COOLDOWN {
          return V.TooSoon;
        }
        users := users[id := V.SaveEmailVerification(user, V.CodeHash(email, code), now + codeTtl, now)];
        sent := V.Sent;
      } else {
        sent := V.NotFound;
      }
    }

    method Logout(token: int)
      modifies this`tokens
      ensures tokens == S.RevokeByHash(old(tokens), token)
    {
      var _ := RevokeByHash(token);
    }
  }
}
