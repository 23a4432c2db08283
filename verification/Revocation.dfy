/** Access tokens, and the Redis blacklist that makes a logout take effect before they
    expire (the "exp" claim of section 4.1.4 of RFC 7519). Times are milliseconds of one clock. */
module Revocation {

  /** Fifteen minutes. */
  const ACCESS_TTL: nat := 900_000

  datatype AccessToken = AccessToken(jti: string, exp: nat)

  /** When each blacklisted jti's key expires. */
  type Blacklist = map<string, nat>

  /** Numeric dates in a token are whole seconds. */
  function GenerateAccessToken(jti: string, now: nat): AccessToken {
    AccessToken(jti, (now + ACCESS_TTL) / 1000 * 1000)
  }

  /** The expiry check; signatures are taken as valid. */
  predicate Parses(t: AccessToken, now: nat) {
    now < t.exp
  }

  function Added(b: Blacklist, jti: string, ttl: int, now: nat, redisOk: bool): Blacklist {
    if ttl <= 0 || !redisOk then b else b[jti := now + ttl]
  }

  /** Fails open when Redis cannot be reached. */
  predicate Listed(b: Blacklist, jti: string, now: nat, redisOk: bool) {
    redisOk && jti in b && now < b[jti]
  }

  predicate Authenticates(b: Blacklist, t: AccessToken, now: nat, redisOk: bool) {
    Parses(t, now) && !Listed(b, t.jti, now, redisOk)
  }

  /** A logout: the handler measures the remaining lifetime at `measured`, and the
      blacklist entry is written at `stored`. */
  datatype Logout = Logout(token: AccessToken, measured: nat, stored: nat, redisOk: bool)

  function LoggedOut(b: Blacklist, l: Logout): Blacklist {
    if l.token.jti == "" then b else Added(b, l.token.jti, l.token.exp - l.measured, l.stored, l.redisOk)
  }

  function After(logouts: seq<Logout>): Blacklist {
    if logouts == [] then map[] else LoggedOut(After(logouts[..|logouts| - 1]), logouts[|logouts| - 1])
  }

  /** Tokens carry distinct, non-empty jtis, and measuring comes before storing. */
  ghost predicate Sound(logouts: seq<Logout>, t: AccessToken) {
    t.jti != "" && forall l :: l in logouts ==> l.measured <= l.stored && (l.token.jti == t.jti ==> l.token == t)
  }

  /** Some logout of the token got through to Redis. */
  ghost predicate LogoutStored(logouts: seq<Logout>, t: AccessToken) {
    exists l :: l in logouts && l.token == t && l.redisOk
  }

  lemma {:induction false} EntryOutlivesToken(logouts: seq<Logout>, t: AccessToken)
    requires Sound(logouts, t)
    ensures t.jti in After(logouts) ==> After(logouts)[t.jti] >= t.exp && LogoutStored(logouts, t)
    ensures (exists l :: l in logouts && l.token == t && l.redisOk && l.measured < t.exp) ==> t.jti in After(logouts)
  {
    if logouts != [] {
      var before, last := logouts[..|logouts| - 1], logouts[|logouts| - 1];
      assert logouts == before + [last];
      EntryOutlivesToken(before, t);
      if t.jti in After(before) {
        var l :| l in before && l.token == t && l.redisOk;
        assert l in logouts;
      }
      assert last in logouts;
    }
  }

  /** Revocation has no gap: after any logouts whatever, with Redis reachable, a token
      is accepted at an instant exactly when it has not expired by then and no logout
      of it was stored. So a logged-out token is rejected from then on, for ever. */
  lemma LogoutIsFinal(logouts: seq<Logout>, t: AccessToken, now: nat)
    requires Sound(logouts, t) && forall l :: l in logouts ==> l.stored <= now
    ensures Authenticates(After(logouts), t, now, true) <==> now < t.exp && !LogoutStored(logouts, t)
  {
    EntryOutlivesToken(logouts, t);
  }

  /** A jti is on the blacklist exactly if a logout of a token that had it, and had not
      expired when measured, got through to Redis. */
  lemma {:induction false} OnlyLogoutsAreStored(logouts: seq<Logout>, jti: string)
    ensures jti in After(logouts) <==>
            exists l :: l in logouts && l.token.jti == jti && jti != "" && l.redisOk && l.measured < l.token.exp
  {
    if logouts != [] {
      var before, last := logouts[..|logouts| - 1], logouts[|logouts| - 1];
      OnlyLogoutsAreStored(before, jti);
      assert forall l :: l in logouts <==> l in before || l == last;
    }
  }

  /** While Redis cannot be reached, every token that has not expired is accepted. */
  lemma FailsOpen(b: Blacklist, t: AccessToken, now: nat)
    ensures Authenticates(b, t, now, false) <==> now < t.exp
  {
  }

  /** Failing open costs no more than the lifetime: whatever the blacklist holds and
      whether or not Redis answers, a token issued at `issued` is refused fifteen
      minutes later; and one that was never stored, or while Redis is down, is good
      until the last second before. */
  lemma LifetimeBoundsExposure(b: Blacklist, jti: string, issued: nat, now: nat, redisOk: bool)
    ensures GenerateAccessToken(jti, issued).jti == jti && GenerateAccessToken(jti, issued).exp % 1000 == 0
    ensures Authenticates(b, GenerateAccessToken(jti, issued), now, redisOk) ==> now < issued + 900_000
    ensures now + 1000 <= issued + 900_000 && (jti !in b || !redisOk) ==>
              Authenticates(b, GenerateAccessToken(jti, issued), now, redisOk)
  {
  }

  class BlacklistStore {
    var keys: Blacklist

    constructor ()
      ensures keys == map[]
    {
      keys := map[];
    }

    method Add(jti: string, ttl: int, now: nat, redisOk: bool)
      modifies this
      ensures keys == Added(old(keys), jti, ttl, now, redisOk)
    {
      if ttl <= 0 {
        return;
      }
      if redisOk {
        keys := keys[jti := now + ttl];
      }
    }

    method IsBlacklisted(jti: string, now: nat, redisOk: bool) returns (listed: bool)
      ensures listed == Listed(keys, jti, now, redisOk)
      ensures !redisOk ==> !listed
    {
      if !redisOk {
        return false;
      }
      listed := jti in keys && now < keys[jti];
    }

    /** The blacklisting half of Logout. */
    method RevokeAccess(t: AccessToken, measured: nat, stored: nat, redisOk: bool)
      modifies this
      ensures keys == LoggedOut(old(keys), Logout(t, measured, stored, redisOk))
    {
      var remaining := t.exp - measured;
      if t.jti != "" {
        Add(t.jti, remaining, stored, redisOk);
      }
    }

    /** JWTAuth. */
    method Authenticate(t: AccessToken, now: nat, redisOk: bool) returns (accepted: bool)
      ensures accepted == Authenticates(keys, t, now, redisOk)
    {
      if now >= t.exp {
        return false;
      }
      var listed := IsBlacklisted(t.jti, now, redisOk);
      return !listed;
    }
  }
}
