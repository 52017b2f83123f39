/** What the blacklist check answers over every run: for whom a token is refused, and for how long. */
module TokenAnswers {
  import opened TokenRotation

  /** The lifetime of a cache entry: the whole seconds the token has left, and one when it has less. */
  lemma TtlMeans(expiresAt: real, now: real)
    ensures
      var ttl := Ttl(expiresAt, now);
      && ttl == ttl.Floor as real
      && (expiresAt - now < 1.0 ==> ttl == 1.0)
      && (expiresAt - now >= 1.0 ==> now + ttl <= expiresAt < now + ttl + 1.0)
  {
  }

  /** Event `a` puts the token into the cache: the answer to a refresh, or a logout that spends it. */
  ghost predicate CachesAt(ss: seq<State>, es: seq<Event>, expiry: Jti -> real, a: nat, jti: Jti)
    requires |ss| == |es| + 1 && a < |es|
  {
    && ss[a].cacheUp
    && match es[a]
       case Answer(i) => i < |ss[a].calls| && ss[a].calls[i].jti == jti
       case Logout(id) => SpendsAt(ss, es, expiry, a, jti)
       case _ => false
  }

  /** ... and no event before `k` does so again. */
  ghost predicate LastCachedAt(ss: seq<State>, es: seq<Event>, expiry: Jti -> real, a: nat, k: nat, jti: Jti)
    requires |ss| == |es| + 1 && k <= |es|
  {
    a < k && CachesAt(ss, es, expiry, a, jti) && forall b: nat | a < b < k :: !CachesAt(ss, es, expiry, b, jti)
  }

  lemma CacheStep(ss: seq<State>, es: seq<Event>, expiry: Jti -> real, jti: Jti, k: nat)
    requires IsRun(ss, es, expiry) && k < |es|
    ensures ss[k + 1].cacheUp == ss[k].cacheUp && ss[k].now <= ss[k + 1].now
    ensures jti in ss[k + 1].cache <==> CachesAt(ss, es, expiry, k, jti) || jti in ss[k].cache
    ensures jti in ss[k + 1].cache ==>
              ss[k + 1].cache[jti] == if CachesAt(ss, es, expiry, k, jti)
                                      then ss[k].now + Ttl(expiry(jti), ss[k].now) else ss[k].cache[jti]
  {
    hide Ttl;
    assert Enabled(ss[k], es[k]) && ss[k + 1] == Next(ss[k], es[k], expiry);
  }

  /** The cache holds for each token the entry of the last event that put it there. */
  lemma {:induction false} CacheRemembersLast(
    ss: seq<State>, es: seq<Event>, expiry: Jti -> real, jti: Jti, k: nat)
    returns (a: nat)
    requires IsRun(ss, es, expiry) && k <= |es|
    ensures ss[k].cacheUp == ss[0].cacheUp
    ensures jti in ss[k].cache <==> LastCachedAt(ss, es, expiry, a, k, jti)
    ensures jti !in ss[k].cache ==> forall b: nat | b < k :: !CachesAt(ss, es, expiry, b, jti)
    ensures jti in ss[k].cache ==> ss[k].cache[jti] == ss[a].now + Ttl(expiry(jti), ss[a].now)
  {
    hide CachesAt, Ttl;
    a := k;
    if k > 0 {
      a := CacheRemembersLast(ss, es, expiry, jti, k - 1);
      CacheStep(ss, es, expiry, jti, k - 1);
      if CachesAt(ss, es, expiry, k - 1, jti) {
        a := k - 1;
      } else if jti !in ss[k].cache {
        a := k;
      }
    }
  }

  /** The token was cached, and the last entry is still there. */
  ghost predicate CacheKnows(ss: seq<State>, es: seq<Event>, expiry: Jti -> real, k: nat, jti: Jti)
    requires |ss| == |es| + 1 && k <= |es|
  {
    exists a: nat :: && LastCachedAt(ss, es, expiry, a, k, jti)
                     && ss[k].now < ss[a].now + Ttl(expiry(jti), ss[a].now)
  }

  /** The token was spent, and its row has not been swept since. */
  ghost predicate TableKnows(ss: seq<State>, es: seq<Event>, expiry: Jti -> real, k: nat, jti: Jti)
    requires |ss| == |es| + 1 && k <= |es|
  {
    exists a: nat :: a < k && SpendsAt(ss, es, expiry, a, jti) && !SweptBetween(es, expiry, jti, a, k)
  }

  /**
   The exact answer of the check in every run: with the cache up it refuses exactly while the entry of
   the last answered refresh or logout lives, and otherwise exactly while the row of a use is stored.
   */
  lemma CheckFailsIff(ss: seq<State>, es: seq<Event>, expiry: Jti -> real, k: nat, i: nat)
    requires IsRun(ss, es, expiry) && k < |es| && es[k] == CheckBlacklist(i)
    ensures i < |ss[k].calls|
    ensures
      var jti := ss[k].calls[i].jti;
      && ss[k + 1].calls[i].pc in {Failed, Checked}
      && (ss[k + 1].calls[i].pc == Failed <==>
            if ss[0].cacheUp then CacheKnows(ss, es, expiry, k, jti) else TableKnows(ss, es, expiry, k, jti))
  {
    assert Enabled(ss[k], es[k]) && ss[k + 1] == Next(ss[k], es[k], expiry);
    hide CachesAt, SpendsAt, SweptBetween, Ttl;
    var jti := ss[k].calls[i].jti;
    RowsRememberSpending(ss, es, expiry, jti, k);
    var a := CacheRemembersLast(ss, es, expiry, jti, k);
    assert forall b: nat :: LastCachedAt(ss, es, expiry, b, k, jti) && jti in ss[k].cache ==> b == a;
  }

  /** A token that was never used passes, whatever happens to others. */
  lemma UnspentTokenPasses(ss: seq<State>, es: seq<Event>, expiry: Jti -> real, k: nat, i: nat)
    requires IsRun(ss, es, expiry) && k < |es| && es[k] == CheckBlacklist(i)
    requires i < |ss[k].calls| ==> forall a: nat | a < k :: !SpendsAt(ss, es, expiry, a, ss[k].calls[i].jti)
    ensures ss[k + 1].calls[i].pc == Checked
  {
    CheckFailsIff(ss, es, expiry, k, i);
    var jti := ss[k].calls[i].jti;
    forall a: nat | a < k ensures !CachesAt(ss, es, expiry, a, jti) {
      if CachesAt(ss, es, expiry, a, jti) {
        assert Enabled(ss[a], es[a]);
        if es[a].Answer? {
          var b := UsedSpends(ss, es, expiry, a, es[a].i);
        }
      }
    }
  }

  lemma {:induction false} TimeGoesOn(ss: seq<State>, es: seq<Event>, expiry: Jti -> real, a: nat, k: nat)
    requires IsRun(ss, es, expiry) && a <= k < |ss|
    ensures ss[a].now <= ss[k].now
  {
    if a < k {
      TimeGoesOn(ss, es, expiry, a, k - 1);
      CacheStep(ss, es, expiry, "", k - 1);
    }
  }

  /** With the cache up, an answered refresh or a logout is refused up to a second before the token expires. */
  lemma CachedTokenIsRefused(
    ss: seq<State>, es: seq<Event>, expiry: Jti -> real, a: nat, k: nat, i: nat)
    requires IsRun(ss, es, expiry) && a < k < |es| && es[k] == CheckBlacklist(i)
    requires i < |ss[k].calls| ==> CachesAt(ss, es, expiry, a, ss[k].calls[i].jti)
    requires i < |ss[k].calls| ==> ss[k].now <= expiry(ss[k].calls[i].jti) - 1.0
    ensures ss[k + 1].calls[i].pc == Failed
  {
    CheckFailsIff(ss, es, expiry, k, i);
    assert ss[a].cacheUp;
    hide CachesAt, IsRun, Ttl;
    var jti := ss[k].calls[i].jti;
    var _ := CacheRemembersLast(ss, es, expiry, jti, a);
    var last := CacheRemembersLast(ss, es, expiry, jti, k);
    TtlMeans(expiry(jti), ss[last].now);
  }

  /** The same without a cache, and even past the expiry, as long as no clean-up has gone so far. */
  lemma StoredTokenIsRefused(
    ss: seq<State>, es: seq<Event>, expiry: Jti -> real, a: nat, k: nat, i: nat)
    requires IsRun(ss, es, expiry) && a < k < |es| && es[k] == CheckBlacklist(i) && !ss[0].cacheUp
    requires i < |ss[k].calls| ==> SpendsAt(ss, es, expiry, a, ss[k].calls[i].jti)
    requires i < |ss[k].calls| ==> ss[k].now <= expiry(ss[k].calls[i].jti)
    ensures ss[k + 1].calls[i].pc == Failed
  {
    CheckFailsIff(ss, es, expiry, k, i);
    hide SpendsAt;
    forall c: nat | a < c < k && es[c].Cleanup? ensures es[c].cutoff <= ss[k].now {
      assert Enabled(ss[c], es[c]);
      TimeGoesOn(ss, es, expiry, c, k);
    }
  }

  /** Only the expiry fails a call before the check. */
  lemma DecodeFailsIff(ss: seq<State>, es: seq<Event>, expiry: Jti -> real, k: nat, i: nat)
    requires IsRun(ss, es, expiry) && k < |es| && es[k] == Decode(i)
    ensures i < |ss[k].calls| && ss[k + 1].calls[i].pc in {Failed, Decoded}
    ensures ss[k + 1].calls[i].pc == Failed <==> expiry(ss[k].calls[i].jti) <= ss[k].now
  {
    assert Enabled(ss[k], es[k]) && ss[k + 1] == Next(ss[k], es[k], expiry);
  }

  /** The tokens logged out are those some logout spent. */
  lemma {:induction false} LoggedOutIff(ss: seq<State>, es: seq<Event>, expiry: Jti -> real, jti: Jti, k: nat)
    requires IsRun(ss, es, expiry) && k < |ss|
    ensures jti in ss[k].loggedOut <==>
            exists a: nat :: a < k && es[a] == Logout(jti) && SpendsAt(ss, es, expiry, a, jti)
  {
    if k > 0 {
      LoggedOutIff(ss, es, expiry, jti, k - 1);
      assert Enabled(ss[k - 1], es[k - 1]) && ss[k] == Next(ss[k - 1], es[k - 1], expiry);
    }
  }

  /** A logout is always possible and takes effect at once: a valid token is blacklisted and known to be. */
  lemma LogoutTakesEffect(s: State, jti: Jti, expiry: Jti -> real)
    requires s.now < expiry(jti)
    ensures Enabled(s, Logout(jti))
    ensures
      var t := Next(s, Logout(jti), expiry);
      jti in t.rows && (jti !in s.rows ==> jti in t.loggedOut && IsBlacklisted(t, jti))
  {
    TtlMeans(expiry(jti), s.now);
  }
}
