/**
 Refresh-token rotation: decode, blacklist check, insertion into the primary-keyed blacklist, cache,
 new pair. Calls interleave step by step with each other, with logouts, with the clock, with the
 expiry of cache entries and with the periodic clean-up of expired rows.
 */
module TokenRotation {
  type Jti = string

  datatype Pc =
    | Arrived | Decoded | Checked
    | Inserted(at: real)   // committed to the blacklist at that time
    | Returned(at: real)   // ... and answered with a new pair
    | Failed

  datatype Call = Call(jti: Jti, pc: Pc)

  /** `expiry` is the `exp` claim that the signature binds to the token's id. */
  datatype State = State(
    now: real,
    rows: map<Jti, real>,     // the blacklist table: id to expires_at
    cache: map<Jti, real>,    // the cache: id to the time at which the entry disappears
    cacheUp: bool,
    calls: seq<Call>,
    loggedOut: set<Jti>)

  datatype Event =
    | Arrive(jti: Jti)
    | Decode(i: nat)
    | CheckBlacklist(i: nat)
    | Insert(i: nat)
    | Answer(i: nat)
    | CacheError(i: nat)
    | Logout(jti: Jti)
    | Cleanup(cutoff: real)
    | Tick(elapsed: real)

  function Init(cacheUp: bool): State {
    State(0.0, map[], map[], cacheUp, [], {})
  }

  function WithPc(s: State, i: nat, pc: Pc): State
    requires i < |s.calls|
  {
    s.(calls := s.calls[i := s.calls[i].(pc := pc)])
  }

  /** `is_token_blacklisted`: the cache alone when it is up, the table otherwise. */
  predicate IsBlacklisted(s: State, jti: Jti) {
    if s.cacheUp then jti in s.cache && s.now < s.cache[jti] else jti in s.rows
  }

  /** Seconds, truncated, and at least one. */
  function Ttl(expiresAt: real, now: real): real {
    var whole := (expiresAt - now).Floor;
    if whole < 1 then 1.0 else whole as real
  }

  function Cached(s: State, jti: Jti, expiry: Jti -> real): State {
    if s.cacheUp then s.(cache := s.cache[jti := s.now + Ttl(expiry(jti), s.now)]) else s
  }

  predicate At(s: State, i: nat, pc: Pc) {
    i < |s.calls| && s.calls[i].pc == pc
  }

  predicate HasInserted(s: State, i: nat) {
    i < |s.calls| && s.calls[i].pc.Inserted?
  }

  predicate Enabled(s: State, e: Event) {
    match e
    case Arrive(_) => true
    case Decode(i) => At(s, i, Arrived)
    case CheckBlacklist(i) => At(s, i, Decoded)
    case Insert(i) => At(s, i, Checked)
    case Answer(i) => HasInserted(s, i)
    case CacheError(i) => HasInserted(s, i) && s.cacheUp
    case Logout(_) => true
    case Cleanup(cutoff) => cutoff <= s.now
    case Tick(d) => d > 0.0
  }

  function Next(s: State, e: Event, expiry: Jti -> real): State
    requires Enabled(s, e)
  {
    match e
    case Arrive(jti) => s.(calls := s.calls + [Call(jti, Arrived)])
    case Decode(i) => WithPc(s, i, if s.now < expiry(s.calls[i].jti) then Decoded else Failed)
    case CheckBlacklist(i) => WithPc(s, i, if IsBlacklisted(s, s.calls[i].jti) then Failed else Checked)
    case Insert(i) =>
      var jti := s.calls[i].jti;
      if jti in s.rows then WithPc(s, i, Failed)
      else WithPc(s.(rows := s.rows[jti := expiry(jti)]), i, Inserted(s.now))
    case Answer(i) => WithPc(Cached(s, s.calls[i].jti, expiry), i, Returned(s.calls[i].pc.at))
    case CacheError(i) => WithPc(s, i, Failed)
    case Logout(jti) =>
      if s.now < expiry(jti) && jti !in s.rows
      then Cached(s.(rows := s.rows[jti := expiry(jti)], loggedOut := s.loggedOut + {jti}), jti, expiry)
      else s
    case Cleanup(cutoff) => s.(rows := map jti | jti in s.rows && !(s.rows[jti] < cutoff) :: s.rows[jti])
    case Tick(d) => s.(now := s.now + d)
  }

  // ---- the invariant -------------------------------------------------------------------------

  predicate Used(s: State, i: nat) {
    i < |s.calls| && (s.calls[i].pc.Inserted? || s.calls[i].pc.Returned?)
  }

  /** The table still knows the id, or the token has expired by now. */
  predicate Spent(s: State, jti: Jti, expiry: Jti -> real) {
    jti in s.rows || s.now > expiry(jti)
  }

  ghost predicate Inv(s: State, expiry: Jti -> real) {
    && (forall jti | jti in s.rows :: s.rows[jti] == expiry(jti))
    && (forall jti | jti in s.loggedOut :: Spent(s, jti, expiry))
    && (forall i: nat | Used(s, i) :: Spent(s, s.calls[i].jti, expiry) && s.calls[i].pc.at <= s.now)
    && (forall i: nat, j: nat | Used(s, i) && Used(s, j) && i != j && s.calls[i].jti == s.calls[j].jti ::
          s.calls[i].pc.at > expiry(s.calls[i].jti) || s.calls[j].pc.at > expiry(s.calls[i].jti))
  }

  /** Only an insertion makes a call used; a step forgets a row only after the token's expiry. */
  lemma UsedNext(s: State, e: Event, expiry: Jti -> real)
    requires Inv(s, expiry) && Enabled(s, e) && !e.Insert?
    ensures
      var t := Next(s, e, expiry);
      && s.now <= t.now
      && (forall i: nat | Used(t, i) ::
            Used(s, i) && t.calls[i].jti == s.calls[i].jti && t.calls[i].pc.at == s.calls[i].pc.at)
      && (forall jti | Spent(s, jti, expiry) :: Spent(t, jti, expiry))
      && (forall jti | jti in t.rows :: t.rows[jti] == expiry(jti))
      && (forall jti | jti in t.loggedOut :: jti in s.loggedOut || jti in t.rows)
  {
    match e
    case Arrive(_) =>
    case Decode(_) =>
    case CheckBlacklist(_) =>
    case Answer(_) =>
    case CacheError(_) =>
    case Logout(_) =>
    case Cleanup(_) =>
    case Tick(_) =>
  }

  lemma InsertKeeps(s: State, i: nat, expiry: Jti -> real)
    requires Inv(s, expiry) && At(s, i, Checked)
    ensures Inv(Next(s, Insert(i), expiry), expiry)
  {
    var jti := s.calls[i].jti;
    var t := Next(s, Insert(i), expiry);
    if jti !in s.rows {
      assert forall k: nat | Used(t, k) && k != i :: Used(s, k) && t.calls[k] == s.calls[k];
    } else {
      assert forall k: nat | Used(t, k) :: Used(s, k) && t.calls[k] == s.calls[k];
    }
  }

  lemma InvNext(s: State, e: Event, expiry: Jti -> real)
    requires Inv(s, expiry) && Enabled(s, e)
    ensures Inv(Next(s, e, expiry), expiry)
  {
    if e.Insert? {
      InsertKeeps(s, e.i, expiry);
    } else {
      UsedNext(s, e, expiry);
    }
  }

  ghost predicate IsRun(ss: seq<State>, es: seq<Event>, expiry: Jti -> real) {
    && |ss| == |es| + 1
    && ss[0] == Init(ss[0].cacheUp)
    && forall k | 0 <= k < |es| :: Enabled(ss[k], es[k]) && ss[k + 1] == Next(ss[k], es[k], expiry)
  }

  lemma {:induction false} RunInv(ss: seq<State>, es: seq<Event>, expiry: Jti -> real, k: nat)
    requires IsRun(ss, es, expiry) && k < |ss|
    ensures Inv(ss[k], expiry)
  {
    if k > 0 {
      RunInv(ss, es, expiry, k - 1);
      InvNext(ss[k - 1], es[k - 1], expiry);
    }
  }

  // ---- at most once ----------------------------------------------------------------------------

  /** Event `a` used the token up: a refresh whose insertion succeeded, or a logout. */
  ghost predicate SpendsAt(ss: seq<State>, es: seq<Event>, expiry: Jti -> real, a: nat, jti: Jti)
    requires |ss| == |es| + 1 && a < |es|
  {
    match es[a]
    case Insert(i) => i < |ss[a].calls| && ss[a].calls[i].jti == jti && HasInserted(ss[a + 1], i)
    case Logout(id) => id == jti && ss[a].now < expiry(jti) && jti !in ss[a].rows
    case _ => false
  }

  /** A clean-up with a cut-off past the token's expiry lies strictly between the events `from` and `to`. */
  ghost predicate SweptBetween(es: seq<Event>, expiry: Jti -> real, jti: Jti, from: nat, to: nat) {
    exists c: nat :: from < c < to && c < |es| && es[c].Cleanup? && expiry(jti) < es[c].cutoff
  }

  lemma SweptOneMore(es: seq<Event>, expiry: Jti -> real, jti: Jti, from: nat, to: nat)
    requires from < to < |es|
    ensures SweptBetween(es, expiry, jti, from, to + 1)
            <==> SweptBetween(es, expiry, jti, from, to) || (es[to].Cleanup? && expiry(jti) < es[to].cutoff)
  {
    if es[to].Cleanup? && expiry(jti) < es[to].cutoff {
      assert from < to < to + 1;
    }
  }

  /** One step adds the row of a token exactly by spending it, and drops it exactly by such a clean-up. */
  lemma RowStep(ss: seq<State>, es: seq<Event>, expiry: Jti -> real, jti: Jti, k: nat)
    requires IsRun(ss, es, expiry) && k < |es|
    ensures jti in ss[k + 1].rows
            <==> SpendsAt(ss, es, expiry, k, jti)
                 || (jti in ss[k].rows && !(es[k].Cleanup? && expiry(jti) < es[k].cutoff))
  {
    RunInv(ss, es, expiry, k);
    assert Enabled(ss[k], es[k]) && ss[k + 1] == Next(ss[k], es[k], expiry);
  }

  /** The table knows a token exactly when it was spent and no clean-up past its expiry ran since. */
  lemma {:induction false} RowsRememberSpending(ss: seq<State>, es: seq<Event>, expiry: Jti -> real, jti: Jti, k: nat)
    requires IsRun(ss, es, expiry) && k < |ss|
    ensures jti in ss[k].rows <==>
            exists a: nat :: a < k && SpendsAt(ss, es, expiry, a, jti) && !SweptBetween(es, expiry, jti, a, k)
  {
    hide SpendsAt, SweptBetween, Next, Enabled;
    if k > 0 {
      var n := k - 1;
      RowsRememberSpending(ss, es, expiry, jti, n);
      RowStep(ss, es, expiry, jti, n);
      forall a: nat | a < n
        ensures SweptBetween(es, expiry, jti, a, k)
                <==> SweptBetween(es, expiry, jti, a, n) || (es[n].Cleanup? && expiry(jti) < es[n].cutoff)
      {
        SweptOneMore(es, expiry, jti, a, n);
      }
      if SpendsAt(ss, es, expiry, n, jti) {
        NothingBetween(es, expiry, jti, n);
      } else {
        assert forall a: nat :: a < k && SpendsAt(ss, es, expiry, a, jti) ==> a < n;
      }
    }
  }

  lemma NothingBetween(es: seq<Event>, expiry: Jti -> real, jti: Jti, k: nat)
    ensures !SweptBetween(es, expiry, jti, k, k + 1)
  {
  }

  /**
   The exact law of rotation: an insertion goes through if and only if, since every earlier use of the
   same token by a refresh or a logout, a clean-up with a cut-off past the token's expiry has run.
   */
  lemma InsertSucceedsIff(ss: seq<State>, es: seq<Event>, expiry: Jti -> real, k: nat, i: nat)
    requires IsRun(ss, es, expiry) && k < |es| && es[k] == Insert(i)
    ensures i < |ss[k].calls|
    ensures
      var jti := ss[k].calls[i].jti;
      HasInserted(ss[k + 1], i)
      <==> forall a: nat :: a < k && SpendsAt(ss, es, expiry, a, jti) ==> SweptBetween(es, expiry, jti, a, k)
  {
    assert Enabled(ss[k], es[k]) && ss[k + 1] == Next(ss[k], es[k], expiry);
    RowsRememberSpending(ss, es, expiry, ss[k].calls[i].jti, k);
  }

  /** Every call that has committed its use did so at some event. */
  lemma {:induction false} UsedSpends(ss: seq<State>, es: seq<Event>, expiry: Jti -> real, k: nat, i: nat)
    returns (a: nat)
    requires IsRun(ss, es, expiry) && k < |ss| && Used(ss[k], i)
    ensures a < k && es[a] == Insert(i) && SpendsAt(ss, es, expiry, a, ss[k].calls[i].jti)
  {
    var n := k - 1;
    assert Enabled(ss[n], es[n]) && ss[k] == Next(ss[n], es[n], expiry);
    if Used(ss[n], i) {
      a := UsedSpends(ss, es, expiry, n, i);
      assert ss[k].calls[i].jti == ss[n].calls[i].jti;
    } else {
      a := n;
      RunInv(ss, es, expiry, n);
      if !es[n].Insert? {
        UsedNext(ss[n], es[n], expiry);
      }
    }
  }

  /**
   Rotation is at most once: whatever the interleaving, of two calls that both committed their use of
   one refresh token the later did so after a clean-up past the token's expiry, so after that expiry.
   */
  lemma RotatesOnceBeforeExpiry(ss: seq<State>, es: seq<Event>, expiry: Jti -> real, k: nat, i: nat, j: nat)
    returns (a: nat, b: nat)
    requires IsRun(ss, es, expiry) && k < |ss|
    requires Used(ss[k], i) && Used(ss[k], j) && i != j
    requires ss[k].calls[i].jti == ss[k].calls[j].jti
    ensures a < b < k && (es[a], es[b]) in {(Insert(i), Insert(j)), (Insert(j), Insert(i))}
    ensures SpendsAt(ss, es, expiry, a, ss[k].calls[i].jti) && SpendsAt(ss, es, expiry, b, ss[k].calls[i].jti)
    ensures SweptBetween(es, expiry, ss[k].calls[i].jti, a, b)
    ensures ss[k].calls[i].pc.at > expiry(ss[k].calls[i].jti) || ss[k].calls[j].pc.at > expiry(ss[k].calls[i].jti)
  {
    RunInv(ss, es, expiry, k);
    a := UsedSpends(ss, es, expiry, k, i);
    b := UsedSpends(ss, es, expiry, k, j);
    var later := j;
    if b < a {
      a, b, later := b, a, i;
    }
    InsertSucceedsIff(ss, es, expiry, b, later);
  }

  /** ... and so a token already spent, by a refresh or a logout, is refused until it expires. */
  lemma SpentTokenIsRefused(ss: seq<State>, es: seq<Event>, expiry: Jti -> real, k: nat, i: nat)
    requires IsRun(ss, es, expiry) && k < |es| && es[k] == Insert(i)
    requires
      var jti := ss[k].calls[i].jti;
      jti in ss[k].loggedOut || exists j: nat :: Used(ss[k], j) && ss[k].calls[j].jti == jti
    requires ss[k].now <= expiry(ss[k].calls[i].jti)
    ensures ss[k + 1].calls[i].pc == Failed
  {
    RunInv(ss, es, expiry, k);
  }

  ghost predicate Reachable(s: State, expiry: Jti -> real) {
    exists ss, es :: IsRun(ss, es, expiry) && ss[|ss| - 1] == s
  }

  lemma ReachableNext(s: State, e: Event, expiry: Jti -> real)
    requires Reachable(s, expiry) && Enabled(s, e)
    ensures Reachable(Next(s, e, expiry), expiry)
  {
    var ss, es :| IsRun(ss, es, expiry) && ss[|ss| - 1] == s;
    assert IsRun(ss + [Next(s, e, expiry)], es + [e], expiry);
  }

  /** Two calls for one token pass the check while it is valid. */
  lemma BothPassTheCheck(expiry: Jti -> real, jti: Jti) returns (s: State)
    requires expiry(jti) > 0.0
    ensures Reachable(s, expiry)
    ensures s == State(0.0, map[], map[], false, [Call(jti, Checked), Call(jti, Checked)], {})
  {
    s := Init(false);
    assert IsRun([s], [], expiry);
    ReachableNext(s, Arrive(jti), expiry);
    s := Next(s, Arrive(jti), expiry);
    ReachableNext(s, Arrive(jti), expiry);
    s := Next(s, Arrive(jti), expiry);
    ReachableNext(s, Decode(0), expiry);
    s := Next(s, Decode(0), expiry);
    ReachableNext(s, Decode(1), expiry);
    s := Next(s, Decode(1), expiry);
    ReachableNext(s, CheckBlacklist(0), expiry);
    s := Next(s, CheckBlacklist(0), expiry);
    ReachableNext(s, CheckBlacklist(1), expiry);
    s := Next(s, CheckBlacklist(1), expiry);
  }

  /**
   The qualification is needed, for every token: a call that passes the check, then stalls until the
   token has expired and the clean-up has removed the row, obtains a second pair.
   */
  lemma StalledCallRotatesTwice(expiry: Jti -> real, jti: Jti) returns (s: State)
    requires expiry(jti) > 0.0
    ensures Reachable(s, expiry)
    ensures s.calls == [Call(jti, Returned(0.0)), Call(jti, Returned(2.0 * expiry(jti)))]
  {
    hide Reachable;
    var late := 2.0 * expiry(jti);
    s := FirstCallReturns(expiry, jti);
    ReachableNext(s, Tick(late), expiry);
    s := s.(now := late);
    ReachableNext(s, Cleanup(late), expiry);
    s := s.(rows := map[]);
    ReachableNext(s, Insert(1), expiry);
    s := s.(rows := map[jti := expiry(jti)], calls := [Call(jti, Returned(0.0)), Call(jti, Inserted(late))]);
    ReachableNext(s, Answer(1), expiry);
    s := Next(s, Answer(1), expiry);
  }

  /** One of them takes the token. */
  lemma FirstCallReturns(expiry: Jti -> real, jti: Jti) returns (s: State)
    requires expiry(jti) > 0.0
    ensures Reachable(s, expiry)
    ensures s == State(0.0, map[jti := expiry(jti)], map[], false, [Call(jti, Returned(0.0)), Call(jti, Checked)], {})
  {
    hide Reachable;
    s := BothPassTheCheck(expiry, jti);
    ReachableNext(s, Insert(0), expiry);
    s := Next(s, Insert(0), expiry);
    ReachableNext(s, Answer(0), expiry);
    s := Next(s, Answer(0), expiry);
  }

  // ---- the functions of the program --------------------------------------------------------------

  class TokenStore {
    const cacheUp: bool
    var rows: map<Jti, real>
    var cache: map<Jti, real>

    constructor (cacheUp: bool)
      ensures this.cacheUp == cacheUp && rows == map[] && cache == map[]
    {
      this.cacheUp, rows, cache := cacheUp, map[], map[];
    }

    ghost function View(now: real, calls: seq<Call>, loggedOut: set<Jti>): State
      reads this
    {
      State(now, rows, cache, cacheUp, calls, loggedOut)
    }

    /** `add_to_blacklist`: the primary key refuses an id that is already there. */
    method AddToBlacklist(jti: Jti, expiresAt: real, now: real) returns (inserted: bool)
      modifies this
      ensures inserted <==> jti !in old(rows)
      ensures rows == if inserted then old(rows)[jti := expiresAt] else old(rows)
      ensures cache == if inserted && cacheUp then old(cache)[jti := now + Ttl(expiresAt, now)] else old(cache)
    {
      if jti in rows {
        return false;
      }
      rows := rows[jti := expiresAt];
      if cacheUp {
        cache := cache[jti := now + Ttl(expiresAt, now)];
      }
      return true;
    }

    /** `refresh_token` run without interruption: the five steps of one call. */
    method RefreshToken(jti: Jti, expiry: Jti -> real, now: real) returns (renewed: bool)
      modifies this
      ensures
        var s0 := old(View(now, [Call(jti, Arrived)], {}));
        var s1 := Next(s0, Decode(0), expiry);
        var s2 := if At(s1, 0, Decoded) then Next(s1, CheckBlacklist(0), expiry) else s1;
        var s3 := if At(s2, 0, Checked) then Next(s2, Insert(0), expiry) else s2;
        var s4 := if HasInserted(s3, 0) then Next(s3, Answer(0), expiry) else s3;
        View(now, [Call(jti, if renewed then Returned(now) else Failed)], {}) == s4
      ensures renewed <==> now < expiry(jti) && jti !in old(rows)
                           && !(cacheUp && jti in old(cache) && now < old(cache)[jti])
      ensures rows == if renewed then old(rows)[jti := expiry(jti)] else old(rows)
    {
      if now >= expiry(jti) {
        return false;
      }
      var blacklisted := if cacheUp then jti in cache && now < cache[jti] else jti in rows;
      if blacklisted {
        return false;
      }
      renewed := AddToBlacklist(jti, expiry(jti), now);
    }

    /** The clean-up of expired rows. */
    method RunTtlCleanup(cutoff: real)
      modifies this`rows
      ensures rows == map jti | jti in old(rows) && !(old(rows)[jti] < cutoff) :: old(rows)[jti]
    {
      rows := map jti | jti in rows && !(rows[jti] < cutoff) :: rows[jti];
    }
  }
}
