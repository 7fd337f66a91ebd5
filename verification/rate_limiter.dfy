/** The in-memory branch of the rate limiter: a fixed window per key, opened by the first request,
    and a clean-up of expired windows that runs at most once per window. */
module RateLimiter {
  import opened Numbers

  const MINUTE := 60_000_000_000

  datatype Visitor = Visitor(count: nat, resetTime: int)

  datatype Hit = Hit(now: int, key: string)

  datatype Verdict = Verdict(admitted: bool, count: nat, resetTime: int)

  datatype Config = Config(maxRequests: int, window: int)

  /** The configuration the middleware works with. */
  function Normalised(config: Config): Config {
    if config.window <= 0 then config.(window := MINUTE) else config
  }

  /** A window that is not positive means one minute. */
  lemma NormalisedWindow(config: Config)
    ensures Normalised(config).maxRequests == config.maxRequests
    ensures Normalised(config).window == if config.window >= 1 then config.window else 60_000_000_000
  {
  }

  // ----- a limiter that never deletes -----

  /** The window the request counts in, with the request counted. */
  function Counted(visitors: map<string, Visitor>, window: int, hit: Hit): Visitor {
    if hit.key !in visitors || hit.now > visitors[hit.key].resetTime then Visitor(1, hit.now + window)
    else Visitor(visitors[hit.key].count + 1, visitors[hit.key].resetTime)
  }

  function Judge(config: Config, visitors: map<string, Visitor>, hit: Hit): Verdict {
    var v := Counted(visitors, config.window, hit);
    Verdict(v.count <= config.maxRequests, v.count, v.resetTime)
  }

  /** A request opens a window if its key has none or the time is past its end, and is counted in it; it is
      admitted while the count is at most the maximum. */
  lemma HitEffect(config: Config, visitors: map<string, Visitor>, hit: Hit)
    ensures var opens := hit.key !in visitors || visitors[hit.key].resetTime < hit.now;
            var verdict := Judge(config, visitors, hit);
            && verdict.count == (if opens then 1 else visitors[hit.key].count + 1)
            && verdict.resetTime == (if opens then hit.now + config.window else visitors[hit.key].resetTime)
            && (verdict.admitted <==> verdict.count <= config.maxRequests)
  {
  }

  function Keeping(window: int, hits: seq<Hit>): map<string, Visitor> {
    if hits == [] then map[]
    else
      var before := Keeping(window, hits[..|hits| - 1]);
      var hit := hits[|hits| - 1];
      before[hit.key := Counted(before, window, hit)]
  }

  // ----- the limiter that deletes expired windows -----

  datatype Limiter = Limiter(visitors: map<string, Visitor>, lastCleanup: int)

  function Unexpired(visitors: map<string, Visitor>, now: int): map<string, Visitor> {
    map k | k in visitors && !(now > visitors[k].resetTime) :: visitors[k]
  }

  function Cleaned(limiter: Limiter, window: int, now: int): Limiter {
    if now - limiter.lastCleanup > window then Limiter(Unexpired(limiter.visitors, now), now) else limiter
  }

  function Handled(limiter: Limiter, window: int, hit: Hit): Limiter {
    var cleaned := Cleaned(limiter, window, hit.now);
    cleaned.(visitors := cleaned.visitors[hit.key := Counted(cleaned.visitors, window, hit)])
  }

  function Cleaning(window: int, start: int, hits: seq<Hit>): Limiter {
    if hits == [] then Limiter(map[], start)
    else Handled(Cleaning(window, start, hits[..|hits| - 1]), window, hits[|hits| - 1])
  }

  /** The answer of the real limiter to request `i` of a run. */
  function Answer(config: Config, start: int, hits: seq<Hit>, i: nat): Verdict
    requires i < |hits|
  {
    Judge(config, Cleaned(Cleaning(config.window, start, hits[..i]), config.window, hits[i].now).visitors, hits[i])
  }

  // ----- the clean-up is invisible -----

  ghost predicate Ordered(start: int, hits: seq<Hit>) {
    && (forall i :: 0 <= i < |hits| ==> start <= hits[i].now)
    && (forall i, j :: 0 <= i <= j < |hits| ==> hits[i].now <= hits[j].now)
  }

  /** What is missing from the cleaned map is over by `now`. */
  ghost predicate Agree(cleaned: map<string, Visitor>, kept: map<string, Visitor>, now: int) {
    && (forall k :: k in cleaned ==> k in kept && cleaned[k] == kept[k])
    && (forall k :: k in kept && k !in cleaned ==> kept[k].resetTime < now)
  }

  lemma CleaningAgrees(config: Config, start: int, hits: seq<Hit>, now: int)
    requires Ordered(start, hits) && start <= now
    requires hits != [] ==> hits[|hits| - 1].now <= now
    ensures Agree(Cleaned(Cleaning(config.window, start, hits), config.window, now).visitors, Keeping(config.window, hits), now)
  {
    if hits != [] {
      var last := |hits| - 1;
      CleaningAgrees(config, start, hits[..last], hits[last].now);
    }
  }

  /** Taken in the order of their times, the requests of any run get the same verdict, count and reset
      time as from a limiter that never deletes. */
  lemma CleanupIsInvisible(config: Config, start: int, hits: seq<Hit>, i: nat)
    requires Ordered(start, hits) && i < |hits|
    ensures Answer(config, start, hits, i) == Judge(config, Keeping(config.window, hits[..i]), hits[i])
  {
    CleaningAgrees(config, start, hits[..i], hits[i].now);
  }

  // ----- and when it shows -----

  /** The map the limiter looks request `i` up in. */
  function LookedUp(window: int, start: int, hits: seq<Hit>, i: nat): map<string, Visitor>
    requires i < |hits|
  {
    Cleaned(Cleaning(window, start, hits[..i]), window, hits[i].now).visitors
  }

  /** The window of request `i` still runs, but has been deleted. */
  predicate Forgotten(window: int, start: int, hits: seq<Hit>, i: nat)
    requires i < |hits|
  {
    var kept := Keeping(window, hits[..i]);
    hits[i].key in kept && hits[i].now <= kept[hits[i].key].resetTime && hits[i].key !in LookedUp(window, start, hits, i)
  }

  predicate SameAnswer(config: Config, start: int, hits: seq<Hit>, i: nat)
    requires i < |hits|
  {
    Answer(config, start, hits, i) == Judge(config, Keeping(config.window, hits[..i]), hits[i])
  }

  /** The limiter holds part of what the limiter that never deletes holds. */
  ghost predicate Part(cleaned: map<string, Visitor>, kept: map<string, Visitor>) {
    forall k :: k in cleaned ==> k in kept && cleaned[k] == kept[k]
  }

  lemma {:induction false} KeptWindowsAreCounted(window: int, hits: seq<Hit>)
    ensures forall k :: k in Keeping(window, hits) ==> Keeping(window, hits)[k].count >= 1
  {
    if hits != [] {
      KeptWindowsAreCounted(window, hits[..|hits| - 1]);
    }
  }

  lemma {:induction false} AgreementUpTo(config: Config, start: int, hits: seq<Hit>, n: nat)
    requires n <= |hits|
    ensures (forall i :: 0 <= i < n ==> SameAnswer(config, start, hits, i))
       <==> (forall i :: 0 <= i < n ==> !Forgotten(config.window, start, hits, i))
    ensures (forall i :: 0 <= i < n ==> !Forgotten(config.window, start, hits, i)) ==>
      Part(Cleaning(config.window, start, hits[..n]).visitors, Keeping(config.window, hits[..n]))
  {
    if n > 0 {
      var last := n - 1;
      AgreementUpTo(config, start, hits, last);
      KeptWindowsAreCounted(config.window, hits[..last]);
      assert hits[..n][..last] == hits[..last];
      if forall i :: 0 <= i < last ==> !Forgotten(config.window, start, hits, i) {
        assert SameAnswer(config, start, hits, last) <==> !Forgotten(config.window, start, hits, last);
      }
    }
  }

  /** Whatever order the requests are counted in, the clean-up is invisible exactly when no request finds
      its window deleted while it still runs. */
  lemma CleanupIsInvisibleIffNothingIsForgotten(config: Config, start: int, hits: seq<Hit>)
    ensures (forall i :: 0 <= i < |hits| ==> SameAnswer(config, start, hits, i))
       <==> (forall i :: 0 <= i < |hits| ==> !Forgotten(config.window, start, hits, i))
  {
    AgreementUpTo(config, start, hits, |hits|);
  }

  /** It happens: the program reads the clock before it takes the lock, and a request that is counted
      after a later one can find its window deleted. */
  lemma OutOfOrderCleanupShows()
    ensures var config, hits := Config(1, 10), [Hit(0, "a"), Hit(100, "b"), Hit(5, "a")];
            && Answer(config, 0, hits, 2) == Verdict(true, 1, 15)
            && Judge(config, Keeping(config.window, hits[..2]), hits[2]) == Verdict(false, 2, 10)
            && Forgotten(config.window, 0, hits, 2)
  {
    var hits := [Hit(0, "a"), Hit(100, "b"), Hit(5, "a")];
    var one, two := [Hit(0, "a")], [Hit(0, "a"), Hit(100, "b")];
    assert hits[..2] == two && two[..1] == one && one[..0] == [];
    assert "a" != "b";
    assert Keeping(10, one) == map["a" := Visitor(1, 10)];
    assert Keeping(10, two)["a"] == Visitor(1, 10);
    assert Cleaning(10, 0, one).visitors == map["a" := Visitor(1, 10)];
    assert Cleaning(10, 0, two).lastCleanup == 100;
    assert "a" !in Cleaning(10, 0, two).visitors;
  }

  // ----- how many requests get through -----

  predicate Inside(from: int, window: int, now: int) {
    from <= now <= from + window
  }

  /** The requests of `key` admitted at times within [from, from + window]. */
  function Admitted(config: Config, start: int, hits: seq<Hit>, key: string, from: int): nat {
    if hits == [] then 0
    else
      var last := |hits| - 1;
      Admitted(config, start, hits[..last], key, from) +
      if hits[last].key == key && Inside(from, config.window, hits[last].now) && Answer(config, start, hits, last).admitted then 1 else 0
  }

  /** How many of the counted requests can lie in the interval, by where the current window of the key
      opened: before the interval and already over, before it and still running, inside it, or
      after it. */
  predicate WindowBound(config: Config, v: Visitor, from: int, admitted: nat) {
    var openedAt, max := v.resetTime - config.window, config.maxRequests;
    && v.count >= 1
    && (v.resetTime < from ==> admitted == 0)
    && (openedAt < from <= v.resetTime ==> admitted <= Min(v.count, max) - 1)
    && (from <= openedAt <= from + config.window ==> admitted <= max - 1 + Min(v.count, max))
    && (openedAt > from + config.window ==> admitted <= 2 * max - 1)
  }

  predicate Bounded(config: Config, hits: seq<Hit>, key: string, from: int, admitted: nat) {
    var kept := Keeping(config.window, hits);
    if key !in kept then admitted == 0
    else
      && OpenedBy(hits, key, kept[key].resetTime - config.window)
      && WindowBound(config, kept[key], from, admitted)
  }

  /** Some request of the key came at `since` or later. */
  predicate OpenedBy(hits: seq<Hit>, key: string, since: int) {
    exists i :: 0 <= i < |hits| && hits[i].key == key && since <= hits[i].now
  }

  /** The requests of the key are counted in the order of their times. */
  ghost predicate KeyOrdered(hits: seq<Hit>, key: string) {
    forall i, j :: 0 <= i <= j < |hits| && hits[i].key == key && hits[j].key == key ==> hits[i].now <= hits[j].now
  }

  ghost predicate KeyRemembered(window: int, start: int, hits: seq<Hit>, key: string) {
    forall i :: 0 <= i < |hits| && hits[i].key == key ==> !Forgotten(window, start, hits, i)
  }

  lemma KeyOfPrefix(window: int, start: int, hits: seq<Hit>, key: string, n: nat)
    requires n <= |hits| && KeyOrdered(hits, key) && KeyRemembered(window, start, hits, key)
    ensures KeyOrdered(hits[..n], key) && KeyRemembered(window, start, hits[..n], key)
  {
    forall i | 0 <= i < n && hits[i].key == key
      ensures !Forgotten(window, start, hits[..n], i)
    {
      assert hits[..n][..i] == hits[..i];
      assert !Forgotten(window, start, hits, i);
    }
  }

  /** For a key none of whose requests is forgotten the limiter holds what the limiter that never deletes
      holds, or nothing. */
  lemma {:induction false} KeyAgrees(config: Config, start: int, hits: seq<Hit>, key: string)
    requires KeyOrdered(hits, key) && KeyRemembered(config.window, start, hits, key)
    ensures var cleaned, kept := Cleaning(config.window, start, hits).visitors, Keeping(config.window, hits);
            key in cleaned ==> key in kept && cleaned[key] == kept[key]
    ensures hits != [] && hits[|hits| - 1].key == key ==> SameAnswer(config, start, hits, |hits| - 1)
  {
    if hits != [] {
      var last := |hits| - 1;
      KeyOfPrefix(config.window, start, hits, key, last);
      KeyAgrees(config, start, hits[..last], key);
      assert hits[last].key == key ==> !Forgotten(config.window, start, hits, last);
    }
  }

  /** A request in the running window. */
  lemma SameWindow(config: Config, v: Visitor, now: int, from: int, admitted: nat)
    requires config.maxRequests >= 1 && config.window >= 1
    requires v.resetTime - config.window <= now <= v.resetTime && WindowBound(config, v, from, admitted)
    ensures WindowBound(config, Visitor(v.count + 1, v.resetTime), from, admitted +
      if Inside(from, config.window, now) && v.count + 1 <= config.maxRequests then 1 else 0)
  {
  }

  /** A request that opens the next window. */
  lemma NextWindow(config: Config, v: Visitor, now: int, from: int, admitted: nat)
    requires config.maxRequests >= 1 && config.window >= 1
    requires now > v.resetTime && WindowBound(config, v, from, admitted)
    ensures WindowBound(config, Visitor(1, now + config.window), from, admitted + if Inside(from, config.window, now) then 1 else 0)
  {
  }

  lemma OneMoreHit(config: Config, hits: seq<Hit>, hit: Hit, key: string, from: int, admitted: nat)
    requires config.maxRequests >= 1 && config.window >= 1
    requires KeyOrdered(hits + [hit], key)
    requires Bounded(config, hits, key, from, admitted)
    ensures Bounded(config, hits + [hit], key, from, admitted +
      if hit.key == key && Inside(from, config.window, hit.now) && Judge(config, Keeping(config.window, hits), hit).admitted then 1 else 0)
  {
    var longer, kept := hits + [hit], Keeping(config.window, hits);
    assert longer[..|hits|] == hits && longer[|hits|] == hit;
    if key in kept {
      var i :| 0 <= i < |hits| && hits[i].key == key && kept[key].resetTime - config.window <= hits[i].now;
      assert longer[i] == hits[i];
      if hit.key == key {
        HitInWindow(config, kept[key], hit.now, from, admitted);
      }
    }
  }

  lemma HitInWindow(config: Config, v: Visitor, now: int, from: int, admitted: nat)
    requires config.maxRequests >= 1 && config.window >= 1
    requires v.resetTime - config.window <= now && WindowBound(config, v, from, admitted)
    ensures var after := if now > v.resetTime then Visitor(1, now + config.window) else Visitor(v.count + 1, v.resetTime);
            WindowBound(config, after, from, admitted + if Inside(from, config.window, now) && after.count <= config.maxRequests then 1 else 0)
  {
    if now > v.resetTime {
      NextWindow(config, v, now, from, admitted);
    } else {
      SameWindow(config, v, now, from, admitted);
    }
  }

  lemma {:induction false} AdmittedIsBounded(config: Config, start: int, hits: seq<Hit>, key: string, from: int)
    requires config.maxRequests >= 1 && config.window >= 1
    requires KeyOrdered(hits, key) && KeyRemembered(config.window, start, hits, key)
    ensures Bounded(config, hits, key, from, Admitted(config, start, hits, key, from))
  {
    if hits != [] {
      var last := |hits| - 1;
      KeyOfPrefix(config.window, start, hits, key, last);
      AdmittedIsBounded(config, start, hits[..last], key, from);
      KeyAgrees(config, start, hits, key);
      assert hits == hits[..last] + [hits[last]];
      OneMoreHit(config, hits[..last], hits[last], key, from, Admitted(config, start, hits[..last], key, from));
    }
  }

  /** In any closed interval of one window's length fewer than twice MaxRequests requests of a key are
      admitted, if the requests of that key are counted in time order and none of them finds its running
      window deleted; the other keys may come in any order. The second window can only open inside if
      the first opened before. */
  lemma AdmissionBound(config: Config, start: int, hits: seq<Hit>, key: string, from: int)
    requires config.maxRequests >= 1 && config.window >= 1
    requires KeyOrdered(hits, key) && KeyRemembered(config.window, start, hits, key)
    ensures Admitted(config, start, hits, key, from) <= 2 * config.maxRequests - 1
  {
    AdmittedIsBounded(config, start, hits, key, from);
  }

  /** When all requests are counted in time order, the bound holds for every key. */
  lemma AdmissionBoundInOrder(config: Config, start: int, hits: seq<Hit>, key: string, from: int)
    requires config.maxRequests >= 1 && config.window >= 1 && Ordered(start, hits)
    ensures Admitted(config, start, hits, key, from) <= 2 * config.maxRequests - 1
  {
    forall i | 0 <= i < |hits|
      ensures SameAnswer(config, start, hits, i)
    {
      CleanupIsInvisible(config, start, hits, i);
    }
    CleanupIsInvisibleIffNothingIsForgotten(config, start, hits);
    AdmissionBound(config, start, hits, key, from);
  }

  /** Both conditions are needed. The requests of "a" are in order here, but one of them is forgotten. */
  lemma ForgottenRequestsExceedTheBound()
    ensures var config, hits := Config(1, 10), [Hit(0, "a"), Hit(100, "b"), Hit(5, "a")];
            && KeyOrdered(hits, "a") && Forgotten(10, 0, hits, 2)
            && Admitted(config, 0, hits, "a", 0) == 2 > 2 * config.maxRequests - 1
  {
    var config, hits := Config(1, 10), [Hit(0, "a"), Hit(100, "b"), Hit(5, "a")];
    OutOfOrderCleanupShows();
    assert hits[..2][..1] == hits[..1] && hits[..1][..0] == [];
    assert hits[..0] == [];
    assert Admitted(config, 0, hits[..1], "a", 0) == 1;
    assert Admitted(config, 0, hits[..2], "a", 0) == 1;
  }

  /** One request at the end of a window, two of the next window, and a late one that the window after that
      has room for. */
  const LATE := [Hit(0, "a"), Hit(10, "a"), Hit(15, "a"), Hit(15, "a"), Hit(26, "a"), Hit(15, "a")]

  function LateVisitor(n: nat): Visitor
    requires 1 <= n <= 6
  {
    if n == 1 then Visitor(1, 10) else if n == 2 then Visitor(2, 10)
    else if n == 3 then Visitor(1, 25) else if n == 4 then Visitor(2, 25)
    else if n == 5 then Visitor(1, 36) else Visitor(2, 36)
  }

  lemma {:induction false} LateRun(n: nat)
    requires 1 <= n <= 6
    ensures Keeping(10, LATE[..n]) == map["a" := LateVisitor(n)]
    ensures Cleaning(10, 0, LATE[..n]) == Limiter(map["a" := LateVisitor(n)], if n <= 2 then 0 else if n <= 4 then 15 else 26)
  {
    assert LATE[..n][..n - 1] == LATE[..n - 1];
    if n > 1 {
      LateRun(n - 1);
    } else {
      assert LATE[..0] == [];
    }
  }
  /** The last of the first n requests finds its window if it still runs, and is admitted. */
  lemma LateAnswer(n: nat)
    requires 1 <= n <= 6
    ensures Answer(Config(2, 10), 0, LATE[..n], n - 1).admitted
    ensures !Forgotten(10, 0, LATE, n - 1)
  {
    assert LATE[..n][..n - 1] == LATE[..n - 1];
    assert LATE[..n][n - 1] == LATE[n - 1];
    if n > 1 {
      LateRun(n - 1);
    } else {
      assert LATE[..0] == [];
    }
  }

  lemma {:induction false} LateAdmitted(n: nat)
    requires n <= 6
    ensures Admitted(Config(2, 10), 0, LATE[..n], "a", 5) == if n <= 1 then 0 else if n <= 4 then n - 1 else n - 2
  {
    if n > 0 {
      LateAdmitted(n - 1);
      LateAnswer(n);
      assert LATE[..n][..n - 1] == LATE[..n - 1];
      assert Admitted(Config(2, 10), 0, LATE[..n], "a", 5) ==
        Admitted(Config(2, 10), 0, LATE[..n - 1], "a", 5) + if Inside(5, 10, LATE[n - 1].now) then 1 else 0;
    }
  }

  /** Nothing is forgotten here, but the last request is counted out of order. */
  lemma LateRequestsExceedTheBound()
    ensures KeyRemembered(10, 0, LATE, "a") && !KeyOrdered(LATE, "a")
    ensures Admitted(Config(2, 10), 0, LATE, "a", 5) == 4 > 2 * 2 - 1
  {
    forall i | 0 <= i < |LATE|
      ensures !Forgotten(10, 0, LATE, i)
    {
      LateAnswer(i + 1);
    }
    LateAdmitted(6);
    assert LATE[..6] == LATE;
    assert LATE[4].now > LATE[5].now;
  }

  // ----- the bound is reached -----

  /** One request opens a window, the rest of the quota comes at its very end, and a full quota
      follows right after. */
  function Burst(config: Config, n: nat): seq<Hit> {
    seq(n, i => Hit(if i == 0 then 0 else if i < config.maxRequests then config.window else config.window + 1, ""))
  }

  lemma BurstGrows(config: Config, n: nat)
    requires config.maxRequests >= 1 && config.window >= 1 && n >= 1
    ensures Burst(config, n)[..n - 1] == Burst(config, n - 1)
    ensures Ordered(0, Burst(config, n))
  {
  }

  /** The window of the key after `n` requests of the burst. */
  lemma {:induction false} BurstWindow(config: Config, n: nat)
    requires config.maxRequests >= 1 && config.window >= 1 && 1 <= n <= 2 * config.maxRequests
    ensures "" in Keeping(config.window, Burst(config, n))
    ensures Keeping(config.window, Burst(config, n))[""] ==
            if n <= config.maxRequests then Visitor(n, config.window) else Visitor(n - config.maxRequests, 2 * config.window + 1)
  {
    BurstGrows(config, n);
    if n > 1 {
      BurstWindow(config, n - 1);
    }
  }

  /** The last request of the burst is admitted. */
  lemma BurstVerdict(config: Config, n: nat)
    requires config.maxRequests >= 1 && config.window >= 1 && 1 <= n <= 2 * config.maxRequests
    ensures Answer(config, 0, Burst(config, n), n - 1).admitted
  {
    BurstGrows(config, n);
    CleanupIsInvisible(config, 0, Burst(config, n), n - 1);
    BurstWindow(config, n);
    if n > 1 {
      BurstWindow(config, n - 1);
    }
  }

  lemma {:induction false} BurstAdmitted(config: Config, n: nat)
    requires config.maxRequests >= 1 && config.window >= 1 && n <= 2 * config.maxRequests
    ensures Admitted(config, 0, Burst(config, n), "", config.window) == if n == 0 then 0 else n - 1
  {
    if n > 0 {
      BurstGrows(config, n);
      BurstAdmitted(config, n - 1);
      BurstVerdict(config, n);
    }
  }

  /** For every configuration some ordered run reaches the bound. */
  lemma AdmissionBoundIsReached(config: Config)
    requires config.maxRequests >= 1 && config.window >= 1
    ensures exists hits ::
      Ordered(0, hits) && Admitted(config, 0, hits, "", config.window) == 2 * config.maxRequests - 1
  {
    BurstGrows(config, 2 * config.maxRequests);
    BurstAdmitted(config, 2 * config.maxRequests);
    assert Ordered(0, Burst(config, 2 * config.maxRequests));
  }

  // ----- what the map holds -----

  /** The latest time seen so far. */
  function Latest(start: int, hits: seq<Hit>): int {
    if hits == [] then start else Max(Latest(start, hits[..|hits| - 1]), hits[|hits| - 1].now)
  }

  /** No request is counted more than `late` after a request with a later time. Every run is so for some
      number, and a run in time order is so for zero. */
  ghost predicate LateBy(start: int, hits: seq<Hit>, late: nat) {
    hits != [] ==> LateBy(start, hits[..|hits| - 1], late) && hits[|hits| - 1].now >= Latest(start, hits[..|hits| - 1]) - late
  }

  lemma {:induction false} EveryRunIsLateBySome(start: int, hits: seq<Hit>)
    ensures exists late: nat :: LateBy(start, hits, late)
  {
    if hits == [] {
      assert LateBy(start, hits, 0);
    } else {
      var last := |hits| - 1;
      EveryRunIsLateBySome(start, hits[..last]);
      var some: nat :| LateBy(start, hits[..last], some);
      var late: nat := Max(some, Latest(start, hits[..last]) - hits[last].now);
      LateByMore(start, hits[..last], some, late);
      assert LateBy(start, hits, late);
    }
  }

  lemma {:induction false} LateByMore(start: int, hits: seq<Hit>, some: nat, late: nat)
    requires some <= late && LateBy(start, hits, some)
    ensures LateBy(start, hits, late)
  {
    if hits != [] {
      LateByMore(start, hits[..|hits| - 1], some, late);
    }
  }

  lemma {:induction false} InOrderIsNotLate(start: int, hits: seq<Hit>)
    requires Ordered(start, hits)
    ensures LateBy(start, hits, 0)
    ensures Latest(start, hits) == if hits == [] then start else hits[|hits| - 1].now
  {
    if hits != [] {
      InOrderIsNotLate(start, hits[..|hits| - 1]);
    }
  }

  lemma {:induction false} WindowsAreRecent(window: int, start: int, hits: seq<Hit>, late: nat)
    requires window >= 1 && LateBy(start, hits, late)
    ensures var latest, limiter := Latest(start, hits), Cleaning(window, start, hits);
            && limiter.lastCleanup <= latest <= limiter.lastCleanup + window
            && forall k :: k in limiter.visitors ==> limiter.visitors[k].resetTime >= limiter.lastCleanup - Max(0, late - window)
  {
    if hits != [] {
      WindowsAreRecent(window, start, hits[..|hits| - 1], late);
    }
  }

  /** Every window in the map was opened within the last two window lengths before the latest request, as
      long as no request is counted more than one window length late, and so much earlier as requests
      are later than that. */
  lemma HeldWindowsAreRecent(window: int, start: int, hits: seq<Hit>, late: nat, key: string)
    requires window >= 1 && LateBy(start, hits, late)
    requires key in Cleaning(window, start, hits).visitors
    ensures Cleaning(window, start, hits).visitors[key].resetTime - window >= Latest(start, hits) - 2 * window - Max(0, late - window)
  {
    WindowsAreRecent(window, start, hits, late);
  }

  /** In time order: within the last two window lengths before the current request. */
  lemma HeldWindowsInOrder(window: int, start: int, hits: seq<Hit>, key: string)
    requires window >= 1 && Ordered(start, hits) && hits != []
    requires key in Cleaning(window, start, hits).visitors
    ensures Cleaning(window, start, hits).visitors[key].resetTime - window >= hits[|hits| - 1].now - 2 * window
  {
    InOrderIsNotLate(start, hits);
    HeldWindowsAreRecent(window, start, hits, 0, key);
  }

  // ----- the middleware -----

  class Middleware {
    const maxRequests: int
    const window: int
    var visitors: map<string, Visitor>
    var lastCleanup: int

    ghost function View(): Limiter
      reads this
    {
      Limiter(visitors, lastCleanup)
    }

    constructor (config: Config, now: int)
      ensures Config(maxRequests, window) == Normalised(config) && window >= 1
      ensures maxRequests == config.maxRequests && window == if config.window >= 1 then config.window else 60_000_000_000
      ensures View() == Limiter(map[], now)
    {
      maxRequests := config.maxRequests;
      window := if config.window <= 0 then MINUTE else config.window;
      visitors := map[];
      lastCleanup := now;
    }

    /** One request. A limiter without a positive maximum lets everything pass. */
    method Handle(now: int, key: string) returns (verdict: Verdict)
      modifies this
      ensures maxRequests <= 0 ==> View() == old(View()) && verdict.admitted
      ensures maxRequests > 0 ==> View() == Handled(old(View()), window, Hit(now, key))
      ensures maxRequests > 0 ==>
        verdict == Judge(Config(maxRequests, window), Cleaned(old(View()), window, now).visitors, Hit(now, key))
    {
      if maxRequests <= 0 {
        return Verdict(true, 0, now);
      }
      if now - lastCleanup > window {
        DeleteExpired(now);
        lastCleanup := now;
      }
      var state := Visitor(0, now + window);
      if key in visitors && !(now > visitors[key].resetTime) {
        state := visitors[key];
      }
      state := Visitor(state.count + 1, state.resetTime);
      visitors := visitors[key := state];
      verdict := Verdict(!(state.count > maxRequests), state.count, state.resetTime);
    }

    method DeleteExpired(now: int)
      modifies this`visitors
      ensures visitors == Unexpired(old(visitors), now)
    {
      var todo := visitors.Keys;
      while todo != {}
        invariant todo <= visitors.Keys
        invariant visitors.Keys <= old(visitors).Keys
        invariant forall k :: k in visitors ==> visitors[k] == old(visitors)[k]
        invariant forall k :: k in visitors && k !in todo ==> !(now > visitors[k].resetTime)
        invariant forall k :: k in old(visitors) && k !in visitors ==> now > old(visitors)[k].resetTime
        decreases todo
      {
        var ip :| ip in todo;
        todo := todo - {ip};
        if now > visitors[ip].resetTime {
          visitors := visitors - {ip};
        }
      }
    }
  }
}
