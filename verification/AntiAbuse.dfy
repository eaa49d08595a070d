/** Per-address connection caps and frame rate limiting (anti_abuse.rs).

    Clock readings are reals and need not be monotone: callers read the clock before they take
    the guard's lock. */
module AntiAbuse {
  type Ip = nat

  datatype Config = Config(maxConnPerIp: nat, maxTrackedIps: nat, frameRate: real, frameBurst: real)

  /** Rates and bursts are positive (`AntiAbuseConfig::new`); the caps are not restricted here. */
  predicate ValidConfig(c: Config) {
    c.frameRate > 0.0 && c.frameBurst > 0.0
  }

  datatype Entry = Entry(connCount: nat, tokens: real, lastRefill: real)

  datatype Rejection = ConnCapPerIp(active: nat, cap: nat) | IpCapReached

  datatype Accept = Ticket(ip: Ip) | Rejected(why: Rejection)

  function Min(a: real, b: real): real {
    if a <= b then a else b
  }

  /** `saturating_duration_since`. */
  function Elapsed(later: real, earlier: real): real {
    if later > earlier then later - earlier else 0.0
  }

  // ---- The token bucket ------------------------------------------------------------

  /** Tokens earned while the clock moves forward by `t`. */
  function Earned(c: Config, t: real): real {
    t * c.frameRate
  }

  function Refilled(e: Entry, now: real, c: Config): real {
    Min(e.tokens + Earned(c, Elapsed(now, e.lastRefill)), c.frameBurst)
  }

  predicate Admits(e: Entry, now: real, c: Config) {
    Refilled(e, now, c) >= 1.0
  }

  function Consumed(e: Entry, now: real, c: Config): Entry {
    e.(tokens := Refilled(e, now, c) - (if Admits(e, now, c) then 1.0 else 0.0), lastRefill := now)
  }

  predicate InRange(e: Entry, c: Config) {
    0.0 <= e.tokens <= c.frameBurst
  }

  lemma EarnedNonNegative(c: Config, t: real)
    requires c.frameRate > 0.0 && t >= 0.0
    ensures Earned(c, t) >= 0.0
  {
  }

  lemma EarnedAdds(c: Config, a: real, b: real)
    ensures Earned(c, a + b) == Earned(c, a) + Earned(c, b)
  {
  }

  lemma TokensStayInRange(e: Entry, now: real, c: Config)
    requires ValidConfig(c) && InRange(e, c)
    ensures InRange(Consumed(e, now, c), c)
    ensures Consumed(e, now, c).tokens + (if Admits(e, now, c) then 1.0 else 0.0)
         <= e.tokens + Earned(c, Elapsed(now, e.lastRefill))
  {
    EarnedNonNegative(c, Elapsed(now, e.lastRefill));
  }

  /** Frames admitted when the bucket is asked at the given readings. */
  function Admitted(e: Entry, readings: seq<real>, c: Config): nat
    decreases |readings|
  {
    if readings == [] then 0
    else (if Admits(e, readings[0], c) then 1 else 0) + Admitted(Consumed(e, readings[0], c), readings[1..], c)
  }

  /** Total forward movement of the clock from `start` through the readings. */
  function Forward(start: real, readings: seq<real>): (f: real)
    ensures f >= 0.0
    decreases |readings|
  {
    if readings == [] then 0.0 else Elapsed(readings[0], start) + Forward(readings[0], readings[1..])
  }

  lemma {:induction false} AdmittedWithinTokens(e: Entry, readings: seq<real>, c: Config)
    requires ValidConfig(c) && InRange(e, c)
    ensures Admitted(e, readings, c) as real <= e.tokens + Earned(c, Forward(e.lastRefill, readings))
    decreases |readings|
  {
    if readings != [] {
      var now := readings[0];
      TokensStayInRange(e, now, c);
      AdmittedWithinTokens(Consumed(e, now, c), readings[1..], c);
      EarnedAdds(c, Elapsed(now, e.lastRefill), Forward(now, readings[1..]));
    }
  }

  /** Window bound: whatever happened before, a window of calls admits at most the burst plus the
      rate times the forward movement of the clock inside the window. */
  lemma WindowBound(e: Entry, first: real, rest: seq<real>, c: Config)
    requires ValidConfig(c) && InRange(e, c)
    ensures Admitted(e, [first] + rest, c) as real <= c.frameBurst + Earned(c, Forward(first, rest))
  {
    TokensStayInRange(e, first, c);
    AdmittedWithinTokens(Consumed(e, first, c), rest, c);
    assert ([first] + rest)[1..] == rest;
  }

  predicate NonDecreasing(first: real, rest: seq<real>)
    decreases |rest|
  {
    rest == [] || (first <= rest[0] && NonDecreasing(rest[0], rest[1..]))
  }

  function Last(first: real, rest: seq<real>): real {
    if rest == [] then first else rest[|rest| - 1]
  }

  lemma {:induction false} ForwardAtLeast(first: real, rest: seq<real>)
    ensures Forward(first, rest) >= Last(first, rest) - first
    ensures Forward(first, rest) == Last(first, rest) - first <==> NonDecreasing(first, rest)
    decreases |rest|
  {
    if rest != [] {
      ForwardAtLeast(rest[0], rest[1..]);
      assert Last(first, rest) == Last(rest[0], rest[1..]);
    }
  }

  /** With readings that never decrease the bound is burst + rate * (t - s). */
  lemma MonotoneWindowBound(e: Entry, first: real, rest: seq<real>, c: Config)
    requires ValidConfig(c) && InRange(e, c) && NonDecreasing(first, rest)
    ensures Admitted(e, [first] + rest, c) as real <= c.frameBurst + Earned(c, Last(first, rest) - first)
  {
    WindowBound(e, first, rest, c);
    ForwardAtLeast(first, rest);
  }

  /** The elapsed-time bound for one bucket and one window. */
  predicate WithinElapsed(e: Entry, first: real, rest: seq<real>, c: Config) {
    Admitted(e, [first] + rest, c) as real <= c.frameBurst + Earned(c, Last(first, rest) - first)
  }

  /** The elapsed-time bound holds for every rate, burst and bucket. */
  ghost predicate ElapsedBoundHolds(first: real, rest: seq<real>) {
    forall e, c :: ValidConfig(c) && InRange(e, c) ==> WithinElapsed(e, first, rest, c)
  }

  /** A bucket holding at least a token for every reading, that never overflows and never has to
      wait for more than one token, admits every frame. */
  lemma {:induction false} AllAdmitted(e: Entry, readings: seq<real>, c: Config)
    requires ValidConfig(c)
    requires |readings| as real <= e.tokens + Earned(c, Forward(e.lastRefill, readings)) <= c.frameBurst
    requires Earned(c, Forward(e.lastRefill, readings)) <= 1.0
    ensures Admitted(e, readings, c) == |readings|
    decreases |readings|
  {
    if readings != [] {
      var now, rest := readings[0], readings[1..];
      EarnedAdds(c, Elapsed(now, e.lastRefill), Forward(now, rest));
      EarnedNonNegative(c, Elapsed(now, e.lastRefill));
      EarnedNonNegative(c, Forward(now, rest));
      EnoughForOne(e, now, rest, c);
      AllAdmitted(Consumed(e, now, c), rest, c);
    }
  }

  lemma EnoughForOne(e: Entry, now: real, rest: seq<real>, c: Config)
    requires ValidConfig(c) && Earned(c, Forward(now, rest)) <= 1.0 && Earned(c, Forward(now, rest)) >= 0.0
    requires (|rest| + 1) as real <= e.tokens + Earned(c, Elapsed(now, e.lastRefill))
             + Earned(c, Forward(now, rest)) <= c.frameBurst
    ensures Admits(e, now, c) && Consumed(e, now, c).tokens == e.tokens + Earned(c, Elapsed(now, e.lastRefill)) - 1.0
  {
    if rest == [] { assert Forward(now, rest) == 0.0; }
  }

  /** Spending a full bucket on every one of the readings. */
  lemma FullBucketAdmitsAll(first: real, rest: seq<real>, c: Config)
    requires ValidConfig(c) && Earned(c, Forward(first, rest)) <= 1.0
    requires |rest| as real <= c.frameBurst - 1.0 + Earned(c, Forward(first, rest)) <= c.frameBurst
             && c.frameBurst >= 1.0
    ensures Admitted(Entry(1, c.frameBurst, first), [first] + rest, c) == |rest| + 1
  {
    var e := Entry(1, c.frameBurst, first);
    assert Earned(c, 0.0) == 0.0;
    assert Consumed(e, first, c) == Entry(1, c.frameBurst - 1.0, first);
    AllAdmitted(Consumed(e, first, c), rest, c);
    assert ([first] + rest)[1..] == rest;
  }

  /** A clock that steps back anywhere refills again: some rate and burst admit more frames than
      burst + rate * elapsed. */
  lemma BackwardClockRefillsAgain(first: real, rest: seq<real>) returns (e: Entry, c: Config)
    requires !NonDecreasing(first, rest)
    ensures ValidConfig(c) && InRange(e, c) && !WithinElapsed(e, first, rest, c)
  {
    ForwardAtLeast(first, rest);
    var f, n := Forward(first, rest), (|rest| + 1) as real;
    assert |rest| >= 1;
    if f > 0.0 {
      c := Config(1, 1, 0.5 / f, n - 0.5);
      HalfToken(c, f);
    } else {
      c := Config(1, 1, 1.0, n);
    }
    e := Entry(1, c.frameBurst, first);
    FullBucketAdmitsAll(first, rest, c);
    EarnedGrows(c, Last(first, rest) - first, f);
  }

  lemma HalfToken(c: Config, f: real)
    requires f > 0.0 && c.frameRate == 0.5 / f
    ensures Earned(c, f) == 0.5
  {
  }

  lemma EarnedGrows(c: Config, a: real, b: real)
    requires c.frameRate > 0.0 && a < b
    ensures Earned(c, a) < Earned(c, b)
  {
  }

  /** The bound burst + rate * (t - s) holds, whatever the configuration and the bucket, exactly
      for readings that never decrease. */
  lemma ElapsedBoundIff(first: real, rest: seq<real>)
    ensures ElapsedBoundHolds(first, rest) <==> NonDecreasing(first, rest)
  {
    if NonDecreasing(first, rest) {
      forall e, c | ValidConfig(c) && InRange(e, c) ensures WithinElapsed(e, first, rest, c) {
        MonotoneWindowBound(e, first, rest, c);
      }
    } else {
      var e, c := BackwardClockRefillsAgain(first, rest);
    }
  }

  // ---- Connections and tickets -----------------------------------------------------------

  /** The guard's table together with the tickets that have been handed out and not dropped. */
  datatype Guard = Guard(table: map<Ip, Entry>, tickets: multiset<Ip>)

  const Fresh := Guard(map[], multiset{})

  function AcceptOutcome(c: Config, g: Guard, ip: Ip): Accept {
    if ip !in g.table && |g.table| >= c.maxTrackedIps then Rejected(IpCapReached)
    else
      var active := if ip in g.table then g.table[ip].connCount else 0;
      if active >= c.maxConnPerIp then Rejected(ConnCapPerIp(active, c.maxConnPerIp)) else Ticket(ip)
  }

  function AfterAccept(c: Config, g: Guard, ip: Ip, now: real): Guard {
    if ip !in g.table && |g.table| >= c.maxTrackedIps then g
    else
      var e := if ip in g.table then g.table[ip] else Entry(0, c.frameBurst, now);
      if e.connCount >= c.maxConnPerIp then g.(table := g.table[ip := e])
      else Guard(g.table[ip := e.(connCount := e.connCount + 1)], g.tickets + multiset{ip})
  }

  function AfterFrame(c: Config, g: Guard, ip: Ip, now: real): Guard {
    if ip in g.table then g.(table := g.table[ip := Consumed(g.table[ip], now, c)]) else g
  }

  function AfterRelease(g: Guard, ip: Ip): Guard
    requires ip in g.tickets
  {
    var tickets := g.tickets - multiset{ip};
    if ip in g.table then
      var e := g.table[ip];
      if e.connCount <= 1 then Guard(g.table - {ip}, tickets)
      else Guard(g.table[ip := e.(connCount := e.connCount - 1)], tickets)
    else g.(tickets := tickets)
  }

  class AntiAbuseGuard {
    const config: Config
    var table: map<Ip, Entry>
    ghost var tickets: multiset<Ip>

    ghost function View(): Guard
      reads this
    {
      Guard(table, tickets)
    }

    constructor (config: Config)
      ensures this.config == config && View() == Fresh
    {
      this.config := config;
      table := map[];
      tickets := multiset{};
    }

    method TryAcceptConnection(ip: Ip, now: real) returns (r: Accept)
      modifies this
      ensures r == AcceptOutcome(config, old(View()), ip)
      ensures View() == AfterAccept(config, old(View()), ip, now)
    {
      var known := ip in table;
      if !known && |table| >= config.maxTrackedIps {
        return Rejected(IpCapReached);
      }
      if !known {
        table := table[ip := Entry(0, config.frameBurst, now)];
      }
      var entry := table[ip];
      if entry.connCount >= config.maxConnPerIp {
        return Rejected(ConnCapPerIp(entry.connCount, config.maxConnPerIp));
      }
      table := table[ip := entry.(connCount := entry.connCount + 1)];
      tickets := tickets + multiset{ip};
      return Ticket(ip);
    }

    method TryConsumeFrame(ip: Ip, now: real) returns (ok: bool)
      modifies this
      ensures ok == (ip in old(table) && Admits(old(table)[ip], now, config))
      ensures View() == AfterFrame(config, old(View()), ip, now)
    {
      if ip !in table {
        return false;
      }
      var entry := table[ip];
      var elapsed := Elapsed(now, entry.lastRefill);
      var tokens := Min(entry.tokens + elapsed * config.frameRate, config.frameBurst);
      ok := tokens >= 1.0;
      if ok {
        tokens := tokens - 1.0;
      }
      table := table[ip := Entry(entry.connCount, tokens, now)];
    }

    /** The drop of a ticket. */
    method Release(ip: Ip)
      requires ip in tickets
      modifies this
      ensures View() == AfterRelease(old(View()), ip)
    {
      tickets := tickets - multiset{ip};
      if ip in table {
        var entry := table[ip];
        var connCount := if entry.connCount == 0 then 0 else entry.connCount - 1;
        table := table[ip := entry.(connCount := connCount)];
        if connCount == 0 {
          table := table - {ip};
        }
      }
    }
  }

  /** Every entry counts its live tickets, and an address has an entry exactly while it has one. */
  ghost predicate Conserved(g: Guard) {
    && (forall ip :: ip in g.table ==> g.table[ip].connCount == g.tickets[ip])
    && (forall ip :: ip in g.table <==> ip in g.tickets)
  }

  predicate WithinCaps(c: Config, g: Guard) {
    && |g.table| <= c.maxTrackedIps
    && (forall ip :: ip in g.table ==> g.table[ip].connCount <= c.maxConnPerIp && InRange(g.table[ip], c))
  }

  datatype Op = Open(ip: Ip, now: real) | Frame(ip: Ip, now: real) | Drop(ip: Ip)

  predicate Enabled(g: Guard, op: Op) {
    op.Drop? ==> op.ip in g.tickets
  }

  function Next(c: Config, g: Guard, op: Op): Guard
    requires Enabled(g, op)
  {
    match op
    case Open(ip, now) => AfterAccept(c, g, ip, now)
    case Frame(ip, now) => AfterFrame(c, g, ip, now)
    case Drop(ip) => AfterRelease(g, ip)
  }

  predicate Runs(c: Config, g: Guard, run: seq<Op>)
    decreases |run|
  {
    run == [] || (Enabled(g, run[0]) && Runs(c, Next(c, g, run[0]), run[1..]))
  }

  function After(c: Config, g: Guard, run: seq<Op>): Guard
    requires Runs(c, g, run)
    decreases |run|
  {
    if run == [] then g else After(c, Next(c, g, run[0]), run[1..])
  }

  lemma StepConserves(c: Config, g: Guard, op: Op)
    requires Conserved(g) && Enabled(g, op) && (c.maxConnPerIp >= 1 || c.maxTrackedIps == 0)
    ensures Conserved(Next(c, g, op))
  {
    match op
    case Open(ip, now) => AcceptConserves(c, g, ip, now);
    case Frame(ip, now) =>
    case Drop(ip) => ReleaseConserves(g, ip);
  }

  lemma AcceptConserves(c: Config, g: Guard, ip: Ip, now: real)
    requires Conserved(g) && (c.maxConnPerIp >= 1 || c.maxTrackedIps == 0)
    ensures Conserved(AfterAccept(c, g, ip, now))
  {
  }

  lemma ReleaseConserves(g: Guard, ip: Ip)
    requires Conserved(g) && ip in g.tickets
    ensures Conserved(AfterRelease(g, ip))
  {
  }

  lemma Resized(a: map<Ip, Entry>, b: map<Ip, Entry>, ip: Ip)
    ensures b.Keys == a.Keys ==> |b| == |a|
    ensures b.Keys == a.Keys + {ip} && ip !in a ==> |b| == |a| + 1
    ensures b.Keys == a.Keys - {ip} ==> |b| <= |a|
  {
  }

  lemma AcceptWithinCaps(c: Config, g: Guard, ip: Ip, now: real)
    requires ValidConfig(c) && WithinCaps(c, g)
    ensures WithinCaps(c, AfterAccept(c, g, ip, now))
  {
    var h := AfterAccept(c, g, ip, now);
    Resized(g.table, h.table, ip);
    assert h.table.Keys == g.table.Keys || (ip !in g.table && h.table.Keys == g.table.Keys + {ip});
  }

  lemma FrameWithinCaps(c: Config, g: Guard, ip: Ip, now: real)
    requires ValidConfig(c) && WithinCaps(c, g)
    ensures WithinCaps(c, AfterFrame(c, g, ip, now))
  {
    var h := AfterFrame(c, g, ip, now);
    Resized(g.table, h.table, ip);
    assert h.table.Keys == g.table.Keys;
    if ip in g.table { TokensStayInRange(g.table[ip], now, c); }
  }

  lemma ReleaseWithinCaps(c: Config, g: Guard, ip: Ip)
    requires WithinCaps(c, g) && ip in g.tickets
    ensures WithinCaps(c, AfterRelease(g, ip))
  {
    var h := AfterRelease(g, ip);
    Resized(g.table, h.table, ip);
    assert h.table.Keys == g.table.Keys || h.table.Keys == g.table.Keys - {ip};
  }

  lemma StepWithinCaps(c: Config, g: Guard, op: Op)
    requires ValidConfig(c) && WithinCaps(c, g) && Enabled(g, op)
    ensures WithinCaps(c, Next(c, g, op))
  {
    match op
    case Open(ip, now) => AcceptWithinCaps(c, g, ip, now);
    case Frame(ip, now) => FrameWithinCaps(c, g, ip, now);
    case Drop(ip) => ReleaseWithinCaps(c, g, ip);
  }

  lemma {:induction false} RunWithinCaps(c: Config, g: Guard, run: seq<Op>)
    requires ValidConfig(c) && WithinCaps(c, g) && Runs(c, g, run)
    ensures WithinCaps(c, After(c, g, run))
    decreases |run|
  {
    if run != [] {
      StepWithinCaps(c, g, run[0]);
      RunWithinCaps(c, Next(c, g, run[0]), run[1..]);
    }
  }

  lemma {:induction false} RunConserves(c: Config, g: Guard, run: seq<Op>)
    requires Conserved(g) && Runs(c, g, run) && (c.maxConnPerIp >= 1 || c.maxTrackedIps == 0)
    ensures Conserved(After(c, g, run))
    decreases |run|
  {
    if run != [] {
      StepConserves(c, g, run[0]);
      RunConserves(c, Next(c, g, run[0]), run[1..]);
    }
  }

  ghost predicate AlwaysConserved(c: Config) {
    forall run :: Runs(c, Fresh, run) ==> Conserved(After(c, Fresh, run))
  }

  /** Tickets are conserved in every reachable state exactly when the connection cap is not
      zero (or nothing can be tracked at all): a zero cap leaves an entry without a ticket. */
  lemma TicketsConservedIff(c: Config)
    ensures AlwaysConserved(c) <==> c.maxConnPerIp >= 1 || c.maxTrackedIps == 0
  {
    if c.maxConnPerIp >= 1 || c.maxTrackedIps == 0 {
      forall run | Runs(c, Fresh, run) ensures Conserved(After(c, Fresh, run)) {
        RunConserves(c, Fresh, run);
      }
    } else {
      var run := [Open(7, 0.0)];
      assert Runs(c, Fresh, run) && After(c, Fresh, run) == AfterAccept(c, Fresh, 7, 0.0);
      assert 7 in AfterAccept(c, Fresh, 7, 0.0).table && 7 !in AfterAccept(c, Fresh, 7, 0.0).tickets;
    }
  }

  // ---- Frames of one address over a whole run of the guard -------------------------------

  /** The readings of the frames of `ip` in the run. */
  function Readings(run: seq<Op>, ip: Ip): seq<real> {
    if run == [] then []
    else (if run[0].Frame? && run[0].ip == ip then [run[0].now] else []) + Readings(run[1..], ip)
  }

  predicate StaysTracked(c: Config, g: Guard, run: seq<Op>, ip: Ip)
    requires Runs(c, g, run)
    decreases |run|
  {
    ip in g.table && (run == [] || StaysTracked(c, Next(c, g, run[0]), run[1..], ip))
  }

  /** Frames of `ip` the guard lets through in the run. */
  function Passed(c: Config, g: Guard, run: seq<Op>, ip: Ip): nat
    requires Runs(c, g, run)
    decreases |run|
  {
    if run == [] then 0
    else
      (if run[0].Frame? && run[0].ip == ip && ip in g.table && Admits(g.table[ip], run[0].now, c) then 1 else 0)
      + Passed(c, Next(c, g, run[0]), run[1..], ip)
  }

  /** Accepts, drops and other addresses' frames do not touch a tracked address's bucket. */
  lemma {:induction false} PassedIsAdmitted(c: Config, g: Guard, run: seq<Op>, ip: Ip, e: Entry)
    requires Runs(c, g, run) && StaysTracked(c, g, run, ip)
    requires g.table[ip].tokens == e.tokens && g.table[ip].lastRefill == e.lastRefill
    ensures Passed(c, g, run, ip) == Admitted(e, Readings(run, ip), c)
    decreases |run|
  {
    if run != [] {
      var op, h := run[0], Next(c, g, run[0]);
      if op.Frame? && op.ip == ip {
        assert Readings(run, ip)[1..] == Readings(run[1..], ip);
        PassedIsAdmitted(c, h, run[1..], ip, Consumed(e, op.now, c));
      } else {
        assert Readings(run, ip) == Readings(run[1..], ip);
        PassedIsAdmitted(c, h, run[1..], ip, e);
      }
    }
  }

  /** While an address stays tracked, the frames let through in any stretch of any run are at
      most burst + rate * (forward movement of the clock over its frames). */
  lemma TrackedRateLimit(c: Config, run: seq<Op>, more: seq<Op>, ip: Ip, first: real, rest: seq<real>)
    requires ValidConfig(c) && Runs(c, Fresh, run) && Runs(c, After(c, Fresh, run), more)
    requires StaysTracked(c, After(c, Fresh, run), more, ip) && Readings(more, ip) == [first] + rest
    ensures Passed(c, After(c, Fresh, run), more, ip) as real <= c.frameBurst + Earned(c, Forward(first, rest))
    ensures NonDecreasing(first, rest) ==>
      Passed(c, After(c, Fresh, run), more, ip) as real <= c.frameBurst + Earned(c, Last(first, rest) - first)
  {
    var g := After(c, Fresh, run);
    RunWithinCaps(c, Fresh, run);
    PassedIsAdmitted(c, g, more, ip, g.table[ip]);
    WindowBound(g.table[ip], first, rest, c);
    ForwardAtLeast(first, rest);
  }

  // ---- Across reconnects -----------------------------------------------------------------

  /** How often the run starts to track `ip`, the tracking it begins with included. */
  function TimesTracked(c: Config, g: Guard, run: seq<Op>, ip: Ip): nat
    requires Runs(c, g, run)
    decreases |run|
  {
    (if ip in g.table then 1 else 0) + TimesStarted(c, g, run, ip)
  }

  function TimesStarted(c: Config, g: Guard, run: seq<Op>, ip: Ip): nat
    requires Runs(c, g, run)
    decreases |run|
  {
    if run == [] then 0
    else
      (if ip !in g.table && ip in Next(c, g, run[0]).table then 1 else 0)
        + TimesStarted(c, Next(c, g, run[0]), run[1..], ip)
  }

  /** What the address can still spend without a further refill: its tokens if they were counted at
      the reading `at`, else a whole burst, and nothing when it is not tracked. */
  function Held(c: Config, g: Guard, ip: Ip, at: real): real {
    if ip !in g.table then 0.0
    else if g.table[ip].lastRefill == at then g.table[ip].tokens
    else c.frameBurst
  }

  predicate WithinHeld(c: Config, g: Guard, run: seq<Op>, ip: Ip, at: real)
    requires Runs(c, g, run)
  {
    Passed(c, g, run, ip) as real
    <= Held(c, g, ip, at) + Bursts(c, TimesStarted(c, g, run, ip)) + Earned(c, Forward(at, Readings(run, ip)))
  }

  lemma {:induction false} PassedWithinHeld(c: Config, g: Guard, run: seq<Op>, ip: Ip, at: real)
    requires ValidConfig(c) && WithinCaps(c, g) && Runs(c, g, run)
    ensures WithinHeld(c, g, run, ip, at)
    decreases |run|
  {
    if run == [] {
      assert Earned(c, 0.0) == 0.0;
    } else {
      StepWithinCaps(c, g, run[0]);
      if run[0].Frame? && run[0].ip == ip {
        PassedWithinHeld(c, Next(c, g, run[0]), run[1..], ip, run[0].now);
        OwnFrameWithinHeld(c, g, run, ip, at);
      } else {
        PassedWithinHeld(c, Next(c, g, run[0]), run[1..], ip, at);
        OtherStepWithinHeld(c, g, run, Next(c, g, run[0]), run[1..], ip, at);
      }
    }
  }

  lemma OwnFrameWithinHeld(c: Config, g: Guard, run: seq<Op>, ip: Ip, at: real)
    requires ValidConfig(c) && WithinCaps(c, g) && Runs(c, g, run) && run != [] && run[0].Frame? && run[0].ip == ip
    requires WithinHeld(c, Next(c, g, run[0]), run[1..], ip, run[0].now)
    ensures WithinHeld(c, g, run, ip, at)
  {
    var now := run[0].now;
    assert Readings(run, ip)[0] == now && Readings(run, ip)[1..] == Readings(run[1..], ip);
    FrameSpendsHeld(c, g, ip, at, now);
    EarnedAdds(c, Elapsed(now, at), Forward(now, Readings(run[1..], ip)));
  }

  /** `h` and `rest` are what follows a first step that is no frame of `ip`. */
  ghost predicate Follows(c: Config, g: Guard, run: seq<Op>, h: Guard, rest: seq<Op>, ip: Ip) {
    Runs(c, g, run) && run != [] && !(run[0].Frame? && run[0].ip == ip) && h == Next(c, g, run[0]) && rest == run[1..]
  }

  lemma OtherStepWithinHeld(c: Config, g: Guard, run: seq<Op>, h: Guard, rest: seq<Op>, ip: Ip, at: real)
    requires ValidConfig(c) && WithinCaps(c, g) && Follows(c, g, run, h, rest, ip) && WithinHeld(c, h, rest, ip, at)
    ensures WithinHeld(c, g, run, ip, at)
  {
    OtherStepCounts(c, g, run, h, rest, ip);
    OtherStepCosts(c, g, run, h, rest, ip, at);
    Carry(c, g, run, h, rest, ip, at);
  }

  lemma OtherStepCounts(c: Config, g: Guard, run: seq<Op>, h: Guard, rest: seq<Op>, ip: Ip)
    requires Follows(c, g, run, h, rest, ip)
    ensures Passed(c, g, run, ip) == Passed(c, h, rest, ip) && Readings(run, ip) == Readings(rest, ip)
    ensures TimesStarted(c, g, run, ip)
         == TimesStarted(c, h, rest, ip) + if ip !in g.table && ip in h.table then 1 else 0
  {
  }

  lemma OtherStepCosts(c: Config, g: Guard, run: seq<Op>, h: Guard, rest: seq<Op>, ip: Ip, at: real)
    requires ValidConfig(c) && WithinCaps(c, g) && Follows(c, g, run, h, rest, ip)
    ensures Held(c, h, ip, at) + Bursts(c, TimesStarted(c, h, rest, ip))
         <= Held(c, g, ip, at) + Bursts(c, TimesStarted(c, g, run, ip))
  {
    OtherStepCounts(c, g, run, h, rest, ip);
    StepWithinCaps(c, g, run[0]);
    OtherStepKeepsHeld(c, g, run[0], ip, at, TimesStarted(c, h, rest, ip));
  }

  lemma Carry(c: Config, g: Guard, run: seq<Op>, h: Guard, tail: seq<Op>, ip: Ip, at: real)
    requires Runs(c, g, run) && Runs(c, h, tail) && WithinHeld(c, h, tail, ip, at)
    requires Passed(c, g, run, ip) == Passed(c, h, tail, ip) && Readings(run, ip) == Readings(tail, ip)
    requires Held(c, h, ip, at) + Bursts(c, TimesStarted(c, h, tail, ip))
          <= Held(c, g, ip, at) + Bursts(c, TimesStarted(c, g, run, ip))
    ensures WithinHeld(c, g, run, ip, at)
  {
  }

  /** `n` bursts. */
  function Bursts(c: Config, n: nat): real {
    if n == 0 then 0.0 else c.frameBurst + Bursts(c, n - 1)
  }

  lemma FrameSpendsHeld(c: Config, g: Guard, ip: Ip, at: real, now: real)
    requires ValidConfig(c) && WithinCaps(c, g)
    ensures Held(c, AfterFrame(c, g, ip, now), ip, now)
            + (if ip in g.table && Admits(g.table[ip], now, c) then 1.0 else 0.0)
         <= Held(c, g, ip, at) + Earned(c, Elapsed(now, at))
  {
    EarnedNonNegative(c, Elapsed(now, at));
  }

  lemma OtherStepKeepsHeld(c: Config, g: Guard, op: Op, ip: Ip, at: real, n: nat)
    requires ValidConfig(c) && WithinCaps(c, g) && Enabled(g, op) && WithinCaps(c, Next(c, g, op))
             && !(op.Frame? && op.ip == ip)
    ensures var h := Next(c, g, op);
      Held(c, h, ip, at) + Bursts(c, n)
      <= Held(c, g, ip, at) + Bursts(c, n + if ip !in g.table && ip in h.table then 1 else 0)
  {
  }

  /** Whatever an address does, in any stretch of any run it passes at most one burst for every time
      it starts to be tracked, plus the rate times the forward clock movement over its frames. */
  lemma BurstPerTracking(c: Config, run: seq<Op>, more: seq<Op>, ip: Ip, first: real, rest: seq<real>)
    requires ValidConfig(c) && Runs(c, Fresh, run) && Runs(c, After(c, Fresh, run), more)
    requires Readings(more, ip) == [first] + rest
    ensures Passed(c, After(c, Fresh, run), more, ip) as real
         <= Bursts(c, TimesTracked(c, After(c, Fresh, run), more, ip)) + Earned(c, Forward(first, rest))
  {
    RunWithinCaps(c, Fresh, run);
    StretchBound(c, After(c, Fresh, run), more, ip, first, rest);
  }

  lemma StretchBound(c: Config, g: Guard, more: seq<Op>, ip: Ip, first: real, rest: seq<real>)
    requires ValidConfig(c) && WithinCaps(c, g) && Runs(c, g, more) && Readings(more, ip) == [first] + rest
    ensures Passed(c, g, more, ip) as real <= Bursts(c, TimesTracked(c, g, more, ip)) + Earned(c, Forward(first, rest))
  {
    PassedWithinHeld(c, g, more, ip, first);
    ForwardFromFirst(first, rest);
    HeldWithinBursts(c, g, ip, first, TimesStarted(c, g, more, ip));
  }

  lemma ForwardFromFirst(first: real, rest: seq<real>)
    ensures Forward(first, [first] + rest) == Forward(first, rest)
  {
    assert ([first] + rest)[1..] == rest;
  }

  lemma HeldWithinBursts(c: Config, g: Guard, ip: Ip, at: real, n: nat)
    requires WithinCaps(c, g)
    ensures Held(c, g, ip, at) + Bursts(c, n) <= Bursts(c, n + if ip in g.table then 1 else 0)
  {
  }

  /** `n` frames at one instant. */
  function Frames(ip: Ip, n: nat): seq<Op> {
    if n == 0 then [] else [Frame(ip, 0.0)] + Frames(ip, n - 1)
  }

  /** One connection that sends `n` frames at time zero. */
  function Session(ip: Ip, n: nat): seq<Op> {
    [Open(ip, 0.0)] + (Frames(ip, n) + [Drop(ip)])
  }

  function Sessions(ip: Ip, n: nat, k: nat): seq<Op> {
    if k == 0 then [] else Session(ip, n) + Sessions(ip, n, k - 1)
  }

  function Instants(n: nat): seq<real> {
    if n == 0 then [] else [0.0] + Instants(n - 1)
  }

  /** The table while `ip` holds one connection and `tokens` at time zero. */
  function Only(ip: Ip, tokens: real): Guard {
    Guard(map[ip := Entry(1, tokens, 0.0)], multiset{ip})
  }

  /** What a run of `ip` alone amounts to: frames passed, times tracking starts, and its readings. */
  ghost predicate Amounts(c: Config, g: Guard, run: seq<Op>, ip: Ip, passed: nat, started: nat, frames: nat) {
    && Runs(c, g, run) && Passed(c, g, run, ip) == passed && TimesStarted(c, g, run, ip) == started
    && Readings(run, ip) == Instants(frames)
  }

  lemma SpendOne(c: Config, ip: Ip, tokens: real)
    requires 1.0 <= tokens <= c.frameBurst
    ensures Admits(Only(ip, tokens).table[ip], 0.0, c)
            && AfterFrame(c, Only(ip, tokens), ip, 0.0) == Only(ip, tokens - 1.0)
  {
    assert Earned(c, 0.0) == 0.0;
  }

  lemma OneFrameMore(c: Config, ip: Ip, tokens: real, rest: seq<Op>, passed: nat, started: nat, frames: nat)
    requires 1.0 <= tokens <= c.frameBurst && Amounts(c, Only(ip, tokens - 1.0), rest, ip, passed, started, frames)
    ensures Amounts(c, Only(ip, tokens), [Frame(ip, 0.0)] + rest, ip, passed + 1, started, frames + 1)
  {
    SpendOne(c, ip, tokens);
    assert ([Frame(ip, 0.0)] + rest)[1..] == rest;
  }

  lemma {:induction false} SpendMany(c: Config, ip: Ip, n: nat, tokens: real, left: real, rest: seq<Op>, passed: nat,
                                     started: nat, frames: nat)
    requires 0.0 <= left && tokens == left + n as real && tokens <= c.frameBurst
    requires Amounts(c, Only(ip, left), rest, ip, passed, started, frames)
    ensures Amounts(c, Only(ip, tokens), Frames(ip, n) + rest, ip, passed + n, started, frames + n)
    decreases n
  {
    if n == 0 {
      assert Frames(ip, 0) + rest == rest;
    } else {
      SpendMany(c, ip, n - 1, tokens - 1.0, left, rest, passed, started, frames);
      OneFrameMore(c, ip, tokens, Frames(ip, n - 1) + rest, passed + n - 1, started, frames + n - 1);
      assert Frames(ip, n) + rest == [Frame(ip, 0.0)] + (Frames(ip, n - 1) + rest);
    }
  }

  lemma LastDrop(c: Config, ip: Ip, tokens: real, rest: seq<Op>, passed: nat, started: nat, frames: nat)
    requires Amounts(c, Fresh, rest, ip, passed, started, frames)
    ensures Amounts(c, Only(ip, tokens), [Drop(ip)] + rest, ip, passed, started, frames)
  {
    assert AfterRelease(Only(ip, tokens), ip) == Fresh;
    assert ([Drop(ip)] + rest)[1..] == rest;
  }

  lemma FirstOpen(c: Config, ip: Ip, rest: seq<Op>, passed: nat, started: nat, frames: nat)
    requires c.maxConnPerIp >= 1 && c.maxTrackedIps >= 1
             && Amounts(c, Only(ip, c.frameBurst), rest, ip, passed, started, frames)
    ensures Amounts(c, Fresh, [Open(ip, 0.0)] + rest, ip, passed, started + 1, frames)
  {
    assert AfterAccept(c, Fresh, ip, 0.0) == Only(ip, c.frameBurst);
    assert ([Open(ip, 0.0)] + rest)[1..] == rest;
  }

  lemma OneSessionMore(c: Config, ip: Ip, n: nat, rest: seq<Op>, passed: nat, started: nat, frames: nat)
    requires c.maxConnPerIp >= 1 && c.maxTrackedIps >= 1 && n as real <= c.frameBurst
    requires Amounts(c, Fresh, rest, ip, passed, started, frames)
    ensures Amounts(c, Fresh, Session(ip, n) + rest, ip, passed + n, started + 1, frames + n)
  {
    LastDrop(c, ip, c.frameBurst - n as real, rest, passed, started, frames);
    SpendMany(c, ip, n, c.frameBurst, c.frameBurst - n as real, [Drop(ip)] + rest, passed, started, frames);
    FirstOpen(c, ip, Frames(ip, n) + ([Drop(ip)] + rest), passed + n, started, frames + n);
    assert Session(ip, n) + rest == [Open(ip, 0.0)] + (Frames(ip, n) + ([Drop(ip)] + rest));
  }

  /** Dropping the last connection forgets the bucket, and the bound is attained: for every burst of
      at least `n` frames, by connecting `k` times an address passes k * n frames at one instant. */
  lemma {:induction false} ReconnectRestoresTheBurst(c: Config, ip: Ip, n: nat, k: nat)
    requires c.maxConnPerIp >= 1 && c.maxTrackedIps >= 1 && n as real <= c.frameBurst
    ensures Amounts(c, Fresh, Sessions(ip, n, k), ip, k * n, k, k * n)
    decreases k
  {
    if k > 0 {
      var done := (k - 1) * n;
      ReconnectRestoresTheBurst(c, ip, n, k - 1);
      OneSessionMore(c, ip, n, Sessions(ip, n, k - 1), done, k - 1, done);
      assert done + n == k * n;
    }
  }
}
