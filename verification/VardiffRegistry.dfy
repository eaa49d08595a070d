/** Reference counts of the per wallet+worker vardiff entries (share_handler.rs,
    stratum_context.rs, default_client.rs).

    Connections run concurrently with each other and with the prune task. A step below is one
    critical section: the registration flag and the entry lookup, the counter update, or the
    activity stamp. Entries are objects that outlive their removal from the map. */
module VardiffRegistry {
  type Key = string
  const INACTIVE_TTL: nat := 3600
  const MAX_ACTIVE: nat := 0xFFFF_FFFF

  datatype Stats = Stats(active: nat, lastActivity: nat)

  /** Where a connection stands between two critical sections. */
  datatype Pc = Idle | Counting(obj: nat) | Uncounting(obj: nat) | Touching(obj: nat)

  datatype Conn = Conn(key: Key, registered: bool, pc: Pc) {
    /** This connection is part of its entry's counter. */
    predicate Counted() {
      if registered then !pc.Counting? else pc.Uncounting?
    }
  }

  datatype State = State(conns: map<nat, Conn>, stats: map<Key, nat>, objs: seq<Stats>, now: nat)

  datatype Step =
    | Connect(c: nat)
    | Identify(c: nat, key: Key)
    | BeginActivate(c: nat)
    | Count(c: nat)
    | BeginDeactivate(c: nat)
    | Uncount(c: nat)
    | BeginRegister(c: nat)
    | Touch(c: nat)
    | Close(c: nat)
    | Ensure(key: Key)
    | Tick(dt: nat)
    | Prune

  predicate Retained(e: Stats, now: nat) {
    e.active > 0 || now - e.lastActivity < INACTIVE_TTL
  }

  predicate PcIs(s: State, c: nat, pc: Pc) {
    c in s.conns && s.conns[c].pc == pc
  }

  predicate Enabled(s: State, a: Step) {
    match a
    case Connect(c) => c !in s.conns && |s.conns| < MAX_ACTIVE
    // `prepare_worker_identity_change` has always run before the identity is written
    case Identify(c, _) => PcIs(s, c, Idle) && !s.conns[c].registered
    case BeginActivate(c) => PcIs(s, c, Idle)
    case BeginDeactivate(c) => PcIs(s, c, Idle)
    case BeginRegister(c) => PcIs(s, c, Idle)
    case Count(c) => c in s.conns && s.conns[c].pc.Counting? && s.conns[c].pc.obj < |s.objs|
    case Uncount(c) => c in s.conns && s.conns[c].pc.Uncounting? && s.conns[c].pc.obj < |s.objs|
    case Touch(c) => c in s.conns && s.conns[c].pc.Touching? && s.conns[c].pc.obj < |s.objs|
    case Close(c) => PcIs(s, c, Idle) && !s.conns[c].registered
    case Ensure(_) => true
    case Tick(_) => true
    case Prune => forall k :: k in s.stats ==> s.stats[k] < |s.objs|
  }

  function Ensured(s: State, k: Key): State {
    if k in s.stats then s
    else s.(stats := s.stats[k := |s.objs|], objs := s.objs + [Stats(0, s.now)])
  }

  function With(s: State, c: nat, v: Conn): State {
    s.(conns := s.conns[c := v])
  }

  function SetActive(s: State, o: nat, active: nat): State
    requires o < |s.objs|
  {
    s.(objs := s.objs[o := s.objs[o].(active := active)])
  }

  function Next(s: State, a: Step): State
    requires Enabled(s, a)
  {
    match a
    case Connect(c) => With(s, c, Conn("", false, Idle))
    case Identify(c, key) => With(s, c, s.conns[c].(key := key))
    case BeginActivate(c) =>
      var v := s.conns[c];
      if v.registered then s
      else
        var t := Ensured(s, v.key);
        With(t, c, v.(registered := true, pc := Counting(t.stats[v.key])))
    case Count(c) =>
      var v := s.conns[c];
      var e := s.objs[v.pc.obj];
      With(SetActive(s, v.pc.obj, if e.active == MAX_ACTIVE then MAX_ACTIVE else e.active + 1), c,
        v.(pc := Touching(v.pc.obj)))
    case BeginDeactivate(c) =>
      var v := s.conns[c];
      if !v.registered then s
      else With(s, c, v.(registered := false, pc := if v.key in s.stats then Uncounting(s.stats[v.key]) else Idle))
    case Uncount(c) =>
      var v := s.conns[c];
      var e := s.objs[v.pc.obj];
      With(SetActive(s, v.pc.obj, if e.active == 0 then 0 else e.active - 1), c, v.(pc := Touching(v.pc.obj)))
    case BeginRegister(c) =>
      var v := s.conns[c];
      var t := Ensured(s, v.key);
      With(t, c, v.(pc := Touching(t.stats[v.key])))
    case Touch(c) =>
      var v := s.conns[c];
      With(s.(objs := s.objs[v.pc.obj := s.objs[v.pc.obj].(lastActivity := s.now)]), c, v.(pc := Idle))
    case Close(c) => s.(conns := s.conns - {c})
    case Ensure(key) => Ensured(s, key)
    case Tick(dt) => s.(now := s.now + dt)
    case Prune => s.(stats := map k | k in s.stats && Retained(s.objs[s.stats[k]], s.now) :: s.stats[k])
  }

  // ---- Conservation -------------------------------------------------------------

  function Live(conns: map<nat, Conn>, k: Key): set<nat> {
    set c | c in conns && conns[c].key == k && conns[c].Counted()
  }

  /** A connection that is counted, or about to be, is attached to the entry of its own key. */
  predicate Placed(s: State, v: Conn) {
    match v.pc
    case Counting(o) => v.registered && v.key in s.stats && s.stats[v.key] == o
    case Uncounting(o) => !v.registered && v.key in s.stats && s.stats[v.key] == o
    case Touching(o) => o < |s.objs| && (v.registered ==> v.key in s.stats)
    case Idle => v.registered ==> v.key in s.stats
  }

  predicate Entries(s: State) {
    && (forall k :: k in s.stats ==> s.stats[k] < |s.objs|)
    && (forall k, l :: k in s.stats && l in s.stats && s.stats[k] == s.stats[l] ==> k == l)
  }

  predicate Conserved(s: State) {
    && |s.conns| <= MAX_ACTIVE
    && Entries(s)
    && (forall c :: c in s.conns ==> Placed(s, s.conns[c]))
    && (forall k :: k in s.stats ==> s.objs[s.stats[k]].active == |Live(s.conns, k)|)
  }

  lemma LiveUpdate(conns: map<nat, Conn>, c: nat, v: Conn, k: Key)
    ensures Live(conns[c := v], k) == (if v.key == k && v.Counted() then Live(conns, k) + {c} else Live(conns, k) - {c})
  {
  }

  lemma {:induction false} Inside(a: set<nat>, b: set<nat>)
    requires a <= b
    ensures |a| <= |b|
    ensures a != b ==> |a| < |b|
  {
    if a != {} {
      var x :| x in a;
      Inside(a - {x}, b - {x});
      if a - {x} == b - {x} { assert a == b; }
    } else if b != {} {
      assert |b| > 0;
    }
  }

  /** No pending activation has looked up an entry that the prune is about to drop. */
  predicate PruneIsSafe(s: State) {
    forall c :: c in s.conns && s.conns[c].pc.Counting? && s.conns[c].pc.obj < |s.objs|
      ==> Retained(s.objs[s.conns[c].pc.obj], s.now)
  }

  lemma EnsureConserves(s: State, k: Key)
    requires Conserved(s)
    ensures Conserved(Ensured(s, k)) && k in Ensured(s, k).stats && Ensured(s, k).conns == s.conns
  {
    var t := Ensured(s, k);
    if k !in s.stats {
      assert Live(s.conns, k) == {};
      forall l | l in t.stats ensures t.objs[t.stats[l]].active == |Live(t.conns, l)| { }
    }
  }

  /** Replacing one connection without changing who is counted. */
  lemma SameCounts(s: State, c: nat, v: Conn)
    requires Conserved(s) && c in s.conns && Placed(s, v)
    requires s.conns[c].Counted() == v.Counted() && (v.Counted() ==> v.key == s.conns[c].key)
    ensures Conserved(With(s, c, v))
  {
    assert s.conns[c := v].Keys == s.conns.Keys;
    assert |s.conns[c := v]| == |s.conns[c := v].Keys| == |s.conns|;
    forall k ensures Live(s.conns[c := v], k) == Live(s.conns, k) {
      LiveUpdate(s.conns, c, v, k);
    }
  }

  /** Changing the counter of `c`'s entry by exactly what `c` itself changes. */
  lemma CountMoves(s: State, c: nat, v: Conn, active: nat)
    requires Conserved(s) && c in s.conns && v.key == s.conns[c].key && v.key in s.stats && Placed(s, v)
    requires v.Counted() != s.conns[c].Counted()
    requires active == s.objs[s.stats[v.key]].active + (if v.Counted() then 1 else -1)
    ensures Conserved(With(SetActive(s, s.stats[v.key], active), c, v))
  {
    var t := With(SetActive(s, s.stats[v.key], active), c, v);
    assert t.conns.Keys == s.conns.Keys;
    assert |t.conns| == |t.conns.Keys| == |s.conns|;
    forall k | k in t.stats ensures t.objs[t.stats[k]].active == |Live(t.conns, k)| {
      LiveUpdate(s.conns, c, v, k);
      if k != v.key {
        assert Live(t.conns, k) == Live(s.conns, k);
      } else if v.Counted() {
        assert c !in Live(s.conns, k);
      } else {
        assert c in Live(s.conns, k);
      }
    }
    forall d | d in t.conns ensures Placed(t, t.conns[d]) { }
  }

  lemma CountConserves(s: State, c: nat)
    requires Conserved(s) && (Enabled(s, Count(c)) || Enabled(s, Uncount(c)))
    ensures Conserved(Next(s, if s.conns[c].pc.Counting? then Count(c) else Uncount(c)))
  {
    var v := s.conns[c];
    var e := s.objs[v.pc.obj];
    if v.pc.Counting? {
      assert c in s.conns.Keys && c !in Live(s.conns, v.key);
      Inside(Live(s.conns, v.key), s.conns.Keys);
      CountMoves(s, c, v.(pc := Touching(v.pc.obj)), e.active + 1);
    } else {
      assert c in Live(s.conns, v.key);
      CountMoves(s, c, v.(pc := Touching(v.pc.obj)), e.active - 1);
    }
  }

  lemma TouchConserves(s: State, c: nat)
    requires Conserved(s) && Enabled(s, Touch(c))
    ensures Conserved(Next(s, Touch(c)))
  {
    var v := s.conns[c];
    var t := s.(objs := s.objs[v.pc.obj := s.objs[v.pc.obj].(lastActivity := s.now)]);
    assert Conserved(t);
    SameCounts(t, c, v.(pc := Idle));
  }

  lemma OpenConserves(s: State, c: nat)
    requires Conserved(s) && Enabled(s, Connect(c))
    ensures Conserved(Next(s, Connect(c)))
  {
    var t := Next(s, Connect(c));
    Sizes(s.conns, t.conns, c);
    forall k ensures Live(t.conns, k) == Live(s.conns, k) { }
  }

  lemma CloseConserves(s: State, c: nat)
    requires Conserved(s) && Enabled(s, Close(c))
    ensures Conserved(Next(s, Close(c)))
  {
    var t := Next(s, Close(c));
    Sizes(s.conns, t.conns, c);
    forall k ensures Live(t.conns, k) == Live(s.conns, k) { }
  }

  lemma Sizes(a: map<nat, Conn>, b: map<nat, Conn>, c: nat)
    ensures b.Keys == a.Keys + {c} ==> |b| <= |a| + 1
    ensures b.Keys == a.Keys - {c} ==> |b| <= |a|
  {
  }

  /** A prune keeps every entry some connection is counted in, whatever the clock says. */
  lemma PruneKeepsLiveEntries(s: State, c: nat)
    requires Conserved(s) && c in s.conns && s.conns[c].Counted()
    ensures s.conns[c].key in Next(s, Prune).stats
  {
    assert c in Live(s.conns, s.conns[c].key);
  }

  /** A prune keeps the counts right exactly when no pending activation holds an idle entry. */
  lemma PruneConservesIffSafe(s: State)
    requires Conserved(s)
    ensures Conserved(Next(s, Prune)) <==> PruneIsSafe(s)
  {
    var t := Next(s, Prune);
    if PruneIsSafe(s) {
      forall c | c in t.conns ensures Placed(t, t.conns[c]) {
        if s.conns[c].Counted() { PruneKeepsLiveEntries(s, c); }
      }
    } else {
      var c :| c in s.conns && s.conns[c].pc.Counting? && !Retained(s.objs[s.conns[c].pc.obj], s.now);
      assert !Placed(t, t.conns[c]);
    }
  }

  lemma StepConserves(s: State, a: Step)
    requires Conserved(s) && Enabled(s, a) && (a.Prune? ==> PruneIsSafe(s))
    ensures Conserved(Next(s, a))
  {
    match a
    case Connect(c) => OpenConserves(s, c);
    case Close(c) => CloseConserves(s, c);
    case Identify(c, key) => SameCounts(s, c, s.conns[c].(key := key));
    case BeginActivate(c) =>
      if !s.conns[c].registered {
        EnsureConserves(s, s.conns[c].key);
        var t := Ensured(s, s.conns[c].key);
        SameCounts(t, c, s.conns[c].(registered := true, pc := Counting(t.stats[s.conns[c].key])));
      }
    case BeginDeactivate(c) =>
      if s.conns[c].registered {
        SameCounts(s, c, s.conns[c].(registered := false, pc := Uncounting(s.stats[s.conns[c].key])));
      }
    case BeginRegister(c) =>
      EnsureConserves(s, s.conns[c].key);
      var t := Ensured(s, s.conns[c].key);
      SameCounts(t, c, s.conns[c].(pc := Touching(t.stats[s.conns[c].key])));
    case Count(c) => CountConserves(s, c);
    case Uncount(c) => CountConserves(s, c);
    case Touch(c) => TouchConserves(s, c);
    case Ensure(key) => EnsureConserves(s, key);
    case Tick(dt) =>
    case Prune => PruneConservesIffSafe(s);
  }

  // ---- Runs ------------------------------------------------------------------------

  predicate Runs(s: State, run: seq<Step>)
    decreases |run|
  {
    run == [] || (Enabled(s, run[0]) && Runs(Next(s, run[0]), run[1..]))
  }

  function Final(s: State, run: seq<Step>): State
    requires Runs(s, run)
    decreases |run|
  {
    if run == [] then s else Final(Next(s, run[0]), run[1..])
  }

  /** No prune of the run falls between the lookup and the count of an activation of an entry
      that has been idle for an hour. */
  predicate PrunesAreSafe(s: State, run: seq<Step>)
    requires Runs(s, run)
    decreases |run|
  {
    run == [] || ((run[0] == Prune ==> PruneIsSafe(s)) && PrunesAreSafe(Next(s, run[0]), run[1..]))
  }

  lemma {:induction false} RunConserves(s: State, run: seq<Step>)
    requires Conserved(s) && Runs(s, run) && PrunesAreSafe(s, run)
    ensures Conserved(Final(s, run))
    decreases |run|
  {
    if run != [] {
      StepConserves(s, run[0]);
      RunConserves(Next(s, run[0]), run[1..]);
    }
  }

  const Start := State(map[], map[], [], 0)

  /** Connections registered under `k`. */
  function Registered(conns: map<nat, Conn>, k: Key): set<nat> {
    set c | c in conns && conns[c].key == k && conns[c].registered
  }

  /** No connection of `k` is between the two halves of an activation or deactivation. */
  predicate AtRest(s: State, k: Key) {
    forall c :: c in s.conns && s.conns[c].key == k ==> !s.conns[c].pc.Counting? && !s.conns[c].pc.Uncounting?
  }

  /** Through authorize, re-authorize under a new identity, disconnect and pruning: whenever no
      connection of a key is half way through a call, whatever the others do, the entry of the key
      counts exactly the connections registered under it and exists if there are any. */
  lemma ActiveCountsRegistered(run: seq<Step>, k: Key)
    requires Runs(Start, run) && PrunesAreSafe(Start, run) && AtRest(Final(Start, run), k)
    ensures Entries(Final(Start, run)) && CountsRegistered(Final(Start, run), k)
  {
    RunConserves(Start, run);
    var s := Final(Start, run);
    assert Live(s.conns, k) == Registered(s.conns, k);
  }

  predicate CountsRegistered(s: State, k: Key)
    requires Entries(s)
  {
    && (k in s.stats ==> s.objs[s.stats[k]].active == |Registered(s.conns, k)|)
    && (k !in s.stats ==> Registered(s.conns, k) == {})
  }

  // ---- The failing family is reachable ---------------------------------------------

  /** What an unsafe prune costs, from every consistent state: the pending activation goes on to
      count in the dropped entry, and the connection ends up registered with no entry at all. A
      safe prune never leads there. */
  lemma UnsafePruneLosesTheConnection(s: State)
    requires Conserved(s)
    ensures !PruneIsSafe(s) <==> exists c :: LosesConnection(s, c)
  {
    if !PruneIsSafe(s) {
      var c :| c in s.conns && s.conns[c].pc.Counting? && !Retained(s.objs[s.conns[c].pc.obj], s.now);
      PendingActivationIsLost(s, c);
    }
    if PruneIsSafe(s) {
      forall c ensures !LosesConnection(s, c) { SafePruneLosesNone(s, c); }
    }
  }

  /** A prune now, and then the rest of the activation of `c`, leaves `c` without an entry. */
  ghost predicate LosesConnection(s: State, c: nat) {
    && Enabled(s, Prune)
    && (var t := Next(s, Prune);
        && Enabled(t, Count(c))
        && (var u := Next(t, Count(c));
            Enabled(u, Touch(c)) && Lost(Next(u, Touch(c)), c)))
  }

  lemma PendingActivationIsLost(s: State, c: nat)
    requires Conserved(s) && c in s.conns && s.conns[c].pc.Counting? && !Retained(s.objs[s.conns[c].pc.obj], s.now)
    ensures LosesConnection(s, c)
  {
    var t := Next(s, Prune);
    var u := Next(t, Count(c));
    assert s.conns[c].key !in t.stats && u.stats == t.stats;
  }

  lemma SafePruneLosesNone(s: State, c: nat)
    requires Conserved(s) && PruneIsSafe(s)
    ensures !LosesConnection(s, c)
  {
    PruneConservesIffSafe(s);
    var t := Next(s, Prune);
    if Enabled(t, Count(c)) {
      StepConserves(t, Count(c));
      var u := Next(t, Count(c));
      if Enabled(u, Touch(c)) {
        StepConserves(u, Touch(c));
        assert Placed(Next(u, Touch(c)), Next(u, Touch(c)).conns[c]);
      }
    }
  }

  /** The unsafe situation arises: a miner comes back to an entry idle for an hour while the prune
      is due. */
  lemma PruneCanLoseAConnection() returns (run: seq<Step>)
    ensures Runs(Start, run) && LosesConnection(Final(Start, run), 1)
  {
    var v := Conn("w", true, Counting(0));
    var s := State(map[1 := v], map["w" := 0], [Stats(0, 0)], 3600);
    run := EarlyLookup(v, s);
    PendingActivationIsLostHere(v, s);
  }

  lemma PendingActivationIsLostHere(v: Conn, s: State)
    requires v == Conn("w", true, Counting(0)) && s == State(map[1 := v], map["w" := 0], [Stats(0, 0)], 3600)
    ensures LosesConnection(s, 1)
  {
    assert Live(s.conns, "w") == {};
    PendingActivationIsLost(s, 1);
  }

  /** Registered and at rest, with no entry under its key. */
  predicate Lost(s: State, c: nat) {
    c in s.conns && s.conns[c].registered && s.conns[c].pc == Idle && s.conns[c].key !in s.stats
  }

  lemma EarlyLookup(v: Conn, s: State) returns (run: seq<Step>)
    requires v == Conn("w", true, Counting(0)) && s == State(map[1 := v], map["w" := 0], [Stats(0, 0)], 3600)
    ensures Runs(Start, run) && Final(Start, run) == s
  {
    var s0 := State(map[], map["w" := 0], [Stats(0, 0)], 0);
    var s3 := State(map[1 := Conn("", false, Idle)], map["w" := 0], [Stats(0, 0)], 3600);
    AnHourLater(s0, s3);
    ComesBack(s3, s);
    var later := [Tick(3600), Connect(1)] + [Identify(1, "w"), BeginActivate(1)];
    Concat(s0, [Tick(3600), Connect(1)], [Identify(1, "w"), BeginActivate(1)]);
    Prepend(Start, Ensure("w"), later, s0);
    run := [Ensure("w")] + later;
  }

  lemma AnHourLater(s: State, t: State)
    requires s.now == 0 && s.conns == map[] && t == s.(now := 3600, conns := map[1 := Conn("", false, Idle)])
    ensures Runs(s, [Tick(3600), Connect(1)]) && Final(s, [Tick(3600), Connect(1)]) == t
  {
  }

  lemma ComesBack(s: State, t: State)
    requires s.conns == map[1 := Conn("", false, Idle)] && s.stats == map["w" := 0]
    requires t == s.(conns := map[1 := Conn("w", true, Counting(0))])
    ensures Runs(s, [Identify(1, "w"), BeginActivate(1)]) && Final(s, [Identify(1, "w"), BeginActivate(1)]) == t
  {
  }

  lemma {:induction false} Concat(s: State, a: seq<Step>, b: seq<Step>)
    requires Runs(s, a) && Runs(Final(s, a), b)
    ensures Runs(s, a + b) && Final(s, a + b) == Final(Final(s, a), b)
    decreases |a|
  {
    if a == [] {
      assert a + b == b;
    } else {
      Concat(Next(s, a[0]), a[1..], b);
      Prepend(s, a[0], a[1..] + b, Next(s, a[0]));
      assert [a[0]] + (a[1..] + b) == a + b;
    }
  }

  lemma Prepend(s: State, x: Step, rest: seq<Step>, t: State)
    requires Enabled(s, x) && t == Next(s, x) && Runs(t, rest)
    ensures Runs(s, [x] + rest) && Final(s, [x] + rest) == Final(t, rest)
  {
    assert ([x] + rest)[1..] == rest;
  }
}
