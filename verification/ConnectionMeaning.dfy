/** What becomes of one connection, in plain arithmetic and connection by connection. */
module ConnectionMeaning {
  import opened BusTypes
  import opened ConnectionLists

  /** How many connections of s belong to u. */
  function NumberOf(s: seq<Entry>, u: Uid): nat { |PlacesOf(s, u)| }

  function PlacesOf(s: seq<Entry>, u: Uid): set<int> { set i | 0 <= i < |s| && s[i].user == Some(u) }

  lemma {:induction false} NumberIs(s: seq<Entry>, u: Uid)
    ensures Of(s, u) == NumberOf(s, u)
  {
    if s == [] {
      assert PlacesOf(s, u) == {};
    } else {
      var n := |s| - 1;
      NumberIs(s[..n], u);
      assert PlacesOf(s, u) == PlacesOf(s[..n], u) + if s[n].user == Some(u) then {n} else {};
    }
  }

  /** The charge of u. */
  function ChargeOf(s: State, u: Uid): nat { if u in s.byUser then s.byUser[u] else 0 }

  // ---- Closing ----

  /** A scan closes exactly those whose time for authentication is up. */
  lemma ScanClosesIff(s: State, e: Entry)
    requires Inv(s) && e in s.incomplete
    ensures e.conn in Apply(s, Scan).closed <==> e.conn in s.closed || s.clock >= e.stamp + 1000 * s.limits.authTimeout
    ensures Apply(s, Scan).incomplete == s.incomplete && Apply(s, Scan).completed == s.completed && Apply(s, Scan).byUser == s.byUser
  {
    hide LeastRemaining;
    if e.conn in AllOverdue(s.incomplete, s.limits.authTimeout, s.clock) {
      var x :| x in s.incomplete && Overdue(x, s.limits.authTimeout, s.clock) && x.conn == e.conn;
      SameEntry(s.incomplete, x, e);
    }
  }

  lemma SameEntry(s: seq<Entry>, x: Entry, y: Entry)
    requires DistinctConns(s) && x in s && y in s && x.conn == y.conn
    ensures x == y
  {
    var i :| 0 <= i < |s| && s[i] == x;
    var j :| 0 <= j < |s| && s[j] == y;
  }

  /** It sets the timer within a millisecond before the next of them, or switches it off if there is none. */
  lemma ScanTimer(s: State)
    requires Inv(s)
    ensures var s' := Apply(s, Scan);
            if forall e | e in s.incomplete :: s.clock >= e.stamp + 1000 * s.limits.authTimeout then s'.timer == Off
            else
              && s'.timer.At? && s'.timer.when >= s.clock
              && (forall e | e in s.incomplete && s.clock < e.stamp + 1000 * s.limits.authTimeout :: s'.timer.when <= e.stamp + 1000 * s.limits.authTimeout)
              && exists e :: e in s.incomplete && e.stamp + 1000 * s.limits.authTimeout - 1000 < s'.timer.when <= e.stamp + 1000 * s.limits.authTimeout
  {
    var t := s.limits.authTimeout;
    var r := LeastRemaining(s.incomplete, t, s.clock);
    hide LeastRemaining;
    if r.Some? {
      var e :| e in s.incomplete && !Overdue(e, t, s.clock) && r.value == Remaining(e, t, s.clock);
      assert e.stamp + 1000 * t - 1000 < s.clock + 1000 * r.value <= e.stamp + 1000 * t;
    }
  }

  /** c, if it is still incomplete, came at the time when, and if it is closed, its time was up. */
  ghost predicate Patient(s: State, c: Conn, when: nat) {
    && (forall e | e in s.incomplete && e.conn == c :: e.stamp == when)
    && (c in s.closed ==> s.clock >= when + 1000 * s.limits.authTimeout)
  }

  lemma ScannedPatient(s: State, c: Conn, when: nat)
    requires Patient(s, c, when)
    ensures Patient(Scanned(s), c, when) && Patient(Gated(s), c, when)
  {
    hide LeastRemaining;
  }

  lemma StruckPatient(s: State, c: Conn, when: nat, d: Conn)
    requires Patient(s, c, when) && Where(s.incomplete, d) < |s.incomplete|
    ensures Patient(s.(incomplete := Strike(s.incomplete, d), closed := s.closed - {d}), c, when)
    ensures forall e | e in Strike(s.incomplete, d) :: e in s.incomplete
  {
    hide Where;
  }

  ghost predicate Waits(s: State, c: Conn, when: nat) { Patient(s, c, when) && c in Members(s.incomplete) + Members(s.completed) }

  lemma AcceptPatient(s: State, d: Conn, user: Option<Uid>, contained: bool, c: Conn, when: nat)
    requires Enabled(s, Accept(d, user, contained)) && Waits(s, c, when)
    ensures Waits(Apply(s, Accept(d, user, contained)), c, when)
  {
    hide LeastRemaining, AllOverdue;
    var s1 := s.(incomplete := s.incomplete + [Entry(d, user, s.clock)]);
    assert Members(s1.incomplete) == Members(s.incomplete) + {d};
    ScannedPatient(s1, c, when);
    ScannedPatient(Scanned(s1), c, when);
  }

  lemma HelloPatient(s: State, d: Conn, outcome: Hello, c: Conn, when: nat)
    requires Enabled(s, SayHello(d, outcome)) && DistinctConns(s.incomplete) && Waits(s, c, when)
    ensures Waits(Apply(s, SayHello(d, outcome)), c, when)
  {
    hide LeastRemaining, AllOverdue, Where, Strike;
    if outcome.Completes? {
      var e := s.incomplete[Where(s.incomplete, d)];
      var s1 := s.(incomplete := Strike(s.incomplete, d), completed := s.completed + [e], byUser := Charge(s.byUser, e.user));
      StruckPatient(s, c, when, d);
      StruckMembers(s.incomplete, d);
      assert Members(s1.completed) == Members(s.completed) + {d};
      ScannedPatient(s1, c, when);
      ScannedPatient(Gated(s1), c, when);
    }
  }

  lemma GonePatient(s: State, d: Conn, c: Conn, when: nat)
    requires Enabled(s, Gone(d)) && DistinctConns(s.incomplete) && DistinctConns(s.completed) && c != d && Waits(s, c, when)
    ensures Waits(Apply(s, Gone(d)), c, when)
  {
    hide Where, Strike;
    if Where(s.completed, d) < |s.completed| {
      StruckMembers(s.completed, d);
    } else {
      StruckMembers(s.incomplete, d);
      StruckPatient(s, c, when, d);
      ScannedPatient(s.(incomplete := Strike(s.incomplete, d), closed := s.closed - {d}), c, when);
    }
  }

  lemma StepPatient(s: State, ev: Event, c: Conn, when: nat)
    requires Inv(s) && Enabled(s, ev) && ev != Gone(c) && Waits(s, c, when)
    ensures Waits(Apply(s, ev), c, when)
  {
    match ev {
      case Accept(d, user, contained) => AcceptPatient(s, d, user, contained, c, when);
      case SayHello(d, outcome) => HelloPatient(s, d, outcome, c, when);
      case Gone(d) => GonePatient(s, d, c, when);
      case Scan =>
        hide LeastRemaining, AllOverdue;
        ScannedPatient(s, c, when);
      case Tick(us) =>
    }
  }

  lemma StruckMembers(s: seq<Entry>, d: Conn)
    requires DistinctConns(s) && Where(s, d) < |s|
    ensures Members(Strike(s, d)) == Members(s) - {d}
  {
    hide Where, Strike;
    StrikeMembers(s, d);
    var r := Strike(s, d);
    forall c | c in Members(s) && c != d ensures c in Members(r) {
      var e :| e in s && e.conn == c;
      assert e in r;
    }
  }

  lemma {:induction false} RunPatient(s: State, es: seq<Event>, c: Conn, when: nat)
    requires Inv(s) && Runnable(s, es) && Patient(s, c, when) && c in Members(s.incomplete) + Members(s.completed)
    requires forall i | 0 <= i < |es| :: es[i] != Gone(c)
    ensures Patient(Run(s, es), c, when)
    decreases |es|
  {
    if es != [] {
      hide Inv, Apply, Enabled, Patient, Members;
      StepKeepsInv(s, es[0]);
      StepPatient(s, es[0], c, when);
      RunPatient(Apply(s, es[0]), es[1..], c, when);
    }
  }

  lemma {:induction false} ClockAndLimits(s: State, es: seq<Event>)
    requires Runnable(s, es)
    ensures Run(s, es).limits == s.limits && Run(s, es).clock >= s.clock
    decreases |es|
  {
    if es != [] {
      hide LeastRemaining, AllOverdue, Where;
      ClockAndLimits(Apply(s, es[0]), es[1..]);
    }
  }

  /** From the moment it is accepted, in every run, a connection is closed only when its whole time for authentication has passed. */
  lemma NeverClosedTooSoon(s: State, c: Conn, user: Option<Uid>, contained: bool, es: seq<Event>)
    requires Inv(s) && Enabled(s, Accept(c, user, contained)) && Runnable(Apply(s, Accept(c, user, contained)), es)
    requires forall i | 0 <= i < |es| :: es[i] != Gone(c)
    ensures var u := Run(Apply(s, Accept(c, user, contained)), es); c in u.closed ==> u.clock >= s.clock + 1000 * s.limits.authTimeout
  {
    var s0 := s.(incomplete := s.incomplete + [Entry(c, user, s.clock)]);
    var s1 := Apply(s, Accept(c, user, contained));
    assert Patient(s0, c, s.clock) by {
      assert forall e | e in s.incomplete :: e.conn in Members(s.incomplete) && e.conn != c;
    }
    ScannedPatient(s0, c, s.clock);
    ScannedPatient(Scanned(s0), c, s.clock);
    assert Entry(c, user, s.clock) in s1.incomplete;
    StepKeepsInv(s, Accept(c, user, contained));
    RunPatient(s1, es, c, s.clock);
    ClockAndLimits(s1, es);
  }

  // ---- Coming, completing and going ----

  /** An accepted connection is the last of the incomplete ones. */
  lemma AcceptIs(s: State, c: Conn, user: Option<Uid>, contained: bool)
    requires Enabled(s, Accept(c, user, contained))
    ensures var s' := Apply(s, Accept(c, user, contained));
            && s'.incomplete == s.incomplete + [Entry(c, user, s.clock)] && s'.completed == s.completed && s'.byUser == s.byUser
            && (s'.watches <==> |s.incomplete| + 1 < s.limits.incomplete)
            && Apply(s', Scan) == s'   // the scan has been made
  {
    hide LeastRemaining;
  }

  /** A connection may complete exactly if there are fewer completed ones than allowed, and its user, if known, is charged for fewer than allowed. */
  lemma HelloAllowedIff(s: State, e: Entry, outcome: Hello)
    requires Inv(s) && e in s.incomplete
    ensures Enabled(s, SayHello(e.conn, outcome)) <==>
            |s.completed| < s.limits.completed && (e.user.Some? ==> ChargeOf(s, e.user.value) < s.limits.perUser)
  {
    hide Where;
    var i := Where(s.incomplete, e.conn);
    var j :| 0 <= j < |s.incomplete| && s.incomplete[j] == e;
    assert i <= j;
    SameEntry(s.incomplete, s.incomplete[i], e);
  }

  /**
   When it does, it is no longer incomplete, is the last of the completed ones, and its user is
   charged for one more.  When memory runs out it stays incomplete; only in one case is its user
   charged all the same.
   */
  lemma HelloIs(s: State, e: Entry, outcome: Hello, x: Entry, u: Uid)
    requires Inv(s) && e in s.incomplete && Enabled(s, SayHello(e.conn, outcome))
    ensures var s' := Apply(s, SayHello(e.conn, outcome));
            && (x in s'.incomplete <==> x in s.incomplete && !(outcome == Completes && x == e))
            && s'.completed == (if outcome == Completes then s.completed + [e] else s.completed)
            && ChargeOf(s', u) == ChargeOf(s, u) + (if e.user == Some(u) && (outcome == Completes || outcome == NoLogInfo) then 1 else 0)
            && (outcome == Completes ==> (s'.watches <==> |s.incomplete| - 1 < s.limits.incomplete) && Apply(s', Scan) == s')
  {
    GoneFrom(s.incomplete, e, x);
    hide Inv, Enabled, Where, Strike, LeastRemaining, AllOverdue;
    if outcome == Completes {
      ScanAgain(Gated(s.(incomplete := Strike(s.incomplete, e.conn), completed := s.completed + [e], byUser := Charge(s.byUser, e.user))));
    }
  }

  lemma ScanAgain(s: State)
    ensures Scanned(Scanned(s)) == Scanned(s)
  {
    hide LeastRemaining, AllOverdue;
  }

  /** A connection that goes leaves its list, and its user is charged for one less if it was completed. */
  lemma GoneIs(s: State, e: Entry, x: Entry, u: Uid)
    requires Inv(s) && (e in s.incomplete || e in s.completed)
    ensures Enabled(s, Gone(e.conn))
    ensures var s' := Apply(s, Gone(e.conn));
            && (x in s'.incomplete <==> x in s.incomplete && x != e) && (x in s'.completed <==> x in s.completed && x != e)
            && ChargeOf(s', u) == ChargeOf(s, u) - (if e.user == Some(u) && e in s.completed then 1 else 0)
            && e.conn !in s'.closed && (e in s.incomplete ==> (s'.watches <==> |s.incomplete| - 1 < s.limits.incomplete))
  {
    hide Where, LeastRemaining, Strike, Counted;
    assert e.conn in Members(s.incomplete) || e.conn in Members(s.completed);
    GoneIsEnabled(s, e.conn);
    if e in s.completed {
      GoneFrom(s.completed, e, x);
      assert e.conn in Members(s.completed);
      assert e !in s.incomplete;
    } else {
      GoneFrom(s.incomplete, e, x);
      assert forall y | y in s.completed :: y.conn in Members(s.completed);
      assert Where(s.completed, e.conn) == |s.completed|;
    }
    if x == e { assert x.conn in Members(s.incomplete) ==> x.conn !in Members(s.completed); }
  }

  lemma GoneFrom(s: seq<Entry>, e: Entry, x: Entry)
    requires DistinctConns(s) && e in s
    ensures var i := Where(s, e.conn); i < |s| && s[i] == e
    ensures Where(s, e.conn) < |s| && (x in Strike(s, e.conn) <==> x in s && x != e) && |Strike(s, e.conn)| == |s| - 1
  {
    hide Where, Strike;
    var i := Where(s, e.conn);
    var j :| 0 <= j < |s| && s[j] == e;
    assert i <= j;
    SameEntry(s, s[i], e);
    StrikeMembers(s, e.conn);
    StrikeAt(s, e.conn, 0);
    if x in s && x.conn == e.conn { SameEntry(s, x, e); }
  }

  /** The limits hold in every run, counted connection by connection. */
  lemma LimitsHold(limits: Limits, now: nat, es: seq<Event>, u: Uid)
    requires Runnable(Initial(limits, now), es)
    ensures var s := Run(Initial(limits, now), es);
            && |s.completed| <= limits.completed && NumberOf(s.completed, u) <= limits.perUser
            && ChargeOf(s, u) == NumberOf(s.completed, u) + LogInfoFailures(Initial(limits, now), es, u)
  {
    var s := Run(Initial(limits, now), es);
    NumberIs(s.completed, u);
    AuthenticationTimesOut(limits, now, es, Entry(0, None, 0));
    ChargeExactIff(limits, now, es, u);
  }
}
