/**
 Connections before and after authentication (bus/connection.c, and the accept gating of
 bus/bus.c): the oldest-first list of incomplete connections with its expiry scan, the list
 of completed ones, and the number of connections charged to each user.
*/
module ConnectionLists {
  import opened BusTypes

  type Uid = nat

  /** user is None where the credentials of the peer are not known. */
  datatype Entry = Entry(conn: Conn, user: Option<Uid>, stamp: nat)

  datatype Timer = Off | At(when: int)

  datatype Limits = Limits(incomplete: nat, completed: nat, perUser: nat, authTimeout: int)

  datatype State = State(
    limits: Limits,
    clock: nat,                // microseconds
    incomplete: seq<Entry>,
    completed: seq<Entry>,
    byUser: map<Uid, nat>,     // completed_by_user; no entry means 0
    closed: set<Conn>,         // closed here, disconnection not yet dispatched
    timer: Timer,
    watches: bool,             // whether the configured servers accept
    leaked: multiset<Uid>)     // charges that no connection accounts for

  function Charged(byUser: map<Uid, nat>, u: Uid): nat { if u in byUser then byUser[u] else 0 }

  function Charge(byUser: map<Uid, nat>, u: Option<Uid>): map<Uid, nat> {
    if u.None? then byUser else byUser[u.value := Charged(byUser, u.value) + 1]
  }

  function Discharge(byUser: map<Uid, nat>, u: Option<Uid>): map<Uid, nat>
    requires u.Some? ==> Charged(byUser, u.value) > 0
  {
    if u.None? then byUser
    else if byUser[u.value] == 1 then byUser - {u.value}
    else byUser[u.value := byUser[u.value] - 1]
  }

  function Members(s: seq<Entry>): set<Conn> { set e | e in s :: e.conn }

  function Of(s: seq<Entry>, u: Uid): nat {
    if s == [] then 0 else Of(s[..|s| - 1], u) + if s[|s| - 1].user == Some(u) then 1 else 0
  }

  /** Position of c in s, or |s|. */
  function Where(s: seq<Entry>, c: Conn): (i: nat)
    ensures i <= |s|
    ensures i < |s| ==> s[i].conn == c
    ensures forall j :: 0 <= j < i ==> s[j].conn != c
  {
    if s == [] || s[0].conn == c then 0
    else
      assert forall j :: 1 <= j < |s| ==> s[j] == s[1..][j - 1];
      1 + Where(s[1..], c)
  }

  function Strike(s: seq<Entry>, c: Conn): seq<Entry>
    requires Where(s, c) < |s|
  {
    s[..Where(s, c)] + s[Where(s, c) + 1..]
  }

  // ---- The expiry scan, as a full scan ----

  predicate Overdue(e: Entry, timeout: int, now: nat) { now - e.stamp >= 1000 * timeout }

  /** Milliseconds until e is overdue, rounded down. */
  function Remaining(e: Entry, timeout: int, now: nat): int { (1000 * timeout - (now - e.stamp)) / 1000 }

  function AllOverdue(s: seq<Entry>, timeout: int, now: nat): set<Conn> {
    set e | e in s && Overdue(e, timeout, now) :: e.conn
  }

  /** The least remaining time of those that are not overdue. */
  function LeastRemaining(s: seq<Entry>, timeout: int, now: nat): (r: Option<int>)
    ensures r.None? <==> forall e | e in s :: Overdue(e, timeout, now)
    ensures r.Some? ==> exists e :: e in s && !Overdue(e, timeout, now) && r.value == Remaining(e, timeout, now)
    ensures r.Some? ==> forall e | e in s && !Overdue(e, timeout, now) :: r.value <= Remaining(e, timeout, now)
  {
    if s == [] then None
    else
      assert forall e :: e in s <==> e == s[0] || e in s[1..];
      var r := LeastRemaining(s[1..], timeout, now);
      if Overdue(s[0], timeout, now) then r
      else if r.None? || Remaining(s[0], timeout, now) < r.value then Some(Remaining(s[0], timeout, now))
      else r
  }

  function Scanned(s: State): State {
    var t := s.limits.authTimeout;
    var r := LeastRemaining(s.incomplete, t, s.clock);
    s.(closed := s.closed + AllOverdue(s.incomplete, t, s.clock),
    timer := if r.Some? then At(s.clock + 1000 * r.value) else Off)
  }

  function Gated(s: State): State { s.(watches := |s.incomplete| < s.limits.incomplete) }

  // ---- Events ----

  /** How far bus_connection_complete gets. */
  datatype Hello = NoPolicy | NoCount | NoLogInfo | Completes

  datatype Event =
    | Accept(c: Conn, user: Option<Uid>, contained: bool)   // contained: through the server of a container instance
    | SayHello(c: Conn, outcome: Hello)
    | Gone(c: Conn)                                         // bus_connection_disconnected
    | Scan                                                  // the timer fires
    | Tick(us: nat)

  /** bus_connections_check_limits */
  predicate Admits(s: State, e: Entry) {
    |s.completed| < s.limits.completed && (e.user.Some? ==> Charged(s.byUser, e.user.value) < s.limits.perUser)
  }

  predicate Enabled(s: State, ev: Event) {
    match ev
    case Accept(c, _, contained) => c !in Members(s.incomplete) + Members(s.completed) && c !in s.closed && (contained || s.watches)
    case SayHello(c, _) => Where(s.incomplete, c) < |s.incomplete| && Admits(s, s.incomplete[Where(s.incomplete, c)])
    case Gone(c) =>
      var i := Where(s.completed, c);
      if i < |s.completed| then s.completed[i].user.Some? ==> Charged(s.byUser, s.completed[i].user.value) > 0
      else Where(s.incomplete, c) < |s.incomplete|
    case Scan => true
    case Tick(_) => true
  }

  function Apply(s: State, ev: Event): State
    requires Enabled(s, ev)
  {
    match ev
    case Accept(c, user, _) => Gated(Scanned(s.(incomplete := s.incomplete + [Entry(c, user, s.clock)])))
    case SayHello(c, outcome) => ApplyHello(s, c, outcome)
    case Gone(c) =>
      if Where(s.completed, c) < |s.completed| then
        s.(completed := Strike(s.completed, c), closed := s.closed - {c},
        byUser := Discharge(s.byUser, s.completed[Where(s.completed, c)].user))
      else Gated(s.(incomplete := Strike(s.incomplete, c), closed := s.closed - {c}))
    case Scan => Scanned(s)
    case Tick(us) => s.(clock := s.clock + us)
  }

  function ApplyHello(s: State, c: Conn, outcome: Hello): State
    requires Where(s.incomplete, c) < |s.incomplete|
  {
    var e := s.incomplete[Where(s.incomplete, c)];
    match outcome
    case NoPolicy => s
    case NoCount => s
    case NoLogInfo =>
      s.(byUser := Charge(s.byUser, e.user), leaked := s.leaked + if e.user.Some? then multiset{e.user.value} else multiset{})
    case Completes =>
      Scanned(Gated(s.(incomplete := Strike(s.incomplete, c), completed := s.completed + [e], byUser := Charge(s.byUser, e.user))))
  }

  predicate Runnable(s: State, es: seq<Event>)
    decreases |es|
  {
    es == [] || (Enabled(s, es[0]) && Runnable(Apply(s, es[0]), es[1..]))
  }

  function Run(s: State, es: seq<Event>): State
    requires Runnable(s, es)
    decreases |es|
  {
    if es == [] then s else Run(Apply(s, es[0]), es[1..])
  }

  function Initial(limits: Limits, now: nat): State {
    State(limits, now, [], [], map[], {}, Off, true, multiset{})
  }

  // ---- Invariants ----

  predicate OldestFirst(s: seq<Entry>) { forall i, j :: 0 <= i < j < |s| ==> s[i].stamp <= s[j].stamp }

  predicate DistinctConns(s: seq<Entry>) { forall i, j :: 0 <= i < j < |s| ==> s[i].conn != s[j].conn }

  ghost predicate Counted(s: State) {
    && (forall u :: Charged(s.byUser, u) == Of(s.completed, u) + s.leaked[u])
    && (forall u :: u in s.byUser ==> s.byUser[u] > 0)
  }

  /** Whoever is not closed yet will be, by the time its authentication is overdue. */
  ghost predicate Watched(s: State, e: Entry) {
    || e.conn in s.closed
    || (s.timer.At? && (s.timer.when <= s.clock || s.timer.when <= e.stamp + 1000 * s.limits.authTimeout))
  }

  ghost predicate Inv(s: State) {
    && OldestFirst(s.incomplete) && DistinctConns(s.incomplete) && DistinctConns(s.completed)
    && Members(s.incomplete) !! Members(s.completed)
    && (forall e | e in s.incomplete :: e.stamp <= s.clock && Watched(s, e))
    && Counted(s)
    && |s.completed| <= s.limits.completed && (forall u :: Of(s.completed, u) <= s.limits.perUser)
  }

  lemma {:induction false} OfSplit(s: seq<Entry>, i: nat, u: Uid)
    requires i < |s|
    ensures Of(s, u) == Of(s[..i] + s[i + 1..], u) + if s[i].user == Some(u) then 1 else 0
  {
    var n := |s| - 1;
    if i == n {
      assert s[..i] + s[i + 1..] == s[..n];
    } else {
      OfSplit(s[..n], i, u);
      assert (s[..i] + s[i + 1..])[..n - 1] == s[..n][..i] + s[..n][i + 1..];
    }
  }

  lemma StrikeKeepsOrder(s: seq<Entry>, c: Conn)
    requires Where(s, c) < |s|
    ensures OldestFirst(s) ==> OldestFirst(Strike(s, c))
    ensures DistinctConns(s) ==> DistinctConns(Strike(s, c))
  {
    var i := Where(s, c);
    assert forall j :: 0 <= j < |s| - 1 ==> Strike(s, c)[j] == if j < i then s[j] else s[j + 1];
  }

  lemma StrikeMembers(s: seq<Entry>, c: Conn)
    requires DistinctConns(s) && Where(s, c) < |s|
    ensures forall e :: e in Strike(s, c) <==> e in s && e.conn != c
  {
    hide Where, Strike;
    var i, r := Where(s, c), Strike(s, c);
    StrikeAt(s, c, 0);
    forall e | e in r ensures e in s && e.conn != c {
      var k :| 0 <= k < |r| && r[k] == e;
      StrikeAt(s, c, k);
      assert s[if k < i then k else k + 1] in s;
    }
    forall e | e in s && e.conn != c ensures e in r {
      var j :| 0 <= j < |s| && s[j] == e;
      StrikeAt(s, c, if j < i then j else j - 1);
      assert r[if j < i then j else j - 1] in r;
    }
  }

  lemma StrikeAt(s: seq<Entry>, c: Conn, k: int)
    requires Where(s, c) < |s|
    ensures |Strike(s, c)| == |s| - 1
    ensures 0 <= k < |s| - 1 ==> Strike(s, c)[k] == s[if k < Where(s, c) then k else k + 1]
  {
    hide Where;
  }

  /** Everything but the state of the timer. */
  ghost predicate Sound(s: State) {
    && OldestFirst(s.incomplete) && DistinctConns(s.incomplete) && DistinctConns(s.completed)
    && Members(s.incomplete) !! Members(s.completed)
    && (forall e | e in s.incomplete :: e.stamp <= s.clock)
    && Counted(s)
    && |s.completed| <= s.limits.completed && (forall u :: Of(s.completed, u) <= s.limits.perUser)
  }

  lemma ScanWatchesAll(s: State)
    requires Sound(s)
    ensures Inv(Scanned(s))
  {
    var t := s.limits.authTimeout;
    forall e | e in s.incomplete ensures Watched(Scanned(s), e) {
      if !Overdue(e, t, s.clock) {
        var r := LeastRemaining(s.incomplete, t, s.clock);
        assert r.value <= Remaining(e, t, s.clock);
      } else {
        assert e.conn in AllOverdue(s.incomplete, t, s.clock);
      }
    }
  }

  lemma AcceptKeepsInv(s: State, c: Conn, user: Option<Uid>)
    requires Inv(s) && c !in Members(s.incomplete) + Members(s.completed)
    ensures Inv(Gated(Scanned(s.(incomplete := s.incomplete + [Entry(c, user, s.clock)]))))
  {
    var s' := s.(incomplete := s.incomplete + [Entry(c, user, s.clock)]);
    AcceptSound(s, c, user);
    ScanWatchesAll(s');
    GateKeepsInv(Scanned(s'));
  }

  lemma AcceptSound(s: State, c: Conn, user: Option<Uid>)
    requires Inv(s) && c !in Members(s.incomplete) + Members(s.completed)
    ensures Sound(s.(incomplete := s.incomplete + [Entry(c, user, s.clock)]))
  {
    hide Of, Watched;
    var s' := s.(incomplete := s.incomplete + [Entry(c, user, s.clock)]);
    forall i | 0 <= i < |s.incomplete| ensures s.incomplete[i].conn != c && s.incomplete[i].stamp <= s.clock {
      assert s.incomplete[i] in s.incomplete;
    }
    assert Members(s'.incomplete) == Members(s.incomplete) + {c};
  }

  lemma GateKeepsInv(s: State)
    requires Inv(s)
    ensures Inv(Gated(s))
  {
    hide Of;
  }

  lemma ChargeCounted(s: State, e: Entry)
    requires Counted(s) && Admits(s, e) && forall u :: Of(s.completed, u) <= s.limits.perUser
    ensures var s' := s.(completed := s.completed + [e], byUser := Charge(s.byUser, e.user));
            Counted(s') && |s'.completed| <= s.limits.completed && forall u :: Of(s'.completed, u) <= s.limits.perUser
  {
    var s' := s.(completed := s.completed + [e], byUser := Charge(s.byUser, e.user));
    assert s'.completed[..|s.completed|] == s.completed;
  }

  lemma DischargeCounted(s: State, i: nat)
    requires Counted(s) && i < |s.completed| && forall u :: Of(s.completed, u) <= s.limits.perUser
    ensures s.completed[i].user.Some? ==> Charged(s.byUser, s.completed[i].user.value) > 0
    ensures var s' := s.(completed := s.completed[..i] + s.completed[i + 1..], byUser := Discharge(s.byUser, s.completed[i].user));
            Counted(s') && forall u :: Of(s'.completed, u) <= s.limits.perUser
  {
    var rest := s.completed[..i] + s.completed[i + 1..];
    forall u: Uid ensures Of(rest, u) == Of(s.completed, u) - if s.completed[i].user == Some(u) then 1 else 0 {
      OfSplit(s.completed, i, u);
    }
    if s.completed[i].user.Some? {
      assert Of(rest, s.completed[i].user.value) >= 0;
    }
  }

  lemma CompleteKeepsInv(s: State, c: Conn)
    requires Inv(s) && Enabled(s, SayHello(c, Completes))
    ensures Inv(ApplyHello(s, c, Completes))
  {
    hide Of, Charge, LeastRemaining, Scanned;
    var e := s.incomplete[Where(s.incomplete, c)];
    var s' := s.(incomplete := Strike(s.incomplete, c), completed := s.completed + [e], byUser := Charge(s.byUser, e.user));
    StrikeKeepsOrder(s.incomplete, c);
    StrikeMembers(s.incomplete, c);
    ChargeCounted(s, e);
    assert c in Members(s.incomplete);
    assert forall i :: 0 <= i < |s.completed| ==> s.completed[i].conn in Members(s.completed);
    assert Members(s'.completed) == Members(s.completed) + {c};
    ScanWatchesAll(Gated(s'));
  }

  lemma LeaveKeepsInv(s: State, c: Conn)
    requires Inv(s) && Enabled(s, Gone(c)) && Where(s.completed, c) < |s.completed|
    ensures Inv(Apply(s, Gone(c)))
  {
    hide Of, Discharge;
    var s' := Apply(s, Gone(c));
    var i := Where(s.completed, c);
    StrikeKeepsOrder(s.completed, c);
    DischargeCounted(s, i);
    assert s.completed[i].conn in Members(s.completed);
    assert Members(s'.completed) <= Members(s.completed);
    forall e | e in s'.incomplete ensures Watched(s', e) { assert Watched(s, e) && e.conn in Members(s.incomplete); }
  }

  lemma GoneKeepsInv(s: State, c: Conn)
    requires Inv(s) && Enabled(s, Gone(c))
    ensures Inv(Apply(s, Gone(c)))
  {
    if Where(s.completed, c) < |s.completed| {
      LeaveKeepsInv(s, c);
    } else {
      StrikeKeepsOrder(s.incomplete, c);
      StrikeMembers(s.incomplete, c);
      var s' := Apply(s, Gone(c));
      forall e | e in s'.incomplete ensures Watched(s', e) { assert Watched(s, e); }
    }
  }

  lemma StepKeepsInv(s: State, ev: Event)
    requires Inv(s) && Enabled(s, ev)
    ensures Inv(Apply(s, ev)) && Apply(s, ev).limits == s.limits
  {
    match ev {
      case Accept(c, user, _) => AcceptKeepsInv(s, c, user);
      case SayHello(c, outcome) => if outcome.Completes? { CompleteKeepsInv(s, c); } else { FailedHelloKeepsInv(s, c, outcome); }
      case Gone(c) => GoneKeepsInv(s, c);
      case Scan => ScanWatchesAll(s);
      case Tick(us) =>
        forall e | e in s.incomplete ensures Watched(Apply(s, ev), e) { assert Watched(s, e); }
    }
  }

  lemma FailedHelloKeepsInv(s: State, c: Conn, outcome: Hello)
    requires Inv(s) && Enabled(s, SayHello(c, outcome)) && !outcome.Completes?
    ensures Inv(ApplyHello(s, c, outcome))
  {
    forall e | e in s.incomplete ensures Watched(ApplyHello(s, c, outcome), e) { assert Watched(s, e); }
  }

  lemma {:induction false} EveryRunKeepsInv(s: State, es: seq<Event>)
    requires Inv(s) && Runnable(s, es)
    ensures Inv(Run(s, es)) && Run(s, es).limits == s.limits
    decreases |es|
  {
    if es != [] {
      StepKeepsInv(s, es[0]);
      EveryRunKeepsInv(Apply(s, es[0]), es[1..]);
    }
  }

  // ---- Promises over every run ----

  /** Whoever has not authenticated and is not closed will be scanned by its deadline; the limits on completed connections hold. */
  lemma AuthenticationTimesOut(limits: Limits, now: nat, es: seq<Event>, e: Entry)
    requires Runnable(Initial(limits, now), es)
    ensures var s := Run(Initial(limits, now), es);
            && OldestFirst(s.incomplete)
            && |s.completed| <= limits.completed && (forall u :: Of(s.completed, u) <= limits.perUser)
            && (e in s.incomplete && e.conn !in s.closed ==>
                  s.timer.At? && (s.timer.when <= s.clock || s.timer.when <= e.stamp + 1000 * limits.authTimeout))
  {
    EveryRunKeepsInv(Initial(limits, now), es);
    var s := Run(Initial(limits, now), es);
    if e in s.incomplete { assert Watched(s, e); }
  }

  /** How often the log information of a connection of u could not be allocated. */
  function LogInfoFailures(s: State, es: seq<Event>, u: Uid): nat
    requires Runnable(s, es)
    decreases |es|
  {
    if es == [] then 0
    else
      (if es[0].SayHello? && es[0].outcome.NoLogInfo? && s.incomplete[Where(s.incomplete, es[0].c)].user == Some(u) then 1 else 0) +
      LogInfoFailures(Apply(s, es[0]), es[1..], u)
  }

  lemma {:induction false} LeaksAreFailures(s: State, es: seq<Event>, u: Uid)
    requires Runnable(s, es)
    ensures Run(s, es).leaked[u] == s.leaked[u] + LogInfoFailures(s, es, u)
    decreases |es|
  {
    if es != [] { LeaksAreFailures(Apply(s, es[0]), es[1..], u); }
  }

  /**
   A user is charged for its completed connections, and once more for every time the log
   information of one of its connections could not be allocated; so the charge is the number
   of its connections exactly if that has never happened.
   */
  lemma ChargeExactIff(limits: Limits, now: nat, es: seq<Event>, u: Uid)
    requires Runnable(Initial(limits, now), es)
    ensures var s, n := Run(Initial(limits, now), es), LogInfoFailures(Initial(limits, now), es, u);
            && Charged(s.byUser, u) == Of(s.completed, u) + n
            && (Charged(s.byUser, u) == Of(s.completed, u) <==> n == 0)
  {
    EveryRunKeepsInv(Initial(limits, now), es);
    LeaksAreFailures(Initial(limits, now), es, u);
  }

  /** One failure, and the only connection of user 7 cannot complete although no connection of its has completed. */
  lemma LockedOut()
    ensures var es := [Accept(1, Some(7), false), SayHello(1, NoLogInfo)];
            var s0 := Initial(Limits(1, 1, 1, 30), 1);
            && Runnable(s0, es) && Run(s0, es).completed == []
            && Run(s0, es).incomplete == [Entry(1, Some(7), 1)] && !Admits(Run(s0, es), Entry(1, Some(7), 1))
  {
    var s0 := Initial(Limits(1, 1, 1, 30), 1);
    var es := [Accept(1, Some(7), false), SayHello(1, NoLogInfo)];
    assert Enabled(s0, es[0]);
    var s1 := Apply(s0, es[0]);
    assert s1.incomplete == [Entry(1, Some(7), 1)] && s1.byUser == map[] && s1.completed == [];
    assert Enabled(s1, es[1]);
    var s2 := Apply(s1, es[1]);
    assert es[1..] == [es[1]] && es[1..][1..] == [];
    assert Runnable(s2, []) && Run(s2, []) == s2;
    assert Runnable(s1, es[1..]) && Run(s1, es[1..]) == s2;
  }

  // ---- Accepting ----

  predicate NoneContained(es: seq<Event>) { forall i :: 0 <= i < |es| ==> !(es[i].Accept? && es[i].contained) }

  lemma {:induction false} GateFollowsCount(s: State, es: seq<Event>)
    requires Runnable(s, es) && s.limits.incomplete > 0
    requires s.watches <==> |s.incomplete| < s.limits.incomplete
    ensures var s' := Run(s, es);
            && (s'.watches <==> |s'.incomplete| < s'.limits.incomplete)
            && (NoneContained(es) && |s.incomplete| <= s.limits.incomplete ==> |s'.incomplete| <= s'.limits.incomplete)
    decreases |es|
  {
    if es != [] {
      GateFollowsCount(Apply(s, es[0]), es[1..]);
      assert NoneContained(es) ==> NoneContained(es[1..]) && !(es[0].Accept? && es[0].contained);
    }
  }

  /**
   The assertion after an accept, that there are no more incomplete connections than allowed:
   unless none are allowed, it holds for every connection that comes in through a configured
   server, and for one that comes in through the server of a container exactly if the limit was
   not yet reached.  If none are allowed it fails.
   */
  lemma AcceptAssertsIff(limits: Limits, now: nat, es: seq<Event>, c: Conn, user: Option<Uid>, contained: bool)
    requires Runnable(Initial(limits, now), es)
    requires Enabled(Run(Initial(limits, now), es), Accept(c, user, contained))
    ensures var s := Run(Initial(limits, now), es);
            |Apply(s, Accept(c, user, contained)).incomplete| <= limits.incomplete <==> limits.incomplete > 0 && (!contained || s.watches)
  {
    EveryRunKeepsInv(Initial(limits, now), es);
    if limits.incomplete > 0 { GateFollowsCount(Initial(limits, now), es); }
  }

  function Containers(n: nat): seq<Event> {
    if n == 0 then [] else Containers(n - 1) + [Accept(n, None, true)]
  }

  /** Connections to containers are accepted without end: any number of them, whatever the limit. */
  lemma {:induction false} ContainersAreNotGated(limits: Limits, now: nat, n: nat)
    ensures var s0 := Initial(limits, now);
            && Runnable(s0, Containers(n))
            && |Run(s0, Containers(n)).incomplete| == n
            && Run(s0, Containers(n)).completed == [] && Run(s0, Containers(n)).closed <= Members(Run(s0, Containers(n)).incomplete)
            && forall e | e in Run(s0, Containers(n)).incomplete :: 1 <= e.conn <= n
  {
    if n > 0 {
      ContainersAreNotGated(limits, now, n - 1);
      RunAppend(Initial(limits, now), Containers(n - 1), Accept(n, None, true));
    }
  }

  lemma {:induction false} RunAppend(s: State, es: seq<Event>, e: Event)
    requires Runnable(s, es) && Enabled(Run(s, es), e)
    ensures Runnable(s, es + [e]) && Run(s, es + [e]) == Apply(Run(s, es), e)
    decreases |es|
  {
    if es == [] {
      assert (es + [e])[1..] == [];
    } else {
      assert (es + [e])[1..] == es[1..] + [e];
      RunAppend(Apply(s, es[0]), es[1..], e);
    }
  }

  // ---- The lists as the daemon keeps them ----

  /** In an oldest-first list, whoever is younger than one that is not overdue is not overdue, and has longer to wait. */
  lemma {:induction false} RestIsYounger(s: seq<Entry>, i: nat, timeout: int, now: nat)
    requires OldestFirst(s) && i < |s| && !Overdue(s[i], timeout, now)
    requires forall j | 0 <= j < i :: Overdue(s[j], timeout, now)
    ensures AllOverdue(s, timeout, now) == AllOverdue(s[..i], timeout, now)
    ensures LeastRemaining(s, timeout, now) == Some(Remaining(s[i], timeout, now))
  {
    hide LeastRemaining;
    assert forall e | e in s :: e in s[..i] || (!Overdue(e, timeout, now) && e.stamp >= s[i].stamp);
    var r := LeastRemaining(s, timeout, now);
    assert s[i] in s;
  }

  lemma NoneOverdue(s: seq<Entry>, timeout: int, now: nat)
    ensures AllOverdue(s[..0], timeout, now) == {}
  {
  }

  lemma OneOverdue(s: seq<Entry>, i: nat, timeout: int, now: nat)
    requires i < |s| && Overdue(s[i], timeout, now)
    ensures AllOverdue(s[..i + 1], timeout, now) == AllOverdue(s[..i], timeout, now) + {s[i].conn}
  {
    assert s[..i + 1] == s[..i] + [s[i]];
  }

  class Connections {
    const enough: bool   // no allocation fails
    const limits: Limits
    var clock: nat
    var incomplete: seq<Entry>
    var nIncomplete: int
    var completed: seq<Entry>
    var nCompleted: int
    var completedByUser: map<Uid, nat>
    var closed: set<Conn>
    var expireTimeout: Timer
    var watchesEnabled: bool
    var servers: seq<bool>         // whether the watches of each configured server are enabled
    ghost var leaked: multiset<Uid>

    ghost function Abs(): State
      reads this
    {
      State(limits, clock, incomplete, completed, completedByUser, closed, expireTimeout, watchesEnabled, leaked)
    }

    ghost predicate Counters()
      reads this
    {
      nIncomplete == |incomplete| && nCompleted == |completed| && forall i | 0 <= i < |servers| :: servers[i] == watchesEnabled
    }

    ghost predicate Valid()
      reads this
    {
      Counters() && Inv(Abs())
    }

    constructor (enough: bool, limits: Limits, now: nat, n: nat)
      ensures Valid() && this.enough == enough && Abs() == Initial(limits, now)
    {
      this.enough, this.limits, clock := enough, limits, now;
      incomplete, nIncomplete, completed, nCompleted, completedByUser, closed := [], 0, [], 0, map[], {};
      expireTimeout, watchesEnabled, servers, leaked := Off, true, seq(n, _ => true), multiset{};
    }

    /** Stops at the first connection that is not overdue. */
    method ExpireIncomplete()
      requires OldestFirst(incomplete) && forall e | e in incomplete :: e.stamp <= clock
      modifies `closed, `expireTimeout
      ensures Abs() == Scanned(old(Abs()))
    {
      hide LeastRemaining, AllOverdue;
      var next := -1;
      var i := 0;
      NoneOverdue(incomplete, limits.authTimeout, clock);
      while i < |incomplete|
        invariant 0 <= i <= |incomplete| && next == -1
        invariant forall j | 0 <= j < i :: Overdue(incomplete[j], limits.authTimeout, clock)
        invariant closed == old(closed) + AllOverdue(incomplete[..i], limits.authTimeout, clock)
        invariant expireTimeout == old(expireTimeout)
      {
        var elapsed := clock - incomplete[i].stamp;
        if elapsed >= 1000 * limits.authTimeout {
          OneOverdue(incomplete, i, limits.authTimeout, clock);
          closed := closed + {incomplete[i].conn};
        } else {
          next := (1000 * limits.authTimeout - elapsed) / 1000;
          RestIsYounger(incomplete, i, limits.authTimeout, clock);
          break;
        }
        i := i + 1;
      }
      assert i == |incomplete| ==> incomplete[..i] == incomplete;
      expireTimeout := if next >= 0 then At(clock + 1000 * next) else Off;
    }

    method CheckAllWatches()
      requires Counters()
      modifies `watchesEnabled, `servers
      ensures Counters() && Abs() == Gated(old(Abs()))
    {
      var enabled := nIncomplete < limits.incomplete;
      if watchesEnabled == enabled {
        return;
      }
      watchesEnabled := enabled;
      var i := 0;
      while i < |servers|
        invariant 0 <= i <= |servers| && watchesEnabled == enabled
        invariant forall j | 0 <= j < i :: servers[j] == enabled
      {
        servers := servers[i := enabled];
        i := i + 1;
      }
    }

    method Setup(c: Conn, user: Option<Uid>, ghost contained: bool) returns (ok: bool)
      requires Valid() && Enabled(Abs(), Accept(c, user, contained))
      modifies `incomplete, `nIncomplete, `closed, `expireTimeout, `watchesEnabled, `servers
      ensures Valid() && (enough ==> ok)
      ensures Abs() == if ok then Apply(old(Abs()), Accept(c, user, contained)) else old(Abs())
    {
      hide Counted, Scanned, AllOverdue;
      var full := Exhausted(enough);
      if full {
        return false;
      }
      AcceptKeepsInv(Abs(), c, user);
      incomplete := incomplete + [Entry(c, user, clock)];
      nIncomplete := nIncomplete + 1;
      ExpireIncomplete();
      CheckAllWatches();
      return true;
    }

    method CheckLimits(c: Conn) returns (ok: bool)
      requires Valid() && Where(incomplete, c) < |incomplete|
      ensures var u := incomplete[Where(incomplete, c)].user;
              ok <==> |completed| < limits.completed && (u.Some? ==> (if u.value in completedByUser then completedByUser[u.value] else 0) < limits.perUser)
    {
      var e := incomplete[Where(incomplete, c)];
      if nCompleted >= limits.completed {
        return false;
      }
      ok := e.user.None? || Charged(completedByUser, e.user.value) < limits.perUser;
    }

    /** Only an adjustment upward can fail. */
    method AdjustForUid(uid: Uid, up: bool) returns (ok: bool)
      requires !up ==> Charged(completedByUser, uid) > 0
      modifies `completedByUser
      ensures enough ==> ok
      ensures !up ==> ok && completedByUser == Discharge(old(completedByUser), Some(uid))
      ensures up ==> completedByUser == if ok then Charge(old(completedByUser), Some(uid)) else old(completedByUser)
    {
      var count: int := Charged(completedByUser, uid);
      count := count + if up then 1 else -1;
      if count == 0 {
        completedByUser := completedByUser - {uid};
        return true;
      }
      if up {
        var full := Exhausted(enough);
        if full {
          return false;
        }
      }
      completedByUser := completedByUser[uid := count];
      return true;
    }

    /** bus_connection_complete, once bus_connections_check_limits has agreed. */
    method Complete(c: Conn) returns (outcome: Hello)
      requires Valid() && Enabled(Abs(), SayHello(c, Completes))
      modifies `incomplete, `nIncomplete, `completed, `nCompleted, `completedByUser, `closed, `expireTimeout, `watchesEnabled, `servers, `leaked
      ensures Valid() && (enough ==> outcome == Completes)
      ensures Abs() == ApplyHello(old(Abs()), c, outcome)
    {
      hide Inv, Scanned, Gated;
      ghost var s := Abs();
      CompleteKeepsInv(s, c);
      FailedHelloKeepsInv(s, c, NoLogInfo);
      var full := Exhausted(enough);
      if full {
        return NoPolicy;
      }
      var e := incomplete[Where(incomplete, c)];
      if e.user.Some? {
        var ok := AdjustForUid(e.user.value, true);
        if !ok {
          return NoCount;
        }
      }
      full := Exhausted(enough);
      if full {
        leaked := leaked + if e.user.Some? then multiset{e.user.value} else multiset{};
        return NoLogInfo;
      }
      MoveToCompleted(c, e);
      return Completes;
    }

    method MoveToCompleted(c: Conn, e: Entry)
      requires Counters() && OldestFirst(incomplete) && DistinctConns(incomplete) && forall x | x in incomplete :: x.stamp <= clock
      requires Where(incomplete, c) < |incomplete| && e == incomplete[Where(incomplete, c)]
      modifies `incomplete, `nIncomplete, `completed, `nCompleted, `closed, `expireTimeout, `watchesEnabled, `servers
      ensures Counters()
      ensures Abs() == Scanned(Gated(old(Abs()).(incomplete := Strike(old(incomplete), c), completed := old(completed) + [e])))
    {
      hide Scanned;
      StrikeKeepsOrder(incomplete, c);
      StrikeMembers(incomplete, c);
      incomplete := Strike(incomplete, c);
      nIncomplete := nIncomplete - 1;
      completed := completed + [e];
      nCompleted := nCompleted + 1;
      CheckAllWatches();
      ExpireIncomplete();
    }

    method Disconnected(c: Conn)
      requires Valid() && (c in Members(incomplete) || c in Members(completed))
      modifies `incomplete, `nIncomplete, `completed, `nCompleted, `completedByUser, `closed, `watchesEnabled, `servers
      ensures Enabled(old(Abs()), Gone(c))
      ensures Valid() && Abs() == Apply(old(Abs()), Gone(c))
    {
      hide Inv, Of;
      ghost var s := Abs();
      GoneIsEnabled(s, c);
      GoneKeepsInv(s, c);
      closed := closed - {c};
      if Where(completed, c) < |completed| {
        LeaveCompleted(c);
      } else {
        incomplete := Strike(incomplete, c);
        nIncomplete := nIncomplete - 1;
        CheckAllWatches();
      }
    }

    method LeaveCompleted(c: Conn)
      requires Counters() && Where(completed, c) < |completed|
      requires var u := completed[Where(completed, c)].user; u.Some? ==> Charged(completedByUser, u.value) > 0
      modifies `completed, `nCompleted, `completedByUser
      ensures Counters() && completed == Strike(old(completed), c)
      ensures completedByUser == Discharge(old(completedByUser), old(completed)[Where(old(completed), c)].user)
    {
      hide Where;
      var e := completed[Where(completed, c)];
      completed := Strike(completed, c);
      nCompleted := nCompleted - 1;
      if e.user.Some? {
        var ok := AdjustForUid(e.user.value, false);
      }
    }
  }

  lemma GoneIsEnabled(s: State, c: Conn)
    requires Inv(s) && (c in Members(s.incomplete) || c in Members(s.completed))
    ensures Enabled(s, Gone(c))
  {
    var i := Where(s.completed, c);
    if i < |s.completed| {
      DischargeCounted(s, i);
    } else {
      assert forall e | e in s.completed :: e.conn != c;
    }
  }
}
