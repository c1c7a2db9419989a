/** The promises of the activation code, for every run. */
module ActivationTheorems {
  import opened BusTypes
  import opened Activation
  import opened ActivationInvariants

  /**
   In every state of every run: the number of pending requests is the sum over the live pending
   activations and within the limit, and every reference is accounted for.
   */
  lemma CountsInEveryRun(limit: nat, connected: set<Conn>, es: seq<Step>, p: Pid)
    requires Runnable(Initial(limit, connected), es)
    ensures var s := Run(Initial(limit, connected), es);
            && s.total == Sum(s.heap) && 0 <= s.total <= limit
            && (p in s.heap ==>
                  && s.heap[p].count == |s.heap[p].entries|
                  && s.heap[p].refs == InTable(s, p) + Mentions(s.hooks, p) > 0)
  {
    EveryRunKeepsInv(Initial(limit, connected), es);
    var s := Run(Initial(limit, connected), es);
    LimitStays(Initial(limit, connected), es);
    SumIsNat(s.heap);
    if p in s.heap { assert s.heap[p].refs == InTable(s, p) + Mentions(s.hooks, p) + Owed(None, p); }
  }

  lemma {:induction false} LimitStays(s: State, es: seq<Step>)
    requires Runnable(s, es)
    ensures Run(s, es).limit == s.limit
    decreases |es|
  {
    if es != [] { LimitStays(Apply(s, es[0]), es[1..]); }
  }

  // ---- At most one outcome ----

  /**
   When no transaction has anything left to say, a request has been told once if a transaction that answered it has been
   executed, once more if that transaction had two things to say to it, and once more for every
   transaction that was cancelled after its out-of-memory error.
   */
  lemma OutcomesAre(limit: nat, connected: set<Conn>, es: seq<Step>, r: nat)
    requires Runnable(Initial(limit, connected), es) && Run(Initial(limit, connected), es).staged == []
    ensures var s := Run(Initial(limit, connected), es);
            && Told(s.outcomes, r) == (if r in s.answered then 1 else 0) + (if r in s.doubled then 1 else 0) + Told(s.repeated, r)
            && s.doubled <= s.answered
  {
    EveryRunKeepsInv(Initial(limit, connected), es);
    var s := Run(Initial(limit, connected), es);
    assert Told(s.outcomes, r) == Counts(s, r) + Told(Early(Said(s.staged)), r);
  }

  /** No transaction is cancelled once it has sent an out-of-memory error past itself. */
  predicate NoneInVain(s: State, es: seq<Step>)
    requires Runnable(s, es)
    decreases |es|
  {
    es == [] ||
    ((es[0].DropAll? ==> Early(StagedBy(s.staged, es[0].t)) == []) && NoneInVain(Apply(s, es[0]), es[1..]))
  }

  lemma {:induction false} NothingRepeated(s: State, es: seq<Step>)
    requires Runnable(s, es)
    ensures Run(s, es).repeated == s.repeated <==> NoneInVain(s, es)
    ensures |Run(s, es).repeated| >= |s.repeated|
    decreases |es|
  {
    if es != [] { NothingRepeated(Apply(s, es[0]), es[1..]); }
  }

  /** No transaction is executed that has two things to say to the same request. */
  predicate NoneTwice(s: State, es: seq<Step>)
    requires Runnable(s, es)
    decreases |es|
  {
    es == [] ||
    ((es[0].DeliverAll? ==> Doubled(StagedBy(s.staged, es[0].t)) == {}) && NoneTwice(Apply(s, es[0]), es[1..]))
  }

  lemma {:induction false} NothingDoubled(s: State, es: seq<Step>)
    requires Inv(s) && Runnable(s, es)
    ensures Run(s, es).doubled == s.doubled <==> NoneTwice(s, es)
    ensures s.doubled <= Run(s, es).doubled
    decreases |es|
  {
    if es != [] {
      StepKeepsInv(s, es[0]);
      StepDoubles(s, es[0]);
      NothingDoubled(Apply(s, es[0]), es[1..]);
    }
  }

  lemma StepDoubles(s: State, e: Step)
    requires Inv(s) && Enabled(s, e)
    ensures s.doubled <= Apply(s, e).doubled
    ensures Apply(s, e).doubled == s.doubled <==> !(e.DeliverAll? && Doubled(StagedBy(s.staged, e.t)) != {})
  {
    hide Counted, Summed, Numbered, Mentions, Restorers, Spoken, AtMostTwice, OneChance, AnsweredGone, Told;
    if e.DeliverAll? {
      var os := StagedBy(s.staged, e.t);
      DeliverChances(s, e.t);
      assert Doubled(os) <= ReqsOf(os) && s.doubled <= s.answered;
      if r :| r in Doubled(os) { assert r !in s.doubled; }
    }
  }

  /**
   At most one outcome, if no transaction spoke in vain and none that was executed had two
   things to say to a request.
   */
  lemma AtMostOneOutcome(limit: nat, connected: set<Conn>, es: seq<Step>, r: nat)
    requires Runnable(Initial(limit, connected), es) && Run(Initial(limit, connected), es).staged == []
    requires NoneInVain(Initial(limit, connected), es) && NoneTwice(Initial(limit, connected), es)
    ensures Told(Run(Initial(limit, connected), es).outcomes, r) <= 1
  {
    OutcomesAre(limit, connected, es, r);
    NothingRepeated(Initial(limit, connected), es);
    NothingDoubled(Initial(limit, connected), es);
  }

  // ---- Who is told what ----

  /** A failure tells every requester that is still connected, once, and nobody else. */
  lemma {:induction false} FailureTellsEachOnce(s: State, es: seq<Request>, i: nat)
    requires Increasing(es) && i < |es|
    ensures Told(Errors(s, es), es[i].id) == if Reachable(s, es[i]) then 1 else 0
  {
    ErrorsFrom(s, es);
    ToldOnce(Errors(s, es), es[i].id);
    ErrorsMember(s, es, i);
  }

  lemma {:induction false} ErrorsMember(s: State, es: seq<Request>, i: nat)
    requires Increasing(es) && i < |es|
    ensures es[i].id in ReqsOf(Errors(s, es)) <==> Reachable(s, es[i])
  {
    var o := Outcome(es[0].id, ErrorReply);
    var rest := Errors(s, es[1..]);
    assert Errors(s, es) == if Reachable(s, es[0]) then [o] + rest else rest;
    if i > 0 {
      ErrorsMember(s, es[1..], i - 1);
      assert es[0].id < es[i].id;
      assert ReqsOf([o] + rest) == {o.req} + ReqsOf(rest);
    } else {
      ErrorsFrom(s, es[1..]);
      forall x | x in rest ensures x.req != es[0].id {
        if Waits(es[1..], x.req, true) { WaitsTail(es, x.req, true); } else { WaitsTail(es, x.req, false); }
      }
      assert Reachable(s, es[0]) ==> o in Errors(s, es);
    }
  }

  function Passed(os: seq<Outcome>): seq<Outcome> {
    if os == [] then [] else (if os[0].kind.PassedOn? then [os[0]] else []) + Passed(os[1..])
  }

  /** An acquisition answers explicit requests, and hands messages on, both in order of arrival and each at most once. */
  lemma {:induction false} HandedOnInOrder(s: State, es: seq<Request>, fates: map<nat, Fate>)
    requires Increasing(es)
    ensures InOrder(Replies(s, es)) && InOrder(Passed(Handovers(s, es, fates)))
    ensures forall o | o in Passed(Handovers(s, es, fates)) :: Waits(es, o.req, true)
  {
    RepliesFrom(s, es);
    if es != [] {
      HandedOnInOrder(s, es[1..], fates);
      var first, rest := HandoverOf(s, es[0], FateOf(fates, es[0])), Handovers(s, es[1..], fates);
      PassedAppend(first, rest);
      assert first != [] ==> first[1..] == [] || first[1..] == [first[1]];
      forall o | o in Passed(rest) ensures Waits(es, o.req, true) && es[0].id < o.req { WaitsTail(es, o.req, true); }
      InOrderCons(Outcome(es[0].id, PassedOn), Passed(rest));
      assert es[0].auto ==> Waits(es, es[0].id, true);
      assert Passed(first) == [] || (es[0].auto && Passed(first) == [Outcome(es[0].id, PassedOn)]);
      assert [] + Passed(rest) == Passed(rest);
    }
  }

  lemma {:induction false} PassedAppend(a: seq<Outcome>, b: seq<Outcome>)
    ensures Passed(a + b) == Passed(a) + Passed(b)
  {
    if a == [] {
      assert a + b == b;
    } else {
      PassedAppend(a[1..], b);
      assert (a + b)[1..] == a[1..] + b && (a + b)[0] == a[0];
      assert [a[0]] + (Passed(a[1..]) + Passed(b)) == [a[0]] + Passed(a[1..]) + Passed(b);
      assert [] + (Passed(a[1..]) + Passed(b)) == Passed(a[1..]) + Passed(b) && [] + Passed(a[1..]) == Passed(a[1..]);
    }
  }

  /** What there is to say to one request. */
  function AnswerTo(s: State, r: Request, f: Fate): seq<Outcome> { ReplyTo(s, r) + HandoverOf(s, r, f) }

  /** An acquisition says to every request what there is to say to it, and nothing else. */
  lemma {:induction false} AcquisitionTells(s: State, es: seq<Request>, fates: map<nat, Fate>, i: nat)
    requires i < |es| && Increasing(es)
    ensures var os := Replies(s, es) + Handovers(s, es, fates);
            && Told(os, es[i].id) == |AnswerTo(s, es[i], FateOf(fates, es[i]))|
            && forall o | o in AnswerTo(s, es[i], FateOf(fates, es[i])) :: o in os
  {
    EachTold(s, es, fates, i);
    ToldAppend(Replies(s, es), Handovers(s, es, fates), es[i].id);
    AnswersMember(s, es, fates, i);
  }

  lemma {:induction false} AnswersMember(s: State, es: seq<Request>, fates: map<nat, Fate>, i: nat)
    requires i < |es|
    ensures forall o | o in ReplyTo(s, es[i]) :: o in Replies(s, es)
    ensures forall o | o in HandoverOf(s, es[i], FateOf(fates, es[i])) :: o in Handovers(s, es, fates)
  {
    hide ReplyTo, HandoverOf;
    if i > 0 { AnswersMember(s, es[1..], fates, i - 1); }
  }

  // ---- The preallocated error ----

  /**
   The assertions of bus_connection_send_oom_error hold during an acquisition exactly if everybody
   who is told at once is a connection whose preallocated error is there, and nobody is twice.
   */
  lemma {:induction false} ErrorsAtHandIff(s: State, es: seq<Request>, fates: map<nat, Fate>, ready: set<Conn>)
    ensures ErrorsAtHand(s, es, fates, ready) <==>
            && (forall i | 0 <= i < |es| && ToldNow(s, es[i], FateOf(fates, es[i])) :: es[i].conn.Some? && es[i].conn.value in ready)
            && (forall i, j | 0 <= i < j < |es| && ToldNow(s, es[i], FateOf(fates, es[i])) && ToldNow(s, es[j], FateOf(fates, es[j])) ::
                  es[i].conn != es[j].conn)
  {
    hide ToldNow, FateOf;
    if es != [] {
      var rest := es[1..];
      assert forall k | 0 <= k < |rest| :: rest[k] == es[k + 1];
      assert forall k | 1 <= k < |es| :: es[k] == rest[k - 1];
      if ToldNow(s, es[0], FateOf(fates, es[0])) {
        if es[0].conn.Some? { ErrorsAtHandIff(s, rest, fates, ready - {es[0].conn.value}); }
      } else {
        ErrorsAtHandIff(s, rest, fates, ready);
      }
    }
  }

  // ---- Transactions from beginning to end ----

  /** t has neither said nor hooked anything. */
  predicate Fresh(s: State, t: TxnId) {
    t in s.open && t !in s.doomed && StagedBy(s.staged, t) == [] && NextToFree(s.hooks, t) == |s.hooks|
  }

  /** Taking a pending activation out touches the table and adds a hook; the reference counts are as before. */
  lemma TakenIs(s: State, t: TxnId, n: Name)
    requires Core(s, None) && n in s.table
    ensures Taken(s, t, n) == s.(hooks := [Hook(t, RestorePending, s.table[n], false)] + s.hooks, table := s.table - {n})
  {
    hide Summed, Numbered, Mentions;
    var p := s.table[n];
    assert s.heap[p].refs == InTable(s, p) + Mentions(s.hooks, p) + Owed(None, p);
    assert Taken(s, t, n).heap == s.heap;
  }

  /** The restoring hook undoes exactly that. */
  lemma PutBack(s: State, t: TxnId, n: Name)
    requires Core(s, None) && n in s.table && StagedBy(s.staged, t) == []
    ensures var s1 := s.(hooks := [Hook(t, RestorePending, s.table[n], false)] + s.hooks, table := s.table - {n});
            && Enabled(s1, HookRuns(0)) && Enabled(RunHook(s1, 0), HookFreed(0))
            && FreeHook(RunHook(s1, 0), 0) == s
  {
    hide Summed, Numbered, Mentions;
    var p := s.table[n];
    assert s.heap[p].refs == InTable(s, p) + Mentions(s.hooks, p) + Owed(None, p);
    var s1 := s.(hooks := [Hook(t, RestorePending, p, false)] + s.hooks, table := s.table - {n});
    var s2 := RunHook(s1, 0);
    assert s2.table == s.table && s2.heap[p].refs == s.heap[p].refs + 1;
    assert s2.hooks == [Hook(t, RestorePending, p, true)] + s.hooks;
    assert s2.hooks[..0] + s2.hooks[1..] == s.hooks;
    assert FreeHook(s2, 0).heap == s.heap;
  }

  /** What cancelling t does when it has one hook, the newest. */
  ghost function Cancelled(s: State, t: TxnId): State
    requires |s.hooks| > 0 && Enabled(Drop(s, t), HookRuns(0)) && Enabled(RunHook(Drop(s, t), 0), HookFreed(0))
  {
    FreeHook(RunHook(Drop(s, t), 0), 0).(open := s.open - {t}, doomed := s.doomed - {t})
  }

  lemma {:induction false} NoneOfItsOwn(q: seq<Staged>, t: TxnId)
    requires StagedBy(q, t) == []
    ensures StagedByOthers(q, t) == q
  {
    if q != [] { NoneOfItsOwn(q[1..], t); }
  }

  /** The state once an acquisition has been dropped, but its hook has not run. */
  lemma AcquiredThenDropped(s: State, t: TxnId, n: Name, fates: map<nat, Fate>)
    requires Core(s, None) && Fresh(s, t) && n in s.table
    ensures var os := Replies(s, s.heap[s.table[n]].entries) + Handovers(s, s.heap[s.table[n]].entries, fates);
            Drop(ApplyAcquired(s, t, n, fates), t) ==
            s.(outcomes := s.outcomes + Early(os), repeated := s.repeated + Early(os), ready := ReadyAfter(s, s.heap[s.table[n]].entries, fates, s.ready),
            hooks := [Hook(t, RestorePending, s.table[n], false)] + s.hooks, table := s.table - {n})
    ensures var s1 := ApplyAcquired(s, t, n, fates); |s1.hooks| > 0 && s1.open == s.open && s1.doomed == s.doomed
  {
    hide Summed, Numbered, Counted, Early, Replies, Handovers, StagedBy, StagedByOthers, Remove, ReadyAfter;
    var es := s.heap[s.table[n]].entries;
    var os := Replies(s, es) + Handovers(s, es, fates);
    StagedByAppend(s.staged, t, os, t);
    NoneOfItsOwn(s.staged, t);
    assert [] + os == os && s.staged + [] == s.staged;
    SayCore(s, t, os);
    TakenIs(Say(s, t, os), t, n);
  }

  /**
   Cancelling an acquisition puts the pending activation back as it was, with all its requests;
   all that remains is what was said past the transaction.
   */
  lemma CancelledAcquisitionRestores(s: State, t: TxnId, n: Name, fates: map<nat, Fate>)
    requires Core(s, None) && Fresh(s, t) && n in s.table
    ensures var os := Replies(s, s.heap[s.table[n]].entries) + Handovers(s, s.heap[s.table[n]].entries, fates);
            var s1 := ApplyAcquired(s, t, n, fates);
            && |s1.hooks| > 0 && Enabled(Drop(s1, t), HookRuns(0)) && Enabled(RunHook(Drop(s1, t), 0), HookFreed(0))
            && Cancelled(s1, t) == s.(open := s.open - {t}, outcomes := s.outcomes + Early(os), repeated := s.repeated + Early(os),
                                   ready := ReadyAfter(s, s.heap[s.table[n]].entries, fates, s.ready))
  {
    hide Counted, Summed, Numbered, Early, Replies, Handovers, StagedByOthers, Enabled, RunHook, FreeHook, Drop, ApplyAcquired, ReadyAfter;
    var es := s.heap[s.table[n]].entries;
    var os := Replies(s, es) + Handovers(s, es, fates);
    var said := s.(outcomes := s.outcomes + Early(os), repeated := s.repeated + Early(os), ready := ReadyAfter(s, es, fates, s.ready));
    BooksCore(s, said);
    PutBack(said, t, n);
    AcquiredThenDropped(s, t, n, fates);
  }

  /** Everybody who waits is told what there is to say, if the acquisition is executed; some of it is said at once. */
  lemma ExecutedAcquisitionTells(s: State, t: TxnId, n: Name, fates: map<nat, Fate>, i: nat)
    requires Inv(s) && Fresh(s, t) && Enabled(s, NameAcquired(t, n, fates)) && i < |s.heap[s.table[n]].entries|
    ensures var s1 := ApplyAcquired(s, t, n, fates);
            var r := s.heap[s.table[n]].entries[i];
            && Enabled(s1, DeliverAll(t))
            && Told(Deliver(s1, t).outcomes, r.id) == Told(s.outcomes, r.id) + |AnswerTo(s, r, FateOf(fates, r))|
            && forall o | o in AnswerTo(s, r, FateOf(fates, r)) :: o in Deliver(s1, t).outcomes
  {
    hide Summed, Mentions, Booked, Spoken, AtMostTwice, OneChance, AnsweredGone, Replies, Handovers, Restorers, Counted, ErrorsAtHand, ReadyAfter, AnswerTo, Doubled;
    var es := s.heap[s.table[n]].entries;
    var os := Replies(s, es) + Handovers(s, es, fates);
    NumberedOne(s, s.table[n]) by { NumbersOf(s); }
    AcquisitionTells(s, es, fates, i);
    StagedByAppend(s.staged, t, os, t);
    assert [] + os == os;
    EarlyAndLate(os, es[i].id);
    ToldAppend(s.outcomes, Early(os), es[i].id);
    ToldAppend(s.outcomes + Early(os), Late(os), es[i].id);
    EarlyOrLate(os);
  }

  lemma {:induction false} EarlyOrLate(os: seq<Outcome>)
    ensures forall o | o in os :: o in Early(os) || o in Late(os)
  {
    if os != [] { EarlyOrLate(os[1..]); }
  }

  /**
   So an executed acquisition tells a request two things exactly if memory runs out when its
   message has already been queued for the owner: the message is handed on, and there is an error.
   */
  lemma HandedOnAndRefusedIff(s: State, t: TxnId, n: Name, fates: map<nat, Fate>, i: nat)
    requires Inv(s) && Fresh(s, t) && Enabled(s, NameAcquired(t, n, fates)) && i < |s.heap[s.table[n]].entries|
    ensures var s1 := Deliver(ApplyAcquired(s, t, n, fates), t);
            var r := s.heap[s.table[n]].entries[i];
            Told(s1.outcomes, r.id) - Told(s.outcomes, r.id) > 1 <==> r.auto && Reachable(s, r) && FateOf(fates, r).HandedOnAndDenied?
  {
    hide Inv, Enabled, ApplyAcquired, Deliver, Told;
    ExecutedAcquisitionTells(s, t, n, fates, i);
  }

  /**
   And a cancelled one tells a request something exactly if it is told at once.  It has been told
   that there is no memory, and it is waiting again for whatever comes next.
   */
  lemma ToldInVainIff(s: State, t: TxnId, n: Name, fates: map<nat, Fate>, i: nat)
    requires Inv(s) && Fresh(s, t) && Enabled(s, NameAcquired(t, n, fates)) && i < |s.heap[s.table[n]].entries|
    ensures var s1 := ApplyAcquired(s, t, n, fates);
            && |s1.hooks| > 0 && Enabled(Drop(s1, t), HookRuns(0)) && Enabled(RunHook(Drop(s1, t), 0), HookFreed(0))
            && var s2 := Cancelled(s1, t);
               var r := s.heap[s.table[n]].entries[i];
               && Told(s2.outcomes, r.id) == Told(s.outcomes, r.id) + (if ToldNow(s, r, FateOf(fates, r)) then 1 else 0)
               && n in s2.table && r in s2.heap[s2.table[n]].entries
  {
    WhoIsWaiting(s, t, n, fates);
    hide Inv, Core, Enabled, Replies, Handovers, ErrorsAtHand, ReadyAfter, ApplyAcquired, Cancelled, Drop, RunHook, Early, Told, Fresh, Increasing, ToldNow;
    CancelledAcquisitionRestores(s, t, n, fates);
    var es := s.heap[s.table[n]].entries;
    ErrorsAtHandIff(s, es, fates, s.ready);
    EarlyTold(s, es, fates, i);
    ToldAppend(s.outcomes, Early(Replies(s, es) + Handovers(s, es, fates)), es[i].id);
  }

  lemma WhoIsWaiting(s: State, t: TxnId, n: Name, fates: map<nat, Fate>)
    requires Inv(s) && Enabled(s, NameAcquired(t, n, fates))
    ensures Core(s, None) && n in s.table && s.table[n] in s.heap && Increasing(s.heap[s.table[n]].entries)
    ensures ErrorsAtHand(s, s.heap[s.table[n]].entries, fates, s.ready)
  {
    hide ErrorsAtHand, Increasing;
    NumberedOne(s, s.table[n]) by { NumbersOf(s); }
  }

  lemma {:induction false} EarlyTold(s: State, es: seq<Request>, fates: map<nat, Fate>, i: nat)
    requires Increasing(es) && i < |es|
    ensures var f := FateOf(fates, es[i]);
            Told(Early(Replies(s, es) + Handovers(s, es, fates)), es[i].id) == if ToldNow(s, es[i], f) && es[i].conn.Some? then 1 else 0
  {
    var r, f := es[i], FateOf(fates, es[i]);
    EarlyAppend(Replies(s, es), Handovers(s, es, fates));
    NoEarlyReplies(s, es);
    assert [] + Early(Handovers(s, es, fates)) == Early(Handovers(s, es, fates));
    EarlyHandovers(s, es, fates, i);
  }

  lemma {:induction false} NoEarlyReplies(s: State, es: seq<Request>)
    ensures Early(Replies(s, es)) == []
  {
    if es != [] {
      NoEarlyReplies(s, es[1..]);
      EarlyAppend(ReplyTo(s, es[0]), Replies(s, es[1..]));
    }
  }

  lemma {:induction false} EarlyHandovers(s: State, es: seq<Request>, fates: map<nat, Fate>, i: nat)
    requires Increasing(es) && i < |es|
    ensures Told(Early(Handovers(s, es, fates)), es[i].id) == if ToldNow(s, es[i], FateOf(fates, es[i])) && es[i].conn.Some? then 1 else 0
  {
    hide HandoverOf, ToldNow;
    var first, rest := es[0], es[1..];
    var mine := HandoverOf(s, first, FateOf(fates, first));
    assert forall k | 0 <= k < |rest| :: rest[k] == es[k + 1];
    EarlyAppend(mine, Handovers(s, rest, fates));
    ToldAppend(Early(mine), Early(Handovers(s, rest, fates)), es[i].id);
    EarlyOfOne(s, first, FateOf(fates, first), es[i].id);
    if i == 0 {
      NotWaiting(s, rest, fates, first.id);
      EarlyNone(Handovers(s, rest, fates), first.id);
    } else {
      EarlyHandovers(s, rest, fates, i - 1);
    }
  }

  lemma EarlyOfOne(s: State, r: Request, f: Fate, id: nat)
    ensures Told(Early(HandoverOf(s, r, f)), id) == if id == r.id && ToldNow(s, r, f) && r.conn.Some? then 1 else 0
  {
    var os := HandoverOf(s, r, f);
    if os != [] {
      assert os == [os[0]] + os[1..] && (os[1..] == [] || os[1..] == [os[1]] + []);
      EarlyCons(os[0], os[1..], id);
      if os[1..] != [] { EarlyCons(os[1], [], id); }
    }
  }

  lemma EarlyNone(os: seq<Outcome>, r: nat)
    requires Told(os, r) == 0
    ensures Told(Early(os), r) == 0
  {
    EarlyAndLate(os, r);
  }

  /** Cancelling one request takes the whole pending activation with it: the requests before it get no outcome at all. */
  lemma CancelledRequestTakesAll(s: State, t: TxnId, n: Name, exec: Option<Command>, conn: Option<Conn>, auto: bool)
    requires Inv(s) && Fresh(s, t) && s.total < s.limit && n in s.table
    ensures var s1 := Apply(s, Enqueue(t, n, exec, conn, auto));
            && |s1.hooks| > 0 && Enabled(Drop(s1, t), HookRuns(0)) && Enabled(RunHook(Drop(s1, t), 0), HookFreed(0))
            && var s2 := Cancelled(s1, t);
               && n !in s2.table && s2.outcomes == s.outcomes && s2.answered == s.answered
               && (Mentions(s.hooks, s.table[n]) == 0 ==> s.table[n] !in s2.heap)
  {
    hide Summed, Numbered, Mentions, Booked, Spoken, AtMostTwice, OneChance, AnsweredGone, Restorers;
    var p := s.table[n];
    assert s.heap[p].refs == InTable(s, p) + Mentions(s.hooks, p) + Owed(None, p);
    var s1 := Apply(s, Enqueue(t, n, exec, conn, auto));
    assert s1.hooks == [Hook(t, CancelPending, p, false)] + s.hooks && s1.table == s.table && s1.heap[p].refs == s.heap[p].refs + 1;
    NoneOfItsOwn(s.staged, t);
    var s2 := Drop(s1, t);
    assert s2.outcomes == s.outcomes && s2.staged == s.staged;
    var s3 := RunHook(s2, 0);
    assert s3.hooks == [Hook(t, CancelPending, p, true)] + s.hooks && s3.heap[p].refs == s.heap[p].refs;
  }

  lemma SayCore(s: State, t: TxnId, os: seq<Outcome>)
    requires Core(s, None)
    ensures Core(Say(s, t, os), None)
  {
    forall p | p in s.heap ensures s.heap[p].refs == InTable(Say(s, t, os), p) + Mentions(s.hooks, p) + Owed(None, p) {
      assert s.heap[p].refs == InTable(s, p) + Mentions(s.hooks, p) + Owed(None, p);
    }
  }

  lemma BooksCore(s: State, s': State)
    requires Core(s, None) && s' == s.(outcomes := s'.outcomes, repeated := s'.repeated, ready := s'.ready)
    ensures Core(s', None)
  {
    forall p | p in s.heap ensures s.heap[p].refs == InTable(s', p) + Mentions(s.hooks, p) + Owed(None, p) {
      assert s.heap[p].refs == InTable(s, p) + Mentions(s.hooks, p) + Owed(None, p);
    }
  }

  // ---- No second chance ----

  /** r is not waiting in any pending activation that could still be answered. */
  ghost predicate Settled(s: State, r: nat) {
    r < s.nextReq && forall p | p in s.heap && Chances(s, p) > 0 :: r !in Ids(s.heap[p].entries)
  }

  lemma FewerSettled(s: State, s': State, r: nat)
    requires Settled(s, r) && Fewer(s, s')
    ensures Settled(s', r)
  {
    hide Ids, Chances;
  }

  lemma AppendSettled(s: State, n: Name, exec: Option<Command>, conn: Option<Conn>, auto: bool, r: nat)
    requires Core(s, None) && s.total < s.limit && Settled(s, r)
    ensures Settled(Appended(s, n, exec, conn, auto), r)
  {
    hide Summed, Mentions, Restorers, Counted, Numbered;
    var s' := Appended(s, n, exec, conn, auto);
    var q := Request(s.nextReq, conn, auto);
    NewKeepsNumbers(s.heap, s.nextPid, s.nextReq, Pending(n, exec, [q], 1, 1));
    forall p | p in s'.heap && Chances(s', p) > 0 ensures r !in Ids(s'.heap[p].entries) {
      if p in s.heap {
        assert Chances(s, p) > 0;
        assert s'.heap[p].entries == s.heap[p].entries || s'.heap[p].entries == s.heap[p].entries + [q];
      } else {
        assert s'.heap[p].entries == [q];
      }
    }
  }

  lemma HeldIsNotSettled(s: State, t: TxnId, r: nat)
    requires Inv(s) && HeldBy(s, t, r)
    ensures !Settled(s, r)
  {
    var p := HeldSomewhere(s, t, r);
    HeldAlone(s, t, r, p);
  }

  lemma SettledSame(s: State, s': State, r: nat)
    requires Settled(s, r) && s'.heap == s.heap && s'.table == s.table && s'.hooks == s.hooks && s'.nextReq == s.nextReq
    ensures Settled(s', r)
  {
    forall p | p in s'.heap && Chances(s', p) > 0 ensures r !in Ids(s'.heap[p].entries) { assert Chances(s, p) > 0; }
  }

  /** The steps that change the books leave a settled request alone. */
  lemma DeliverSettled(s: State, t: TxnId, r: nat)
    requires Inv(s) && Settled(s, r) && t in s.open && t !in s.doomed
    ensures Settled(Deliver(s, t), r) && (r in Deliver(s, t).answered ==> r in s.answered)
  {
    hide Summed, Numbered, Mentions, Restorers, Counted, Booked, AtMostTwice, Ids;
    var s' := Deliver(s, t);
    forall p | p in s'.heap && Chances(s', p) > 0 ensures r !in Ids(s'.heap[p].entries) {
      SpendAll(s.hooks, t, p);
      assert Chances(s, p) > 0;
    }
    OthersAre(s.staged, t);
    if r in ReqsOf(StagedBy(s.staged, t)) {
      var o :| o in StagedBy(s.staged, t) && o.req == r;
      var i :| 0 <= i < |s.staged| && s.staged[i] == Staged(t, o);
      HeldIsNotSettled(s, t, r);
      assert false;
    }
  }

  lemma FailSettled(s: State, n: Name, r: nat)
    requires Inv(s) && Settled(s, r) && n in s.table
    ensures var s' := Apply(s, ActivationFailed(n)); Settled(s', r) && (r in s'.answered ==> r in s.answered)
  {
    hide Summed, Numbered, Mentions, Restorers, Counted, Booked, Spoken, AtMostTwice, AnsweredGone;
    var p := s.table[n];
    var es := s.heap[p].entries;
    assert Chances(s, p) > 0;
    NumberedOne(s, p) by { NumbersOf(s); }
    ErrorsFrom(s, es);
    forall x | x in ReqsOf(Errors(s, es)) ensures x in Ids(es) {
      if Waits(es, x, true) { WaitingIds(es, x, true); } else { WaitingIds(es, x, false); }
    }
    RemoveFewer(s, n);
    FewerSettled(s, Remove(s, n), r);
    SettledSame(Remove(s, n), Apply(s, ActivationFailed(n)), r);
  }

  lemma NumbersOf(s: State)
    requires Core(s, None)
    ensures Numbered(s.heap, s.nextPid, s.nextReq)
  {
  }

  lemma EnqueueSettled(s: State, e: Step, r: nat)
    requires Inv(s) && Enabled(s, e) && Settled(s, r) && (e.Enqueue? || e.EnqueueUnhooked?)
    ensures Settled(Apply(s, e), r) && Apply(s, e).answered == s.answered
  {
    hide Settled, OneChance, AnsweredGone, Spoken, AtMostTwice, Booked, Counted, Summed, Numbered, Fewer;
    AppendSettled(s, e.n, e.exec, e.conn, e.auto, r);
    var s1 := Appended(s, e.n, e.exec, e.conn, e.auto);
    if e.Enqueue? {
      CancelHookFewer(s1, e.t, s1.table[e.n]);
      FewerSettled(s1, Apply(s, e), r);
    } else {
      AppendKeepsCore(s, e.n, e.exec, e.conn, e.auto);
      RemoveFewer(s1, e.n);
      FewerSettled(s1, Remove(s1, e.n), r);
      SettledSame(Remove(s1, e.n), Apply(s, e), r);
    }
  }

  lemma StepSettled(s: State, e: Step, r: nat)
    requires Inv(s) && Enabled(s, e) && Settled(s, r)
    ensures Settled(Apply(s, e), r) && (r in Apply(s, e).answered ==> r in s.answered)
  {
    hide Settled, OneChance, AnsweredGone, Spoken, AtMostTwice, Booked, Counted, Summed, Numbered, Fewer;
    match e {
      case Enqueue(_, _, _, _, _) => EnqueueSettled(s, e, r);
      case EnqueueUnhooked(_, _, _, _, _) => EnqueueSettled(s, e, r);
      case GiveUp(n) =>
        RemoveFewer(s, n);
        FewerSettled(s, Remove(s, n), r);
      case NameAcquired(t, n, fates) =>
        TakenFewer(s, t, n);
        FewerSettled(s, Taken(s, t, n), r);
        SettledSame(Taken(s, t, n), Apply(s, e), r);
      case ActivationFailed(n) => FailSettled(s, n, r);
      case DeliverAll(t) => DeliverSettled(s, t, r);
      case HookRuns(i) =>
        RunHookFewer(s, i);
        FewerSettled(s, Apply(s, e), r);
      case HookFreed(i) =>
        FreeHookFewer(s, i);
        FewerSettled(s, Apply(s, e), r);
      case _ => SettledSame(s, Apply(s, e), r);
    }
  }

  /**
   A request that has been answered, or that was given up or cancelled together with its pending
   activation, is never answered again.
   */
  lemma {:induction false} NoSecondChance(s: State, es: seq<Step>, r: nat)
    requires Inv(s) && Runnable(s, es) && Settled(s, r)
    ensures Settled(Run(s, es), r) && (r in Run(s, es).answered <==> r in s.answered)
    decreases |es|
  {
    if es != [] {
      StepKeepsInv(s, es[0]);
      StepSettled(s, es[0], r);
      AnsweredGrows(s, es[0], r);
      NoSecondChance(Apply(s, es[0]), es[1..], r);
    }
  }

  lemma AnsweredGrows(s: State, e: Step, r: nat)
    requires Enabled(s, e)
    ensures r in s.answered ==> r in Apply(s, e).answered
  {
  }

  lemma AnsweredIsSettled(s: State, r: nat)
    requires Inv(s) && r in s.answered
    ensures Settled(s, r)
  {
    hide Summed, Numbered, Mentions, Restorers, Counted, Booked, Spoken, AtMostTwice;
  }
}
