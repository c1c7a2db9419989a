/**
 What every request is told, read off the fates of the acquisitions and the ends of their
 transactions; and from that, exactly when nobody is told more than one thing.
*/
module ActivationOutcomes {
  import opened BusTypes
  import opened Activation
  import opened ActivationInvariants
  import opened ActivationTheorems

  /** The next end of t in es is its execution. */
  predicate Executed(es: seq<Step>, t: TxnId)
    decreases |es|
  {
    es != [] && (es[0] == DeliverAll(t) || (es[0] != DropAll(t) && Executed(es[1..], t)))
  }

  /** What an acquisition has said, or some of it if memory ran out. */
  function Words(s: State, e: Step): seq<Outcome>
    requires Enabled(s, e)
  {
    match e
    case NameAcquired(_, n, fates) => Answers(s, n, fates)
    case PartlyAnswered(_, n, fates, k) => Answers(s, n, fates)[..k]
    case _ => []
  }

  predicate Speaks(e: Step) { e.NameAcquired? || e.PartlyAnswered? }

  /** What comes of a step: all that an acquisition has said if its transaction is executed, and otherwise what could not wait for that. */
  function Tells(s: State, e: Step, rest: seq<Step>): seq<Outcome>
    requires Enabled(s, e)
  {
    if Speaks(e) then (if Executed(rest, e.t) then Words(s, e) else Early(Words(s, e)))
    else if e.ActivationFailed? then Errors(s, s.heap[s.table[e.n]].entries)
    else []
  }

  /** How often r is told something in a run. */
  function Tellings(s: State, es: seq<Step>, r: nat): nat
    requires Runnable(s, es)
    decreases |es|
  {
    if es == [] then 0 else Told(Tells(s, es[0], es[1..]), r) + Tellings(Apply(s, es[0]), es[1..], r)
  }

  // ---- The count is right ----

  /** What is staged for r and will be delivered. */
  function Coming(q: seq<Staged>, es: seq<Step>, r: nat): nat {
    if q == [] then 0
    else (if q[0].outcome.req == r && !q[0].outcome.kind.OutOfMemory? && Executed(es, q[0].txn) then 1 else 0) + Coming(q[1..], es, r)
  }

  lemma {:induction false} ComingAppend(q: seq<Staged>, t: TxnId, os: seq<Outcome>, es: seq<Step>, r: nat)
    ensures Coming(q + InTxn(t, os), es, r) == Coming(q, es, r) + if Executed(es, t) then Told(Late(os), r) else 0
  {
    hide InTxn, Executed;
    if q != [] {
      ComingAppend(q[1..], t, os, es, r);
      assert (q + InTxn(t, os))[1..] == q[1..] + InTxn(t, os) && (q + InTxn(t, os))[0] == q[0];
    } else {
      assert q + InTxn(t, os) == InTxn(t, os);
      ComingAll(t, os, es, r);
    }
  }

  lemma {:induction false} ComingAll(t: TxnId, os: seq<Outcome>, es: seq<Step>, r: nat)
    ensures Coming(InTxn(t, os), es, r) == if Executed(es, t) then Told(Late(os), r) else 0
  {
    InTxnCons(t, os);
    hide InTxn, Executed;
    if os != [] {
      ComingAll(t, os[1..], es, r);
      assert InTxn(t, os)[1..] == InTxn(t, os[1..]) && InTxn(t, os)[0] == Staged(t, os[0]);
      assert ([os[0]] + Late(os[1..]))[1..] == Late(os[1..]);
    }
  }

  /** Steps that end no transaction leave what is coming. */
  lemma {:induction false} ComingSame(q: seq<Staged>, es: seq<Step>, r: nat)
    requires es != [] && !es[0].DeliverAll? && !es[0].DropAll?
    ensures Coming(q, es, r) == Coming(q, es[1..], r)
  {
    if q != [] { ComingSame(q[1..], es, r); }
  }

  lemma {:induction false} ComingEnds(q: seq<Staged>, t: TxnId, es: seq<Step>, r: nat)
    requires es != [] && (es[0] == DeliverAll(t) || es[0] == DropAll(t))
    ensures Coming(q, es, r) == Coming(StagedByOthers(q, t), es[1..], r) + if es[0].DeliverAll? then Told(Late(StagedBy(q, t)), r) else 0
  {
    if q != [] {
      ComingEnds(q[1..], t, es, r);
      var mine, others := StagedBy(q[1..], t), StagedByOthers(q[1..], t);
      assert ([q[0].outcome] + mine)[1..] == mine && ([q[0]] + others)[1..] == others;
      assert ([q[0].outcome] + Late(mine))[1..] == Late(mine);
      assert Executed(es, q[0].txn) <==> if q[0].txn == t then es[0].DeliverAll? else Executed(es[1..], q[0].txn);
    }
  }

  lemma StepTells(s: State, e: Step, rest: seq<Step>, r: nat)
    requires Enabled(s, e)
    ensures Told(Apply(s, e).outcomes, r) + Coming(Apply(s, e).staged, rest, r)
         == Told(s.outcomes, r) + Coming(s.staged, [e] + rest, r) + Told(Tells(s, e, rest), r)
  {
    var es := [e] + rest;
    assert es[1..] == rest;
    if Speaks(e) {
      var os := Words(s, e);
      SpeakingIs(s, e);
      ComingSame(s.staged, es, r);
      ComingAppend(s.staged, e.t, os, rest, r);
      ToldAppend(s.outcomes, Early(os), r);
      EarlyAndLate(os, r);
    } else if e.DeliverAll? || e.DropAll? {
      ComingEnds(s.staged, e.t, es, r);
      ToldAppend(s.outcomes, Late(StagedBy(s.staged, e.t)), r);
    } else if e.ActivationFailed? {
      ComingSame(s.staged, es, r);
      FailingIs(s, e.n);
      ToldAppend(s.outcomes, Errors(s, s.heap[s.table[e.n]].entries), r);
    } else {
      ComingSame(s.staged, es, r);
      SilentIs(s, e);
    }
  }

  lemma SpeakingIs(s: State, e: Step)
    requires Enabled(s, e) && Speaks(e)
    ensures Apply(s, e).outcomes == s.outcomes + Early(Words(s, e)) && Apply(s, e).staged == s.staged + InTxn(e.t, Words(s, e))
    ensures e.NameAcquired? ==> Apply(s, e).doomed == s.doomed
  {
    hide Answers, Early, InTxn, ReadyAfter, ErrorsAtHand;
  }

  lemma FailingIs(s: State, n: Name)
    requires Enabled(s, ActivationFailed(n))
    ensures var s' := Apply(s, ActivationFailed(n));
            s'.outcomes == s.outcomes + Errors(s, s.heap[s.table[n]].entries) && s'.staged == s.staged && s'.doomed == s.doomed
  {
    hide Errors;
  }

  lemma SilentIs(s: State, e: Step)
    requires Enabled(s, e) && !Speaks(e) && !e.DeliverAll? && !e.DropAll? && !e.ActivationFailed?
    ensures Apply(s, e).outcomes == s.outcomes && Apply(s, e).staged == s.staged
  {
  }

  /** In every run, everything that is told is told by an acquisition or by a failure. */
  lemma {:induction false} TellingsAre(s: State, es: seq<Step>, r: nat)
    requires Runnable(s, es)
    ensures Told(Run(s, es).outcomes, r) == Told(s.outcomes, r) + Tellings(s, es, r) + Coming(s.staged, es, r)
    decreases |es|
  {
    hide Apply, Enabled, Tells;
    if es == [] {
      NothingComes(s.staged, r);
    } else {
      assert es == [es[0]] + es[1..];
      StepTells(s, es[0], es[1..], r);
      TellingsAre(Apply(s, es[0]), es[1..], r);
    }
  }

  lemma {:induction false} NothingComes(q: seq<Staged>, r: nat)
    ensures Coming(q, [], r) == 0
  {
    if q != [] { NothingComes(q[1..], r); }
  }

  // ---- Who can still be told something ----

  /** The step tells nobody else than the requests of the pending activation it is about. */
  lemma TellsItsOwn(s: State, e: Step, rest: seq<Step>, r: nat)
    requires Inv(s) && Enabled(s, e) && Told(Tells(s, e, rest), r) > 0
    ensures (Speaks(e) || e.ActivationFailed?) && e.n in s.table && s.table[e.n] in s.heap && r in Ids(s.heap[s.table[e.n]].entries)
  {
    hide Counted, Summed, Numbered, Spoken, AtMostTwice, OneChance, AnsweredGone, Booked, Ids, ErrorsAtHand;
    NeverTold(Tells(s, e, rest), r);
    var es := s.heap[s.table[e.n]].entries;
    NumberedOne(s, s.table[e.n]) by { NumbersOf(s); }
    if Speaks(e) {
      AnswersTwice(s, es, e.fates);
      EarlyIsPart(Words(s, e));
    } else {
      ErrorsFrom(s, es);
      var o :| o in Tells(s, e, rest) && o.req == r;
      if Waits(es, r, true) { WaitingIds(es, r, true); } else { WaitingIds(es, r, false); }
    }
  }

  lemma {:induction false} EarlyIsPart(os: seq<Outcome>)
    ensures forall o | o in Early(os) :: o in os
  {
    if os != [] { EarlyIsPart(os[1..]); }
  }

  lemma SettledIsNotTold(s: State, e: Step, rest: seq<Step>, r: nat)
    requires Inv(s) && Enabled(s, e) && Settled(s, r)
    ensures Told(Tells(s, e, rest), r) == 0
  {
    hide Apply, Enabled, Tells, OneChance, AnsweredGone, Booked, Spoken, AtMostTwice, Ids, Counted, Summed, Numbered;
    if Told(Tells(s, e, rest), r) > 0 {
      TellsItsOwn(s, e, rest, r);
      assert false;
    }
  }

  /** A settled request is told nothing more. */
  lemma {:induction false} SettledIsSilent(s: State, es: seq<Step>, r: nat)
    requires Inv(s) && Runnable(s, es) && Settled(s, r)
    ensures Tellings(s, es, r) == 0
    decreases |es|
  {
    if es != [] {
      hide Inv, Apply, Enabled, Tells, Settled;
      SettledIsNotTold(s, es[0], es[1..], r);
      StepKeepsInv(s, es[0]);
      StepSettled(s, es[0], r);
      SettledIsSilent(Apply(s, es[0]), es[1..], r);
    }
  }

  /** A transaction that is doomed with something to say is not executed. */
  lemma {:induction false} DoomedIsNotExecuted(s: State, es: seq<Step>, t: TxnId)
    requires Runnable(s, es) && t in s.doomed && StagedBy(s.staged, t) != []
    ensures !Executed(es, t)
    decreases |es|
  {
    if es != [] && es[0] != DropAll(t) {
      StaysDoomed(s, es[0], t);
      DoomedIsNotExecuted(Apply(s, es[0]), es[1..], t);
    }
  }

  lemma StaysDoomed(s: State, e: Step, t: TxnId)
    requires Enabled(s, e) && t in s.doomed && StagedBy(s.staged, t) != [] && e != DropAll(t)
    ensures t in Apply(s, e).doomed && StagedBy(Apply(s, e).staged, t) != [] && e != DeliverAll(t)
  {
    StillStaged(s, e, t);
    if !e.End? { DoomGrows(s, e); }
  }

  lemma DoomGrows(s: State, e: Step)
    requires Enabled(s, e) && !e.End?
    ensures s.doomed <= Apply(s, e).doomed
  {
    hide Answers, ReadyAfter, ErrorsAtHand, Early, InTxn;
  }

  /** What t has staged stays until t ends. */
  lemma StillStaged(s: State, e: Step, t: TxnId)
    requires Enabled(s, e) && e != DropAll(t) && e != DeliverAll(t)
    ensures StagedBy(s.staged, t) <= StagedBy(Apply(s, e).staged, t)
  {
    if Speaks(e) {
      SpeakingIs(s, e);
      StagedByAppend(s.staged, e.t, Words(s, e), t);
    } else if e.DeliverAll? || e.DropAll? {
      OthersStaged(s.staged, e.t, t);
    } else if e.ActivationFailed? {
      FailingIs(s, e.n);
    } else {
      SilentIs(s, e);
    }
  }

  /** t has something to say to r. */
  predicate Holds(s: State, t: TxnId, r: nat) { r in ReqsOf(StagedBy(s.staged, t)) }

  lemma HeldIsNotTold(s: State, e: Step, rest: seq<Step>, t: TxnId, r: nat)
    requires Inv(s) && Enabled(s, e) && Holds(s, t, r) && t !in s.doomed
    ensures Told(Tells(s, e, rest), r) == 0
  {
    hide Apply, Enabled, Tells, OneChance, AnsweredGone, Booked, AtMostTwice, Counted, Summed, Numbered;
    if Told(Tells(s, e, rest), r) > 0 {
      TellsItsOwn(s, e, rest, r);
      OthersAre(s.staged, t);
      var o :| o in StagedBy(s.staged, t) && o.req == r;
      var i :| 0 <= i < |s.staged| && s.staged[i] == Staged(t, o);
      HeldAlone(s, t, r, s.table[e.n]);
      assert false;
    }
  }

  /** What a transaction has taken is told nothing else, if that transaction is executed. */
  lemma {:induction false} HeldIsSilent(s: State, es: seq<Step>, t: TxnId, r: nat)
    requires Inv(s) && Runnable(s, es) && Holds(s, t, r) && Executed(es, t)
    ensures Tellings(s, es, r) == 0
    decreases |es|
  {
    var e, rest := es[0], es[1..];
    NotDoomed(s, es, t, r);
    StepKeepsInv(s, e);
    HeldIsNotTold(s, e, rest, t, r);
    if e == DeliverAll(t) {
      assert r in Apply(s, e).answered;
      AnsweredIsSettled(Apply(s, e), r);
      SettledIsSilent(Apply(s, e), rest, r);
    } else {
      hide Inv, Apply, Enabled, Tells;
      StillStaged(s, e, t);
      HeldIsSilent(Apply(s, e), rest, t, r);
    }
  }

  lemma NotDoomed(s: State, es: seq<Step>, t: TxnId, r: nat)
    requires Runnable(s, es) && Holds(s, t, r) && Executed(es, t)
    ensures t !in s.doomed
  {
    if t in s.doomed {
      DoomedIsNotExecuted(s, es, t);
      assert false;
    }
  }

  // ---- At most one outcome ----

  /**
   The fates of an acquisition allow for one outcome each.  If its transaction is executed, no
   message is both handed on and refused; if it is not, whoever is told at once is told nothing
   else later in the run.
   */
  predicate FatesAllow(s: State, e: Step, rest: seq<Step>)
    requires Enabled(s, e) && Runnable(Apply(s, e), rest)
  {
    match e
    case NameAcquired(t, n, fates) =>
      forall r | r in s.heap[s.table[n]].entries ::
        if Executed(rest, t) then !(r.auto && Reachable(s, r) && FateOf(fates, r).HandedOnAndDenied?)
        else ToldNow(s, r, FateOf(fates, r)) ==> Tellings(Apply(s, e), rest, r.id) == 0
    case PartlyAnswered(t, n, fates, k) =>
      k > |Replies(s, s.heap[s.table[n]].entries)| ==>
        forall r | r in s.heap[s.table[n]].entries :: ToldNow(s, r, FateOf(fates, r)) ==> Tellings(Apply(s, e), rest, r.id) == 0
    case _ => true
  }

  predicate AllFatesAllow(s: State, es: seq<Step>)
    requires Runnable(s, es)
    decreases |es|
  {
    es == [] || (FatesAllow(s, es[0], es[1..]) && AllFatesAllow(Apply(s, es[0]), es[1..]))
  }

  /** Whoever is told something by the step is told one thing, and nothing later. */
  ghost predicate TellsOnce(s: State, e: Step, rest: seq<Step>)
    requires Enabled(s, e) && Runnable(Apply(s, e), rest)
  {
    forall r: nat | Told(Tells(s, e, rest), r) > 0 :: Told(Tells(s, e, rest), r) == 1 && Tellings(Apply(s, e), rest, r) == 0
  }

  /** An executed acquisition. */
  lemma ExecutedAllows(s: State, e: Step, rest: seq<Step>)
    requires Inv(s) && Enabled(s, e) && e.NameAcquired? && Runnable(Apply(s, e), rest) && Executed(rest, e.t)
    ensures FatesAllow(s, e, rest) <==> TellsOnce(s, e, rest)
  {
    hide Inv, Apply, Enabled, Answers, Tellings, Ids;
    var es := EntriesOf(s, e);
    forall r: nat | Told(Words(s, e), r) > 0 ensures Tellings(Apply(s, e), rest, r) == 0 {
      StepKeepsInv(s, e);
      SpeakingIs(s, e);
      StagedByAppend(s.staged, e.t, Words(s, e), e.t);
      NeverTold(Words(s, e), r);
      var o :| o in Words(s, e) && o.req == r;
      assert o in StagedBy(Apply(s, e).staged, e.t);
      HeldIsSilent(Apply(s, e), rest, e.t, r);
    }
    forall r: nat | r !in Ids(es) ensures Told(Words(s, e), r) == 0 { WordsFor(s, e, r); }
    forall i | 0 <= i < |es| ensures Told(Words(s, e), es[i].id) == |AnswerTo(s, es[i], FateOf(e.fates, es[i]))| { WordsTo(s, e, i); }
    if TellsOnce(s, e, rest) {
      forall i | 0 <= i < |es| ensures !(es[i].auto && Reachable(s, es[i]) && FateOf(e.fates, es[i]).HandedOnAndDenied?) {
        assert Told(Tells(s, e, rest), es[i].id) == |AnswerTo(s, es[i], FateOf(e.fates, es[i]))|;
      }
    }
    if FatesAllow(s, e, rest) {
      forall r: nat | Told(Words(s, e), r) > 0 ensures Told(Words(s, e), r) == 1 {
        var i := IndexOf(es, r);
        assert es[i] in es;
      }
    }
  }

  lemma IndexOf(es: seq<Request>, r: nat) returns (i: nat)
    requires r in Ids(es)
    ensures i < |es| && es[i].id == r
  {
    i :| 0 <= i < |es| && es[i].id == r;
  }

  function EntriesOf(s: State, e: Step): seq<Request>
    requires Enabled(s, e) && Speaks(e)
  {
    s.heap[s.table[e.n]].entries
  }

  lemma EntriesInOrder(s: State, e: Step)
    requires Inv(s) && Enabled(s, e) && Speaks(e)
    ensures Increasing(EntriesOf(s, e))
  {
    NumberedOne(s, s.table[e.n]) by { NumbersOf(s); }
  }

  lemma WordsTo(s: State, e: Step, i: nat)
    requires Inv(s) && Enabled(s, e) && e.NameAcquired? && i < |EntriesOf(s, e)|
    ensures var r := EntriesOf(s, e)[i]; Told(Words(s, e), r.id) == |AnswerTo(s, r, FateOf(e.fates, r))|
  {
    EntriesInOrder(s, e);
    AcquisitionTells(s, EntriesOf(s, e), e.fates, i);
  }

  lemma WordsFor(s: State, e: Step, r: nat)
    requires Enabled(s, e) && e.NameAcquired? && r !in Ids(EntriesOf(s, e))
    ensures Told(Words(s, e), r) == 0
  {
    var es := EntriesOf(s, e);
    NotWaiting(s, es, e.fates, r);
    ToldAppend(Replies(s, es), Handovers(s, es, e.fates), r);
  }

  /** One that is cancelled, or never ends. */
  lemma CancelledAllows(s: State, e: Step, rest: seq<Step>)
    requires Inv(s) && Enabled(s, e) && Speaks(e) && Runnable(Apply(s, e), rest) && Tells(s, e, rest) == Early(Answers(s, e.n, e.fates))
    requires ErrorsAtHand(s, EntriesOf(s, e), e.fates, s.ready)
    ensures TellsOnce(s, e, rest) <==>
            forall r | r in EntriesOf(s, e) :: ToldNow(s, r, FateOf(e.fates, r)) ==> Tellings(Apply(s, e), rest, r.id) == 0
  {
    EntriesInOrder(s, e);
    ErrorsAtHandIff(s, EntriesOf(s, e), e.fates, s.ready);
    hide Inv, Apply, Enabled, Tellings, Ids, ToldNow, Tells, ErrorsAtHand;
    var es, os := EntriesOf(s, e), Tells(s, e, rest);
    forall i | 0 <= i < |es| ensures Told(os, es[i].id) == if ToldNow(s, es[i], FateOf(e.fates, es[i])) then 1 else 0 {
      EarlyTold(s, es, e.fates, i);
    }
    forall r: nat | Told(os, r) > 0 ensures r in Ids(es) {
      if r !in Ids(es) {
        NotWaiting(s, es, e.fates, r);
        ToldAppend(Replies(s, es), Handovers(s, es, e.fates), r);
        EarlyNone(Answers(s, e.n, e.fates), r);
        assert false;
      }
    }
    if TellsOnce(s, e, rest) {
      forall i | 0 <= i < |es| && ToldNow(s, es[i], FateOf(e.fates, es[i])) ensures Tellings(Apply(s, e), rest, es[i].id) == 0 {
        assert Told(os, es[i].id) > 0;
      }
    }
    if forall r | r in es :: ToldNow(s, r, FateOf(e.fates, r)) ==> Tellings(Apply(s, e), rest, r.id) == 0 {
      forall r: nat | Told(os, r) > 0 ensures Told(os, r) == 1 && Tellings(Apply(s, e), rest, r) == 0 {
        var i := IndexOf(es, r);
        assert es[i] in es;
      }
    }
  }

  /** One that ran out of memory is never executed, if it has said anything. */
  lemma PartlyAllows(s: State, e: Step, rest: seq<Step>)
    requires Inv(s) && Enabled(s, e) && e.PartlyAnswered? && Runnable(Apply(s, e), rest)
    ensures FatesAllow(s, e, rest) <==> TellsOnce(s, e, rest)
  {
    hide Inv, Tellings, Replies, Handovers, ErrorsAtHand, ReadyAfter, InTxn, Executed;
    var es, all, os := EntriesOf(s, e), Answers(s, e.n, e.fates), Words(s, e);
    if os != [] {
      SpeakingIs(s, e);
      StagedByAppend(s.staged, e.t, os, e.t);
      DoomedIsNotExecuted(Apply(s, e), rest, e.t);
    }
    assert Tells(s, e, rest) == Early(os);
    if e.k > |Replies(s, es)| {
      assert os == all;
      CancelledAllows(s, e, rest);
    } else {
      assert os == Replies(s, es)[..e.k] && Replies(s, es) == os + Replies(s, es)[e.k..];
      NoEarlyReplies(s, es);
      EarlyAppend(os, Replies(s, es)[e.k..]);
    }
  }

  lemma FailedAllows(s: State, e: Step, rest: seq<Step>)
    requires Inv(s) && Enabled(s, e) && e.ActivationFailed? && Runnable(Apply(s, e), rest)
    ensures TellsOnce(s, e, rest)
  {
    var os := Errors(s, s.heap[s.table[e.n]].entries);
    FailChances(s, e.n);
    StepKeepsInv(s, e);
    hide Inv, Errors;
    forall r: nat | Told(os, r) > 0 ensures Told(os, r) == 1 && Tellings(Apply(s, e), rest, r) == 0 {
      ToldOnce(os, r);
      FailAnswers(s, e.n, r);
      AnsweredIsSettled(Apply(s, e), r);
      SettledIsSilent(Apply(s, e), rest, r);
    }
  }

  lemma FailAnswers(s: State, n: Name, r: nat)
    requires Enabled(s, ActivationFailed(n))
    ensures r in ReqsOf(Errors(s, s.heap[s.table[n]].entries)) ==> r in Apply(s, ActivationFailed(n)).answered
  {
    hide Errors;
  }

  lemma StepAllows(s: State, e: Step, rest: seq<Step>)
    requires Inv(s) && Enabled(s, e) && Runnable(Apply(s, e), rest)
    ensures FatesAllow(s, e, rest) <==> TellsOnce(s, e, rest)
  {
    hide Inv, Apply, Tellings;
    if e.NameAcquired? {
      if Executed(rest, e.t) { ExecutedAllows(s, e, rest); } else { CancelledAllows(s, e, rest); }
    } else if e.PartlyAnswered? {
      PartlyAllows(s, e, rest);
    } else if e.ActivationFailed? {
      FailedAllows(s, e, rest);
    }
  }

  ghost predicate OnceInRun(s: State, es: seq<Step>)
    requires Runnable(s, es)
  {
    forall r: nat :: Tellings(s, es, r) <= 1
  }

  lemma {:induction false} RunAllows(s: State, es: seq<Step>)
    requires Inv(s) && Runnable(s, es)
    ensures OnceInRun(s, es) <==> AllFatesAllow(s, es)
    decreases |es|
  {
    if es != [] {
      var e, rest, s1 := es[0], es[1..], Apply(s, es[0]);
      StepKeepsInv(s, e);
      StepAllows(s, e, rest);
      RunAllows(s1, rest);
      hide Inv, Apply, Enabled, FatesAllow, Tells, Told;
      forall r: nat ensures Tellings(s, es, r) == Told(Tells(s, e, rest), r) + Tellings(s1, rest, r) { }
      hide Tellings;
      if OnceInRun(s, es) {
        forall r: nat ensures Tellings(s1, rest, r) <= 1 && (Told(Tells(s, e, rest), r) > 0 ==> Told(Tells(s, e, rest), r) == 1 && Tellings(s1, rest, r) == 0) {
          assert Tellings(s, es, r) <= 1;
        }
      }
      if OnceInRun(s1, rest) && TellsOnce(s, e, rest) {
        forall r: nat ensures Tellings(s, es, r) <= 1 { assert Tellings(s1, rest, r) <= 1; }
      }
    }
  }

  ghost predicate AtMostOneEach(os: seq<Outcome>) { forall r: nat :: Told(os, r) <= 1 }

  /** In every run, nobody is told more than one thing exactly if the fates allow it. */
  lemma AtMostOneOutcomeIff(limit: nat, connected: set<Conn>, es: seq<Step>)
    requires Runnable(Initial(limit, connected), es)
    ensures AtMostOneEach(Run(Initial(limit, connected), es).outcomes) <==> AllFatesAllow(Initial(limit, connected), es)
  {
    var s0 := Initial(limit, connected);
    RunAllows(s0, es);
    hide Tellings, Run;
    var os := Run(s0, es).outcomes;
    forall r: nat ensures Told(os, r) == Tellings(s0, es, r) { TellingsAre(s0, es, r); }
    hide Told;
    if AtMostOneEach(os) {
      forall r: nat ensures Tellings(s0, es, r) <= 1 { assert Told(os, r) <= 1; }
    }
    if OnceInRun(s0, es) {
      forall r: nat ensures Told(os, r) <= 1 { assert Tellings(s0, es, r) <= 1; }
    }
  }
}
