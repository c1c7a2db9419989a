/**
 What a request is and what becomes of it, from the moment it is queued: whose it is, what it
 waits for, and which answers it gets, in plain words.
*/
module ActivationRequests {
  import opened BusTypes
  import opened Activation
  import opened ActivationInvariants
  import opened ActivationTheorems

  // ---- Queueing ----

  /** The command that those who wait for n wait for, if there are any. */
  function CommandFor(s: State, n: Name, exec: Option<Command>): Option<Command> {
    if n in s.table && s.table[n] in s.heap then s.heap[s.table[n]].exec else exec
  }

  /**
   A request is queued last among those that wait for the same name, as it was made; the first one
   decides on the command.  Nobody who waits for another name is affected.
   */
  lemma QueuedIs(s: State, t: TxnId, n: Name, exec: Option<Command>, conn: Option<Conn>, auto: bool)
    requires Inv(s) && Enabled(s, Enqueue(t, n, exec, conn, auto))
    ensures var s' := Apply(s, Enqueue(t, n, exec, conn, auto));
            && n in s'.table && s'.table[n] in s'.heap && s'.table.Keys == s.table.Keys + {n}
            && (forall m | m in s.table && m != n :: s'.table[m] == s.table[m])
            && s'.total == s.total + 1 && s'.nextReq == s.nextReq + 1
            && s'.outcomes == s.outcomes && s'.staged == s.staged && s'.answered == s.answered
    ensures n in s.table ==> s.table[n] in s.heap
    ensures var s' := Apply(s, Enqueue(t, n, exec, conn, auto));
            var p := s'.table[n];
            && (if n in s.table then p == s.table[n] else p == s.nextPid && p !in s.heap)
            && s'.heap[p].name == n && s'.heap[p].exec == CommandFor(s, n, exec)
            && s'.heap[p].entries == (if n in s.table then s.heap[p].entries else []) + [Request(s.nextReq, conn, auto)]
            && s'.heap.Keys == s.heap.Keys + {p}
            && (forall q | q in s.heap && q != p :: s'.heap[q] == s.heap[q])
  {
    TableSound(s);
    hide Inv, Ref;
    var s1 := Appended(s, n, exec, conn, auto);
    AppendedIs(s, n, exec, conn, auto);
    RefIs(s1, s1.table[n]);
    hide Appended;
  }

  /** What the invariant says of names and numbers. */
  lemma TableSound(s: State)
    requires Inv(s)
    ensures (forall n | n in s.table :: s.table[n] in s.heap && s.heap[s.table[n]].name == n) && s.nextPid !in s.heap
    ensures forall p | p in s.heap :: p < s.nextPid
  {
    NumbersOf(s);
    PidsBelow(s);
  }

  lemma AppendedIs(s: State, n: Name, exec: Option<Command>, conn: Option<Conn>, auto: bool)
    requires (n in s.table ==> s.table[n] in s.heap && s.heap[s.table[n]].name == n) && s.nextPid !in s.heap
    ensures var s' := Appended(s, n, exec, conn, auto);
            var p := s'.table[n];
            && s'.table.Keys == s.table.Keys + {n} && (forall m | m in s.table && m != n :: s'.table[m] == s.table[m])
            && s' == s.(heap := s'.heap, table := s'.table, total := s.total + 1, nextPid := s'.nextPid, nextReq := s.nextReq + 1)
            && (if n in s.table then p == s.table[n] else p == s.nextPid)
            && s'.heap[p].name == n && s'.heap[p].exec == CommandFor(s, n, exec)
            && s'.heap[p].entries == (if n in s.table then s.heap[p].entries else []) + [Request(s.nextReq, conn, auto)]
            && s'.heap.Keys == s.heap.Keys + {p} && (forall q | q in s.heap && q != p :: s'.heap[q] == s.heap[q])
  {
  }

  lemma RefIs(s: State, p: Pid)
    requires p in s.heap
    ensures Ref(s, p) == s.(heap := Ref(s, p).heap) && Ref(s, p).heap.Keys == s.heap.Keys
    ensures Ref(s, p).heap[p] == s.heap[p].(refs := s.heap[p].refs + 1) && forall q | q in s.heap && q != p :: Ref(s, p).heap[q] == s.heap[q]
  {
  }

  // ---- Requests stay what they are ----

  /** Pending activations keep their name, their command and their requests, and only gain new ones. */
  ghost predicate KeepsRequests(s: State, s': State) {
    && s.nextPid <= s'.nextPid && s.nextReq <= s'.nextReq
    && forall p | p in s'.heap ::
         if p in s.heap then
           && s'.heap[p].name == s.heap[p].name && s'.heap[p].exec == s.heap[p].exec
           && |s.heap[p].entries| <= |s'.heap[p].entries| && s'.heap[p].entries[..|s.heap[p].entries|] == s.heap[p].entries
           && (forall i | |s.heap[p].entries| <= i < |s'.heap[p].entries| :: s'.heap[p].entries[i].id >= s.nextReq)
         else
           p >= s.nextPid && forall r | r in s'.heap[p].entries :: r.id >= s.nextReq
  }

  lemma SamePending(s: State, s': State)
    requires s'.nextPid == s.nextPid && s'.nextReq == s.nextReq
    requires forall p | p in s'.heap :: p in s.heap && s'.heap[p] == s.heap[p].(refs := s'.heap[p].refs)
    ensures KeepsRequests(s, s')
  {
  }

  lemma UnrefKeeps(s: State, p: Pid)
    requires p in s.heap
    ensures KeepsRequests(s, Unref(s, p))
  {
    SamePending(s, Unref(s, p));
  }

  lemma RemoveKeepsRequests(s: State, n: Name)
    requires n in s.table ==> s.table[n] in s.heap
    ensures KeepsRequests(s, Remove(s, n))
  {
    hide Unref;
    if n in s.table {
      var s1 := s.(table := s.table - {n});
      UnrefKeeps(s1, s.table[n]);
    }
  }

  lemma RunHookKeepsRequests(s: State, i: nat)
    requires Enabled(s, HookRuns(i))
    ensures KeepsRequests(s, RunHook(s, i))
  {
    var h := s.hooks[i];
    var s1 := s.(hooks := s.hooks[i := h.(spent := true)]);
    match h.kind {
      case CancelPending => RemoveKeepsRequests(s1, s.heap[h.pid].name);
      case RestorePending => SamePending(s, Restore(s1, h.pid));
    }
  }

  lemma AppendKeepsRequests(s: State, n: Name, exec: Option<Command>, conn: Option<Conn>, auto: bool)
    requires n in s.table ==> s.table[n] in s.heap
    requires n !in s.table ==> s.nextPid !in s.heap
    ensures KeepsRequests(s, Appended(s, n, exec, conn, auto))
  {
  }

  lemma {:induction false} KeepsOn(s: State, s': State, s'': State)
    requires KeepsRequests(s, s') && KeepsRequests(s', s'') && forall p | p in s.heap :: p < s.nextPid
    ensures KeepsRequests(s, s'')
  {
    forall p | p in s''.heap
      ensures if p in s.heap then
                && s''.heap[p].name == s.heap[p].name && s''.heap[p].exec == s.heap[p].exec
                && |s.heap[p].entries| <= |s''.heap[p].entries| && s''.heap[p].entries[..|s.heap[p].entries|] == s.heap[p].entries
                && (forall i | |s.heap[p].entries| <= i < |s''.heap[p].entries| :: s''.heap[p].entries[i].id >= s.nextReq)
              else
                p >= s.nextPid && forall r | r in s''.heap[p].entries :: r.id >= s.nextReq
    {
      if p in s'.heap {
        var a, b := s'.heap[p].entries, s''.heap[p].entries;
        assert forall i | 0 <= i < |a| :: b[..|a|][i] == b[i];
        assert forall i | 0 <= i < |a| :: b[i] == a[i] && a[i] in a;
        if p in s.heap {
          var c := s.heap[p].entries;
          assert b[..|c|] == b[..|a|][..|c|];
        }
      }
    }
  }

  lemma EnqueueKeepsRequests(s: State, t: TxnId, n: Name, exec: Option<Command>, conn: Option<Conn>, auto: bool)
    requires Inv(s) && Enabled(s, Enqueue(t, n, exec, conn, auto))
    ensures KeepsRequests(s, Apply(s, Enqueue(t, n, exec, conn, auto))) && KeepsRequests(s, Remove(Appended(s, n, exec, conn, auto), n))
  {
    hide KeepsRequests, Inv, Appended, Ref, Remove;
    TableSound(s);
    var s1 := Appended(s, n, exec, conn, auto);
    AppendKeepsRequests(s, n, exec, conn, auto);
    HookKeepsRequests(s1, t, s1.table[n]);
    KeepsOn(s, s1, Hooked(s1, t, CancelPending, s1.table[n]));
    RemoveKeepsRequests(s1, n);
    KeepsOn(s, s1, Remove(s1, n));
  }

  lemma HookKeepsRequests(s: State, t: TxnId, p: Pid)
    requires p in s.heap
    ensures KeepsRequests(s, Hooked(s, t, CancelPending, p))
  {
    SamePending(s, Hooked(s, t, CancelPending, p));
  }

  lemma PidsBelow(s: State)
    requires Numbered(s.heap, s.nextPid, s.nextReq)
    ensures forall p | p in s.heap :: p < s.nextPid
  {
  }

  lemma AcquiredKeepsRequests(s: State, t: TxnId, n: Name, fates: map<nat, Fate>)
    requires n in s.table && s.table[n] in s.heap && forall p | p in s.heap :: p < s.nextPid
    ensures KeepsRequests(s, ApplyAcquired(s, t, n, fates))
  {
    hide KeepsRequests, Answers, ReadyAfter;
    var s1 := Hooked(Say(s, t, Answers(s, n, fates)), t, RestorePending, s.table[n]);
    SamePending(s, s1);
    RemoveKeepsRequests(s1, n);
    KeepsOn(s, s1, Remove(s1, n));
    SamePending(Remove(s1, n), ApplyAcquired(s, t, n, fates));
    KeepsOn(s, Remove(s1, n), ApplyAcquired(s, t, n, fates));
  }

  lemma StepKeepsRequests(s: State, e: Step)
    requires Inv(s) && Enabled(s, e)
    ensures KeepsRequests(s, Apply(s, e))
  {
    hide KeepsRequests, Inv, ErrorsAtHand, Answers, ReadyAfter;
    TableSound(s);
    match e {
      case Enqueue(t, n, exec, conn, auto) => EnqueueKeepsRequests(s, t, n, exec, conn, auto);
      case EnqueueUnhooked(t, n, exec, conn, auto) =>
        EnqueueKeepsRequests(s, t, n, exec, conn, auto);
        var s1 := Remove(Appended(s, n, exec, conn, auto), n);
        SamePending(s1, Apply(s, e));
        KeepsOn(s, s1, Apply(s, e));
      case GiveUp(n) => RemoveKeepsRequests(s, n);
      case NameAcquired(t, n, fates) => AcquiredKeepsRequests(s, t, n, fates);
      case ActivationFailed(n) =>
        var os := Errors(s, s.heap[s.table[n]].entries);
        var s1 := s.(outcomes := s.outcomes + os, answered := s.answered + ReqsOf(os));
        SamePending(s, s1);
        RemoveKeepsRequests(s1, n);
        KeepsOn(s, s1, Remove(s1, n));
      case HookRuns(i) => RunHookKeepsRequests(s, i);
      case HookFreed(i) =>
        var s1 := s.(hooks := s.hooks[..i] + s.hooks[i + 1..]);
        SamePending(s, s1);
        UnrefKeeps(s1, s.hooks[i].pid);
        KeepsOn(s, s1, Unref(s1, s.hooks[i].pid));
      case _ => SamePending(s, Apply(s, e));
    }
  }

  lemma {:induction false} RunKeepsRequests(s: State, es: seq<Step>)
    requires Inv(s) && Runnable(s, es)
    ensures KeepsRequests(s, Run(s, es))
    decreases |es|
  {
    if es == [] {
      SamePending(s, s);
    } else {
      hide KeepsRequests, Inv, Apply, Enabled;
      StepKeepsInv(s, es[0]);
      StepKeepsRequests(s, es[0]);
      RunKeepsRequests(Apply(s, es[0]), es[1..]);
      TableSound(s);
      KeepsOn(s, Apply(s, es[0]), Run(Apply(s, es[0]), es[1..]));
    }
  }

  /** Wherever a request still waits after any run, it is the one that was queued: for the same name, the same requester, the same way. */
  lemma RequestStays(s: State, t: TxnId, n: Name, exec: Option<Command>, conn: Option<Conn>, auto: bool, es: seq<Step>, p: Pid, r: Request)
    requires Inv(s) && Enabled(s, Enqueue(t, n, exec, conn, auto)) && Runnable(Apply(s, Enqueue(t, n, exec, conn, auto)), es)
    requires var u := Run(Apply(s, Enqueue(t, n, exec, conn, auto)), es); p in u.heap && r in u.heap[p].entries && r.id == s.nextReq
    ensures var u := Run(Apply(s, Enqueue(t, n, exec, conn, auto)), es);
            r == Request(s.nextReq, conn, auto) && u.heap[p].name == n && u.heap[p].exec == CommandFor(s, n, exec)
  {
    hide Inv, Apply, Enabled, Run, Runnable, KeepsRequests, Numbered;
    var e := Enqueue(t, n, exec, conn, auto);
    var s1 := Apply(s, e);
    QueuedIs(s, t, n, exec, conn, auto);
    StepKeepsInv(s, e);
    RunKeepsRequests(s1, es);
    RequestsBelow(s);
    StillTheSame(s1, Run(s1, es), p, r);
    assert p == s1.table[n];
    var before := if n in s.table then s.heap[p].entries else [];
    assert r in before + [Request(s.nextReq, conn, auto)] && r !in before;
  }

  lemma RequestsBelow(s: State)
    requires Inv(s)
    ensures forall q, x | q in s.heap && x in s.heap[q].entries :: x.id < s.nextReq
  {
    NumbersOf(s);
  }

  /** A request with an old number is one of those that were there. */
  lemma StillTheSame(s1: State, u: State, p: Pid, r: Request)
    requires KeepsRequests(s1, u) && p in u.heap && r in u.heap[p].entries && r.id < s1.nextReq
    ensures p in s1.heap && r in s1.heap[p].entries && u.heap[p].name == s1.heap[p].name && u.heap[p].exec == s1.heap[p].exec
  {
    var i :| 0 <= i < |u.heap[p].entries| && u.heap[p].entries[i] == r;
    assert u.heap[p].entries[..|s1.heap[p].entries|][i] == s1.heap[p].entries[i];
  }

  // ---- Answers ----

  /** What r has been told, in order. */
  function KindsFor(os: seq<Outcome>, r: nat): seq<Kind> {
    if os == [] then [] else (if os[0].req == r then [os[0].kind] else []) + KindsFor(os[1..], r)
  }

  lemma {:induction false} KindsAppend(a: seq<Outcome>, b: seq<Outcome>, r: nat)
    ensures KindsFor(a + b, r) == KindsFor(a, r) + KindsFor(b, r)
  {
    if a == [] {
      assert a + b == b;
    } else {
      assert (a + b)[1..] == a[1..] + b && (a + b)[0] == a[0];
      KindsAppend(a[1..], b, r);
      Regroup(if a[0].req == r then [a[0].kind] else [], KindsFor(a[1..], r), KindsFor(b, r));
    }
  }

  lemma {:induction false} NoKinds(os: seq<Outcome>, r: nat)
    requires Told(os, r) == 0
    ensures KindsFor(os, r) == []
  {
    if os != [] { NoKinds(os[1..], r); }
  }

  /** All that is said to one request by an acquisition, in the order in which it is said. */
  lemma {:induction false} AnswersFor(s: State, es: seq<Request>, fates: map<nat, Fate>, i: nat)
    requires Increasing(es) && i < |es|
    ensures KindsFor(Replies(s, es), es[i].id) == KindsFor(ReplyTo(s, es[i]), es[i].id)
    ensures KindsFor(Early(Handovers(s, es, fates)), es[i].id) == KindsFor(Early(HandoverOf(s, es[i], FateOf(fates, es[i]))), es[i].id)
    ensures KindsFor(Late(Handovers(s, es, fates)), es[i].id) == KindsFor(Late(HandoverOf(s, es[i], FateOf(fates, es[i]))), es[i].id)
  {
    hide ReplyTo, HandoverOf, Early, Late, KindsFor;
    var first, rest, r := es[0], es[1..], es[i].id;
    var mine := HandoverOf(s, first, FateOf(fates, first));
    assert forall k | 0 <= k < |rest| :: rest[k] == es[k + 1];
    KindsAppend(ReplyTo(s, first), Replies(s, rest), r);
    EarlyAppend(mine, Handovers(s, rest, fates));
    LateAppend(mine, Handovers(s, rest, fates));
    KindsAppend(Early(mine), Early(Handovers(s, rest, fates)), r);
    KindsAppend(Late(mine), Late(Handovers(s, rest, fates)), r);
    if i == 0 {
      NotWaiting(s, rest, fates, r);
      Silent(Handovers(s, rest, fates), r);
      NoKinds(Replies(s, rest), r);
    } else {
      AnswersFor(s, rest, fates, i - 1);
      OnlyItself(s, first, FateOf(fates, first), r);
      Silent(mine, r);
      NoKinds(ReplyTo(s, first), r);
    }
  }

  lemma Silent(os: seq<Outcome>, r: nat)
    requires Told(os, r) == 0
    ensures KindsFor(Early(os), r) == [] && KindsFor(Late(os), r) == []
  {
    EarlyAndLate(os, r);
    NoKinds(Early(os), r);
    NoKinds(Late(os), r);
  }

  lemma {:induction false} LateAppend(a: seq<Outcome>, b: seq<Outcome>)
    ensures Late(a + b) == Late(a) + Late(b)
  {
    if a == [] {
      assert a + b == b;
    } else {
      assert (a + b)[1..] == a[1..] + b && (a + b)[0] == a[0];
      LateAppend(a[1..], b);
      Regroup([a[0]], Late(a[1..]), Late(b));
    }
  }

  lemma {:induction false} RepliesAreLate(s: State, es: seq<Request>)
    ensures Early(Replies(s, es)) == [] && Late(Replies(s, es)) == Replies(s, es)
  {
    if es != [] {
      RepliesAreLate(s, es[1..]);
      EarlyAppend(ReplyTo(s, es[0]), Replies(s, es[1..]));
      LateAppend(ReplyTo(s, es[0]), Replies(s, es[1..]));
    }
  }

  /** What a request is told when its service has come up, and the dispatch of its message, if it has one, ends as fate says. */
  function Answer(connected: set<Conn>, conn: Option<Conn>, auto: bool, fate: Fate): seq<Kind> {
    if conn.Some? && conn.value !in connected then []
    else if !auto then (if conn.None? then [] else [Started])
    else if conn.None? then (if fate.Denied? then [] else [PassedOn])
    else
      match fate
      case HandedOn => [PassedOn]
      case Denied(now) => [if now then OutOfMemory else ErrorReply]
      case HandedOnAndDenied(now) => if now then [OutOfMemory, PassedOn] else [PassedOn, ErrorReply]
  }

  lemma AnswerIs(s: State, r: Request, f: Fate)
    ensures KindsFor(Early(HandoverOf(s, r, f)), r.id) + KindsFor(ReplyTo(s, r), r.id) + KindsFor(Late(HandoverOf(s, r, f)), r.id)
         == Answer(s.connected, r.conn, r.auto, f)
  {
    var os := HandoverOf(s, r, f);
    if |os| == 1 {
      SplitOne(os[0]);
      assert os == [os[0]];
    } else if |os| == 2 {
      SplitOne(os[0]);
      SplitOne(os[1]);
      EarlyAppend([os[0]], [os[1]]);
      LateAppend([os[0]], [os[1]]);
      assert os == [os[0]] + [os[1]];
    }
    OneKind(r.id, PassedOn);
    OneKind(r.id, Started);
    OneKind(r.id, OutOfMemory);
    OneKind(r.id, ErrorReply);
  }

  lemma SplitOne(o: Outcome)
    ensures Early([o]) == (if o.kind.OutOfMemory? then [o] else []) && Late([o]) == (if o.kind.OutOfMemory? then [] else [o])
  {
    assert [o][1..] == [];
  }

  lemma OneKind(r: nat, k: Kind)
    ensures KindsFor([Outcome(r, k)], r) == [k] && KindsFor([], r) == []
  {
    assert [Outcome(r, k)][1..] == [];
  }

  /** An acquisition that is executed tells every request that waits exactly its answer. */
  lemma AcquisitionAnswers(s: State, t: TxnId, n: Name, fates: map<nat, Fate>, r: Request)
    requires Inv(s) && Fresh(s, t) && Enabled(s, NameAcquired(t, n, fates)) && r in s.heap[s.table[n]].entries
    ensures var s1 := Apply(s, NameAcquired(t, n, fates));
            && Enabled(s1, DeliverAll(t))
            && KindsFor(Apply(s1, DeliverAll(t)).outcomes, r.id)
               == KindsFor(s.outcomes, r.id) + Answer(s.connected, r.conn, r.auto, if r.id in fates then fates[r.id] else HandedOn)
  {
    var es := s.heap[s.table[n]].entries;
    var i :| 0 <= i < |es| && es[i] == r;
    var a, b := Replies(s, es), Handovers(s, es, fates);
    NumberedOne(s, s.table[n]) by { NumbersOf(s); }
    AcquiredOutcomes(s, t, n, fates);
    hide Inv, Apply, Enabled, Early, Late, Replies, Handovers, ReplyTo, HandoverOf, KindsFor, Answer, Fresh;
    EarlyAppend(a, b);
    LateAppend(a, b);
    RepliesAreLate(s, es);
    assert [] + Early(b) == Early(b);
    KindsAppend(s.outcomes + Early(b), a + Late(b), r.id);
    KindsAppend(s.outcomes, Early(b), r.id);
    KindsAppend(a, Late(b), r.id);
    AnswersFor(s, es, fates, i);
    AnswerIs(s, r, FateOf(fates, r));
    var x, y, z := KindsFor(Early(b), r.id), KindsFor(a, r.id), KindsFor(Late(b), r.id);
    Regroup(KindsFor(s.outcomes, r.id), x, y + z);
    Regroup(x, y, z);
  }

  lemma AcquiredOutcomes(s: State, t: TxnId, n: Name, fates: map<nat, Fate>)
    requires Inv(s) && Fresh(s, t) && Enabled(s, NameAcquired(t, n, fates))
    ensures var s1 := Apply(s, NameAcquired(t, n, fates));
            var os := Replies(s, s.heap[s.table[n]].entries) + Handovers(s, s.heap[s.table[n]].entries, fates);
            Enabled(s1, DeliverAll(t)) && Apply(s1, DeliverAll(t)).outcomes == s.outcomes + Early(os) + Late(os)
  {
    hide Inv, Replies, Handovers, Early, Late, ErrorsAtHand, ReadyAfter, StagedBy;
    var os := Answers(s, n, fates);
    StagedByAppend(s.staged, t, os, t);
    assert [] + os == os;
  }

  /** A failed activation tells every request whose requester is still there of the error, and no other. */
  lemma FailureAnswers(s: State, n: Name, r: Request)
    requires Inv(s) && Enabled(s, ActivationFailed(n)) && r in s.heap[s.table[n]].entries
    ensures KindsFor(Apply(s, ActivationFailed(n)).outcomes, r.id)
         == KindsFor(s.outcomes, r.id) + if r.conn.Some? && r.conn.value in s.connected then [ErrorReply] else []
    ensures n !in Apply(s, ActivationFailed(n)).table
  {
    var es := s.heap[s.table[n]].entries;
    var i :| 0 <= i < |es| && es[i] == r;
    NumberedOne(s, s.table[n]) by { NumbersOf(s); }
    FailedOutcomes(s, n);
    hide Inv, Apply, Enabled, Errors, KindsFor;
    KindsAppend(s.outcomes, Errors(s, es), r.id);
    ErrorsFor(s, es, i);
  }

  lemma FailedOutcomes(s: State, n: Name)
    requires Enabled(s, ActivationFailed(n))
    ensures var s' := Apply(s, ActivationFailed(n)); s'.outcomes == s.outcomes + Errors(s, s.heap[s.table[n]].entries) && n !in s'.table
  {
    hide Errors;
  }

  lemma {:induction false} ErrorsFor(s: State, es: seq<Request>, i: nat)
    requires Increasing(es) && i < |es|
    ensures KindsFor(Errors(s, es), es[i].id) == if es[i].conn.Some? && es[i].conn.value in s.connected then [ErrorReply] else []
  {
    var first, rest, r := es[0], es[1..], es[i].id;
    assert forall k | 0 <= k < |rest| :: rest[k] == es[k + 1];
    var mine := if Reachable(s, first) then [Outcome(first.id, ErrorReply)] else [];
    assert mine != [] ==> mine[1..] == [];
    KindsAppend(mine, Errors(s, rest), r);
    if i == 0 {
      ErrorsFrom(s, rest);
      NoErrorsFor(s, rest, r);
    } else {
      ErrorsFor(s, rest, i - 1);
    }
  }

  lemma {:induction false} NoErrorsFor(s: State, es: seq<Request>, r: nat)
    requires forall k | 0 <= k < |es| :: es[k].id != r
    ensures KindsFor(Errors(s, es), r) == []
  {
    if es != [] {
      assert forall k | 0 <= k < |es[1..]| :: es[1..][k] == es[k + 1];
      NoErrorsFor(s, es[1..], r);
      var mine := if Reachable(s, es[0]) then [Outcome(es[0].id, ErrorReply)] else [];
      assert mine != [] ==> mine[1..] == [];
      KindsAppend(mine, Errors(s, es[1..]), r);
    }
  }

  // ---- From beginning to end ----

  /**
   From the request to its answer: queued in any state, after any run in which it still waits, an
   executed acquisition of the name tells it what is due to the one who made it.  In particular an
   explicit request that is still connected is told Started and nothing else, and the message of an
   auto-start request is passed on, if its dispatch succeeds.
   */
  lemma RequestIsAnswered(s: State, t: TxnId, n: Name, exec: Option<Command>, conn: Option<Conn>, auto: bool, es: seq<Step>,
                          t2: TxnId, fates: map<nat, Fate>)
    requires Inv(s) && Enabled(s, Enqueue(t, n, exec, conn, auto)) && Runnable(Apply(s, Enqueue(t, n, exec, conn, auto)), es)
    requires var u := Run(Apply(s, Enqueue(t, n, exec, conn, auto)), es);
             && Fresh(u, t2) && Enabled(u, NameAcquired(t2, n, fates))
             && exists r :: r in u.heap[u.table[n]].entries && r.id == s.nextReq
    ensures var u := Run(Apply(s, Enqueue(t, n, exec, conn, auto)), es);
            var u1 := Apply(u, NameAcquired(t2, n, fates));
            var fate := if s.nextReq in fates then fates[s.nextReq] else HandedOn;
            && Enabled(u1, DeliverAll(t2))
            && KindsFor(Apply(u1, DeliverAll(t2)).outcomes, s.nextReq) == KindsFor(u.outcomes, s.nextReq) + Answer(u.connected, conn, auto, fate)
            && (conn.Some? && conn.value in u.connected && !auto ==> Answer(u.connected, conn, auto, fate) == [Started])
            && (conn.Some? && conn.value in u.connected && auto && fate == HandedOn ==> Answer(u.connected, conn, auto, fate) == [PassedOn])
  {
    hide Inv, Apply, Run, Runnable, KindsFor, Fresh, ErrorsAtHand;
    var e := Enqueue(t, n, exec, conn, auto);
    var u := Run(Apply(s, e), es);
    StepKeepsInv(s, e);
    EveryRunKeepsInv(Apply(s, e), es);
    var r :| r in u.heap[u.table[n]].entries && r.id == s.nextReq;
    RequestStays(s, t, n, exec, conn, auto, es, u.table[n], r);
    AcquisitionAnswers(u, t2, n, fates, r);
  }

  /** The end of its own transaction is such a run: the request then waits on its own. */
  lemma RequestOutlivesTransaction(s: State, t: TxnId, n: Name, exec: Option<Command>, conn: Option<Conn>, auto: bool)
    requires Inv(s) && Fresh(s, t) && Enabled(s, Enqueue(t, n, exec, conn, auto))
    ensures var s1 := Apply(s, Enqueue(t, n, exec, conn, auto));
            && Enabled(s1, DeliverAll(t))
            && var s2 := Apply(s1, DeliverAll(t));
               && Enabled(s2, HookFreed(0))
               && var s3 := Apply(s2, HookFreed(0));
                  && Enabled(s3, End(t))
                  && var s4 := Apply(s3, End(t));
                     && n in s4.table && s4.table[n] in s4.heap && Request(s.nextReq, conn, auto) in s4.heap[s4.table[n]].entries
                     && s4.outcomes == s.outcomes && s4.hooks == s.hooks && s4.total == s.total + 1 && t !in s4.open
  {
    QueuedIs(s, t, n, exec, conn, auto);
    var s1 := Apply(s, Enqueue(t, n, exec, conn, auto));
    QueuedHook(s, t, n, exec, conn, auto);
    NoneOfItsOwn(s.staged, t);
    NoneMarked(s.hooks, t);
    hide Inv;
    EndOfRequest(s1, t, s1.table[n], s.hooks);
  }

  lemma QueuedHook(s: State, t: TxnId, n: Name, exec: Option<Command>, conn: Option<Conn>, auto: bool)
    requires Inv(s) && Enabled(s, Enqueue(t, n, exec, conn, auto))
    ensures var s1 := Apply(s, Enqueue(t, n, exec, conn, auto));
            && n in s1.table && s1.hooks == [Hook(t, CancelPending, s1.table[n], false)] + s.hooks && s1.table[n] in s1.heap
            && s1.heap[s1.table[n]].refs >= 2 && s1.doomed == s.doomed && s1.open == s.open
  {
    hide OneChance, AnsweredGone, Booked, Spoken, AtMostTwice, Summed, Numbered, Mentions;
    if n in s.table { assert s.heap[s.table[n]].refs >= 1; }
  }

  /** Executing t when all it has is one hook, on p. */
  lemma EndOfRequest(s1: State, t: TxnId, p: Pid, hooks: seq<Hook>)
    requires s1.hooks == [Hook(t, CancelPending, p, false)] + hooks && p in s1.heap && s1.heap[p].refs >= 2
    requires t in s1.open && t !in s1.doomed && StagedBy(s1.staged, t) == [] && StagedByOthers(s1.staged, t) == s1.staged
    requires MarkSpent(hooks, t) == hooks && NextToFree(hooks, t) == |hooks|
    ensures Enabled(s1, DeliverAll(t))
    ensures var s2 := Apply(s1, DeliverAll(t));
            && Enabled(s2, HookFreed(0))
            && var s3 := Apply(s2, HookFreed(0));
               && Enabled(s3, End(t))
               && var s4 := Apply(s3, End(t));
                  && s4.table == s1.table && s4.heap == s1.heap[p := s1.heap[p].(refs := s1.heap[p].refs - 1)]
                  && s4.outcomes == s1.outcomes && s4.hooks == hooks && s4.total == s1.total && t !in s4.open
  {
    DeliveredHook(s1, t, p, hooks);
    hide Deliver, MarkSpent, StagedBy, StagedByOthers;
    var s2 := Deliver(s1, t);
    assert s2.hooks[..0] + s2.hooks[1..] == hooks;
  }

  lemma DeliveredHook(s1: State, t: TxnId, p: Pid, hooks: seq<Hook>)
    requires s1.hooks == [Hook(t, CancelPending, p, false)] + hooks && MarkSpent(hooks, t) == hooks
    requires StagedBy(s1.staged, t) == [] && StagedByOthers(s1.staged, t) == s1.staged
    ensures var s2 := Deliver(s1, t);
            s2 == s1.(hooks := [Hook(t, CancelPending, p, true)] + hooks, answered := s2.answered, doubled := s2.doubled)
  {
    assert s1.hooks[1..] == hooks;
    assert s1.outcomes + [] == s1.outcomes;
  }

  lemma {:induction false} NoneMarked(hooks: seq<Hook>, t: TxnId)
    requires NextToFree(hooks, t) == |hooks|
    ensures MarkSpent(hooks, t) == hooks
  {
    assert forall i | 0 <= i < |hooks| :: MarkSpent(hooks, t)[i] == hooks[i];
  }

  // ---- The other steps ----

  /** Some hook refers to p. */
  predicate HookedAnywhere(s: State, p: Pid) { exists i :: 0 <= i < |s.hooks| && s.hooks[i].pid == p }

  /** Giving up on n takes it from the table; its requests are gone with it, unless a hook still holds on to them. */
  lemma GiveUpIs(s: State, n: Name)
    requires Inv(s) && n in s.table
    ensures Enabled(s, GiveUp(n))
    ensures var s', p := Apply(s, GiveUp(n)), s.table[n];
            && s'.table == s.table - {n} && p in s.heap
            && (p in s'.heap <==> HookedAnywhere(s, p))
            && s'.total == s.total - (if HookedAnywhere(s, p) then 0 else |s.heap[p].entries|)
            && (forall q | q in s.heap && q != p :: q in s'.heap && s'.heap[q] == s.heap[q])
            && s'.outcomes == s.outcomes && s'.staged == s.staged
  {
    hide OneChance, AnsweredGone, Booked, Spoken, AtMostTwice, Numbered, Sum;
    var p := s.table[n];
    assert s.heap[p].refs == InTable(s, p) + Mentions(s.hooks, p) + Owed(None, p);
    MentionsNone(s.hooks, p);
  }

  /** A hook that cancels a request takes its name from the table; one that restores puts its own pending activation back, in place of any other. */
  lemma HookRunIs(s: State, i: nat)
    requires Inv(s) && Enabled(s, HookRuns(i))
    ensures var s', h := Apply(s, HookRuns(i)), s.hooks[i];
            var n := s.heap[h.pid].name;
            && s'.hooks == s.hooks[i := h.(spent := true)]
            && (h.kind == CancelPending ==> s'.table == s.table - {n})
            && (h.kind == RestorePending ==> s'.table == s.table[n := h.pid])
            && (forall q | q in s.heap && q != h.pid && !(n in s.table && s.table[n] == q) :: q in s'.heap && s'.heap[q] == s.heap[q])
            && s'.outcomes == s.outcomes && s'.staged == s.staged
  {
    hide Inv;
  }

  /** Connecting and disconnecting. */
  lemma ConnectedIs(s: State, c: Conn, d: Conn)
    ensures d in Apply(s, Connect(c)).connected <==> d == c || d in s.connected
    ensures d in Apply(s, Disconnect(c)).connected <==> d != c && d in s.connected
    ensures d in Apply(s, Disconnect(c)).ready <==> d != c && d in s.ready
    ensures d in Apply(s, Preallocate(c)).ready <==> d == c || d in s.ready
  {
  }

  /** Who still has a preallocated error after an acquisition: those who had one and were not told at once. */
  lemma {:induction false} StillReadyIff(s: State, es: seq<Request>, fates: map<nat, Fate>, ready: set<Conn>, c: Conn)
    ensures c in ReadyAfter(s, es, fates, ready) <==>
            c in ready && forall i | 0 <= i < |es| :: !(es[i].conn == Some(c) && es[i].auto && c in s.connected
                                                        && var f := FateOf(fates, es[i]); f != HandedOn && f.now)
  {
    hide FateOf;
    if es != [] {
      var gone := if es[0].conn.Some? then {es[0].conn.value} else {};
      assert forall i | 0 <= i < |es[1..]| :: es[1..][i] == es[i + 1];
      StillReadyIff(s, es[1..], fates, ready, c);
      StillReadyIff(s, es[1..], fates, ready - gone, c);
    }
  }
}
