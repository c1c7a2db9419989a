/** bus/activation.c as it changes its tables, step by step. */
module ActivationCode {
  import opened BusTypes
  import opened Activation
  import opened ActivationInvariants

  /** What a request to start a service comes to; NotStarted is for want of memory, or because the command cannot be run. */
  datatype Activated = Accepted | TooMany | NoSuchService | NotAllowed | NotStarted

  /** How far an acquisition gets. */
  datatype Answered = AllAnswered | ShortOfMemory | Aborted

  const SYSTEMD: Name := 0   // org.freedesktop.systemd1

  /** What a .service file says. */
  datatype Service = Service(exec: Command, unit: Option<Name>)

  lemma {:induction false} RunConcat(s: State, es: seq<Step>, more: seq<Step>)
    requires Runnable(s, es) && Runnable(Run(s, es), more)
    ensures Runnable(s, es + more) && Run(s, es + more) == Run(Run(s, es), more)
    decreases |es|
  {
    if es == [] {
      assert es + more == more;
    } else {
      assert (es + more)[1..] == es[1..] + more;
      RunConcat(Apply(s, es[0]), es[1..], more);
    }
  }

  /** es leads from s to s', both of them sound. */
  ghost predicate Led(s: State, es: seq<Step>, s': State) { Inv(s') && Runnable(s, es) && Run(s, es) == s' }

  lemma NothingLed(s: State)
    requires Inv(s)
    ensures Led(s, [], s)
  {
  }

  lemma LedOne(s: State, e: Step)
    requires Inv(s) && Enabled(s, e)
    ensures Led(s, [e], Apply(s, e))
  {
    StepKeepsInv(s, e);
    assert [e][1..] == [];
  }

  lemma LedWell(s: State, es: seq<Step>, s': State)
    requires Led(s, es, s')
    ensures Inv(s')
  {
  }

  lemma LedOn(s: State, es: seq<Step>, s': State, more: seq<Step>, s'': State)
    requires Led(s, es, s') && Led(s', more, s'')
    ensures Led(s, es + more, s'')
  {
    RunConcat(s, es, more);
  }

  function Unspent(hooks: seq<Hook>, t: TxnId): nat {
    if hooks == [] then 0 else (if hooks[0].txn == t && !hooks[0].spent then 1 else 0) + Unspent(hooks[1..], t)
  }

  lemma {:induction false} SpendOne(hooks: seq<Hook>, t: TxnId, i: nat)
    requires i < |hooks| && hooks[i].txn == t && !hooks[i].spent
    ensures Unspent(hooks[i := hooks[i].(spent := true)], t) < Unspent(hooks, t)
  {
    var r := hooks[i := hooks[i].(spent := true)];
    if i == 0 {
      assert r[1..] == hooks[1..];
    } else {
      assert r[1..] == hooks[1..][i - 1 := hooks[i].(spent := true)];
      SpendOne(hooks[1..], t, i - 1);
    }
  }

  predicate AllSpent(hooks: seq<Hook>, t: TxnId) { forall i | 0 <= i < |hooks| && hooks[i].txn == t :: hooks[i].spent }

  lemma CanRun(s: State, i: nat)
    requires Inv(s) && i < |s.hooks| && !s.hooks[i].spent && StagedBy(s.staged, s.hooks[i].txn) == []
    ensures Enabled(s, HookRuns(i)) && Apply(s, HookRuns(i)).hooks == s.hooks[i := s.hooks[i].(spent := true)]
    ensures Apply(s, HookRuns(i)).staged == s.staged && Apply(s, HookRuns(i)).open == s.open
  {
  }

  lemma CanFreeHook(s: State, i: nat)
    requires Inv(s) && i < |s.hooks| && s.hooks[i].spent
    ensures Enabled(s, HookFreed(i)) && Apply(s, HookFreed(i)).hooks == s.hooks[..i] + s.hooks[i + 1..]
    ensures Apply(s, HookFreed(i)).staged == s.staged && Apply(s, HookFreed(i)).open == s.open
  {
  }

  lemma CanEnd(s: State, t: TxnId)
    requires t in s.open && StagedBy(s.staged, t) == [] && NextToFree(s.hooks, t) == |s.hooks|
    ensures Enabled(s, End(t)) && Apply(s, End(t)) == s.(open := s.open - {t}, doomed := s.doomed - {t})
  {
  }

  // ---- How a transaction ends ----

  /** Once its messages are gone: its hooks run, newest first, then they are freed in the same order, then it is over. */
  function EndingStep(s: State, t: TxnId): Step {
    var i, j := NextToRun(s.hooks, t), NextToFree(s.hooks, t);
    if i < |s.hooks| then HookRuns(i) else if j < |s.hooks| then HookFreed(j) else End(t)
  }

  predicate InTurn(s: State, es: seq<Step>, t: TxnId)
    requires Runnable(s, es)
    decreases |es|
  {
    es == [] || (es[0] == EndingStep(s, t) && InTurn(Apply(s, es[0]), es[1..], t))
  }

  ghost predicate Ending(s: State, es: seq<Step>, s': State, t: TxnId) { Led(s, es, s') && InTurn(s, es, t) }

  /** A step of the transaction t in which the daemon starts systemd. */
  predicate Nested(e: Step, t: TxnId) {
    e in {Activation.Begin(t), Enqueue(t, SYSTEMD, None, None, true), EnqueueUnhooked(t, SYSTEMD, None, None, true), DeliverAll(t), DropAll(t), End(t)}
    || e.HookRuns? || e.HookFreed?
  }

  lemma {:induction false} EndingShape(s: State, es: seq<Step>, s': State, t: TxnId)
    requires Ending(s, es, s', t)
    ensures forall k | 0 <= k < |es| :: es[k].HookRuns? || es[k].HookFreed? || es[k] == End(t)
    decreases |es|
  {
    if es != [] {
      hide Apply, Enabled, NextToRun, NextToFree, Inv;
      EndingShape(Apply(s, es[0]), es[1..], s', t);
      assert forall k | 0 < k < |es| :: es[k] == es[1..][k - 1];
    }
  }

  lemma {:induction false} InTurnConcat(s: State, es: seq<Step>, more: seq<Step>, t: TxnId)
    requires Runnable(s, es) && Runnable(Run(s, es), more) && InTurn(s, es, t) && InTurn(Run(s, es), more, t)
    ensures Runnable(s, es + more) && InTurn(s, es + more, t)
    decreases |es|
  {
    hide Apply, Enabled, EndingStep;
    RunConcat(s, es, more);
    if es == [] {
      assert es + more == more;
    } else {
      assert (es + more)[1..] == es[1..] + more;
      InTurnConcat(Apply(s, es[0]), es[1..], more, t);
    }
  }

  lemma EndingOn(s: State, es: seq<Step>, s': State, more: seq<Step>, s'': State, t: TxnId)
    requires Ending(s, es, s', t) && Ending(s', more, s'', t)
    ensures Ending(s, es + more, s'', t)
  {
    LedOn(s, es, s', more, s'');
    InTurnConcat(s, es, more, t);
  }

  lemma NothingEnding(s: State, t: TxnId)
    requires Inv(s)
    ensures Ending(s, [], s, t)
  {
  }

  lemma EndingNext(s: State, es: seq<Step>, s': State, t: TxnId)
    requires Ending(s, es, s', t) && Enabled(s', EndingStep(s', t))
    ensures Ending(s, es + [EndingStep(s', t)], Apply(s', EndingStep(s', t)), t)
  {
    var e := EndingStep(s', t);
    LedOne(s', e);
    assert [e][1..] == [];
    EndingOn(s, es, s', [e], Apply(s', e), t);
  }

  lemma FirstThenEnd(s: State, e: Step, s1: State, es: seq<Step>, s': State, t: TxnId)
    requires Led(s, [e], s1) && Ending(s1, es, s', t)
    ensures Led(s, [e] + es, s') && ([e] + es)[1..] == es
  {
    LedOn(s, [e], s1, es, s');
  }

  /** There is only one way to end a transaction. */
  lemma {:induction false} OneWayToEnd(s: State, es: seq<Step>, fs: seq<Step>, t: TxnId)
    requires t in s.open && Runnable(s, es) && Runnable(s, fs) && InTurn(s, es, t) && InTurn(s, fs, t)
    requires t !in Run(s, es).open && t !in Run(s, fs).open
    ensures es == fs
    decreases |es|
  {
    var s1 := Apply(s, es[0]);
    if t in s1.open {
      OneWayToEnd(s1, es[1..], fs[1..], t);
    } else {
      OnlyEndEnds(s, t);
      NothingAfterEnd(s1, es[1..], t);
      NothingAfterEnd(s1, fs[1..], t);
    }
    assert es == [es[0]] + es[1..] && fs == [fs[0]] + fs[1..];
  }

  lemma OnlyEndEnds(s: State, t: TxnId)
    requires t in s.open && Enabled(s, EndingStep(s, t)) && t !in Apply(s, EndingStep(s, t)).open
    ensures EndingStep(s, t) == End(t) && Apply(s, End(t)).hooks == s.hooks && NextToFree(s.hooks, t) == |s.hooks|
  {
  }

  lemma NothingAfterEnd(s: State, es: seq<Step>, t: TxnId)
    requires t !in s.open && NextToFree(s.hooks, t) == |s.hooks| && Runnable(s, es) && InTurn(s, es, t)
    ensures es == []
  {
  }

  class BusActivation {
    const enough: bool   // neither an allocation nor the start of a command fails
    const limit: nat
    var heap: map<Pid, Pending>
    var table: map<Name, Pid>
    var total: int
    var hooks: seq<Hook>
    var open: set<TxnId>
    var staged: seq<Staged>
    var outcomes: seq<Outcome>
    var connected: set<Conn>
    var ready: set<Conn>
    var nextPid: Pid
    ghost var doomed: set<TxnId>
    ghost var answered: set<nat>
    ghost var doubled: set<nat>
    ghost var repeated: seq<Outcome>
    var nextReq: nat

    ghost function Abs(): State
      reads this
    {
      State(limit, heap, table, total, hooks, open, doomed, staged, outcomes, answered, doubled, repeated, connected, ready, nextPid, nextReq)
    }

    constructor (enough: bool, limit: nat)
      ensures this.enough == enough && Abs() == Initial(limit, {}) && Inv(Abs())
    {
      this.enough, this.limit := enough, limit;
      heap, table, total, hooks, open, staged, outcomes, connected, ready := map[], map[], 0, [], {}, [], [], {}, {};
      nextPid, nextReq, doomed, answered, doubled, repeated := 0, 0, {}, {}, {}, [];
    }

    // ---- Reference counts ----

    method RefPending(p: Pid)
      requires p in heap
      modifies `heap
      ensures Abs() == Ref(old(Abs()), p)
    {
      heap := heap[p := heap[p].(refs := heap[p].refs + 1)];
    }

    method UnrefPending(p: Pid)
      requires p in heap
      modifies `heap, `total
      ensures Abs() == Unref(old(Abs()), p)
    {
      var q := heap[p];
      if q.refs > 1 {
        heap := heap[p := q.(refs := q.refs - 1)];
        return;
      }
      total := total - q.count;
      heap := heap - {p};
    }

    method RemovePending(n: Name)
      requires n in table ==> table[n] in heap
      modifies `heap, `total, `table
      ensures Abs() == Remove(old(Abs()), n)
    {
      if n in table {
        var p := table[n];
        table := table - {n};
        UnrefPending(p);
      }
    }

    method AddCancelHook(t: TxnId, kind: HookKind, p: Pid) returns (ok: bool)
      requires p in heap
      modifies `heap, `hooks
      ensures Abs() == (if ok then Hooked(old(Abs()), t, kind, p) else old(Abs())) && (enough ==> ok)
    {
      var full := Exhausted(enough);
      if full {
        return false;
      }
      hooks := [Hook(t, kind, p, false)] + hooks;
      RefPending(p);
      return true;
    }

    // ---- The end of a transaction ----

    method RunOne(i: nat)
      requires Inv(Abs()) && Enabled(Abs(), HookRuns(i))
      modifies `heap, `total, `table, `hooks
      ensures Inv(Abs()) && Abs() == Apply(old(Abs()), HookRuns(i))
    {
      hide Inv;
      StepKeepsInv(Abs(), HookRuns(i));
      var h := hooks[i];
      hooks := hooks[i := h.(spent := true)];
      match h.kind {
        case CancelPending => RemovePending(heap[h.pid].name);
        case RestorePending =>
          var n := heap[h.pid].name;
          var before := if n in table then Some(table[n]) else None;
          table := table[n := h.pid];
          RefPending(h.pid);
          if before.Some? {
            UnrefPending(before.value);
          }
      }
    }

    method FreeOne(i: nat)
      requires Inv(Abs()) && Enabled(Abs(), HookFreed(i))
      modifies `heap, `total, `hooks
      ensures Inv(Abs()) && Abs() == Apply(old(Abs()), HookFreed(i))
    {
      hide Inv;
      StepKeepsInv(Abs(), HookFreed(i));
      var p := hooks[i].pid;
      hooks := hooks[..i] + hooks[i + 1..];
      UnrefPending(p);
    }

    /** All hooks of t run, newest first, before any of them is freed. */
    method RunHooks(t: TxnId) returns (ghost es: seq<Step>)
      requires Inv(Abs()) && StagedBy(staged, t) == []
      modifies `heap, `total, `table, `hooks
      ensures Ending(old(Abs()), es, Abs(), t) && AllSpent(hooks, t)
    {
      hide Inv, Enabled, Apply, StagedBy, Runnable, Run;
      es := [];
      NothingEnding(Abs(), t);
      var i := NextToRun(hooks, t);
      while i < |hooks|
        invariant Ending(old(Abs()), es, Abs(), t) && i == NextToRun(hooks, t) && StagedBy(staged, t) == []
        decreases Unspent(hooks, t)
      {
        ghost var s := Abs();
        CanRun(s, i);
        SpendOne(hooks, t, i);
        EndingNext(old(Abs()), es, s, t);
        RunOne(i);
        es := es + [HookRuns(i)];
        i := NextToRun(hooks, t);
      }
    }

    method FreeHooks(t: TxnId) returns (ghost es: seq<Step>)
      requires Inv(Abs()) && AllSpent(hooks, t)
      modifies `heap, `total, `hooks
      ensures Ending(old(Abs()), es, Abs(), t) && NextToFree(hooks, t) == |hooks|
    {
      hide Inv, Enabled, Apply, Runnable, Run;
      es := [];
      NothingEnding(Abs(), t);
      var i := NextToFree(hooks, t);
      while i < |hooks|
        invariant Ending(old(Abs()), es, Abs(), t) && i == NextToFree(hooks, t) && AllSpent(hooks, t)
        decreases |hooks|
      {
        ghost var s := Abs();
        CanFreeHook(s, i);
        EndingNext(old(Abs()), es, s, t);
        FreeOne(i);
        es := es + [HookFreed(i)];
        i := NextToFree(hooks, t);
      }
    }

    method DropMessages(t: TxnId)
      requires t in open
      modifies `staged, `repeated
      ensures Abs() == Drop(old(Abs()), t) && StagedBy(staged, t) == []
    {
      NoneLeft(staged, t);
      repeated := repeated + Early(StagedBy(staged, t));
      staged := StagedByOthers(staged, t);
    }

    method SendMessages(t: TxnId)
      modifies `hooks, `staged, `outcomes, `answered, `doubled
      ensures Abs() == Deliver(old(Abs()), t) && StagedBy(staged, t) == [] && AllSpent(hooks, t)
    {
      NoneLeft(staged, t);
      var os := StagedBy(staged, t);
      outcomes, staged, answered, doubled := outcomes + Late(os), StagedByOthers(staged, t), answered + ReqsOf(os), doubled + Doubled(os);
      hooks := MarkSpent(hooks, t);   // none of them will run
    }

    /** Free what is left of t. */
    method FreeTransaction(t: TxnId) returns (ghost es: seq<Step>)
      requires Inv(Abs()) && t in open && StagedBy(staged, t) == [] && AllSpent(hooks, t)
      modifies `heap, `total, `hooks, `open, `doomed
      ensures Ending(old(Abs()), es, Abs(), t) && open == old(open) - {t}
    {
      hide Inv, StagedBy, Apply, Enabled;
      ghost var s := Abs();
      es := FreeHooks(t);
      CanEnd(Abs(), t);
      EndingNext(s, es, Abs(), t);
      open, doomed := open - {t}, doomed - {t};
      es := es + [End(t)];
    }

    /** bus_transaction_cancel_and_free */
    method CancelAndFree(t: TxnId) returns (ghost es: seq<Step>)
      requires Inv(Abs()) && t in open
      modifies `heap, `total, `table, `hooks, `staged, `open, `doomed, `repeated
      ensures Led(old(Abs()), es, Abs()) && open == old(open) - {t}
      ensures es != [] && es[0] == DropAll(t) && Ending(Drop(old(Abs()), t), es[1..], Abs(), t)
    {
      hide Inv, StagedBy, Drop, InTurn;
      ghost var s := Abs();
      LedOne(s, DropAll(t));
      DropMessages(t);
      ghost var s1 := Abs();
      ghost var ran := RunHooks(t);
      ghost var s2 := Abs();
      ghost var freed := FreeTransaction(t);
      EndingOn(s1, ran, s2, freed, Abs(), t);
      FirstThenEnd(s, DropAll(t), s1, ran + freed, Abs(), t);
      es := [DropAll(t)] + (ran + freed);
    }

    /** bus_transaction_execute_and_free */
    method ExecuteAndFree(t: TxnId) returns (ghost es: seq<Step>)
      requires Inv(Abs()) && t in open && t !in doomed
      modifies `heap, `total, `hooks, `staged, `open, `doomed, `outcomes, `answered, `doubled
      ensures Led(old(Abs()), es, Abs()) && open == old(open) - {t}
      ensures es != [] && es[0] == DeliverAll(t) && Ending(Deliver(old(Abs()), t), es[1..], Abs(), t)
    {
      hide Inv, StagedBy, Deliver, InTurn;
      ghost var s := Abs();
      LedOne(s, DeliverAll(t));
      SendMessages(t);
      ghost var s1 := Abs();
      ghost var freed := FreeTransaction(t);
      FirstThenEnd(s, DeliverAll(t), s1, freed, Abs(), t);
      es := [DeliverAll(t)] + freed;
    }

    // ---- A service has acquired its name ----

    /** Only explicit requests are answered here. */
    method ServiceCreated(t: TxnId, n: Name) returns (ok: bool, ghost os: seq<Outcome>)
      requires n in table && table[n] in heap
      modifies `staged
      ensures staged == old(staged) + InTxn(t, os)
      ensures os <= Replies(old(Abs()), heap[table[n]].entries) && (ok ==> os == Replies(old(Abs()), heap[table[n]].entries))
      ensures Early(os) == [] && (enough ==> ok)
    {
      hide Early, InTxn, Replies;
      var entries := heap[table[n]].entries;
      ghost var s := Abs();
      os := [];
      NothingSaid(t);
      RepliesEnd(s, entries);
      var i := 0;
      while i < |entries|
        invariant i <= |entries| && staged == old(staged) + InTxn(t, os) && Early(os) == []
        invariant os + Replies(s, entries[i..]) == Replies(s, entries)
      {
        var r := entries[i];
        RepliesStep(s, entries, i, os);
        if r.conn.Some? && r.conn.value in connected && !r.auto {
          var full := Exhausted(enough);
          if full {
            return false, os;
          }
          var o := Outcome(r.id, Started);
          SayStarted(t, os, o);
          staged := staged + [Staged(t, o)];
          os := os + [o];
        }
        i := i + 1;
      }
      ok := true;
    }

    /** bus_connection_send_oom_error: what cannot be queued is sent at once, with the preallocated error. */
    method SendOomError(t: TxnId, r: Request)
      requires r.conn.Some? && r.conn.value in ready
      modifies `staged, `outcomes, `ready
      ensures staged == old(staged) + InTxn(t, [Outcome(r.id, OutOfMemory)]) && outcomes == old(outcomes) + Early([Outcome(r.id, OutOfMemory)])
      ensures ready == old(ready) - {r.conn.value}
    {
      staged := staged + [Staged(t, Outcome(r.id, OutOfMemory))];   // for the books
      outcomes := outcomes + [Outcome(r.id, OutOfMemory)];
      ready := ready - {r.conn.value};
    }

    /** The rest of the dispatch of one auto-start message, which ends as fate says.  It is not ok if an assertion fails. */
    method Resume(t: TxnId, r: Request, fate: Fate) returns (ok: bool, ghost os: seq<Outcome>)
      modifies `staged, `outcomes, `ready
      ensures ok <==> (ToldNow(old(Abs()), r, fate) ==> r.conn.Some? && r.conn.value in old(ready))
      ensures ok ==>
                && os == HandoverOf(old(Abs()), r, fate)
                && staged == old(staged) + InTxn(t, os) && outcomes == old(outcomes) + Early(os)
                && ready == if ToldNow(old(Abs()), r, fate) then old(ready) - {r.conn.value} else old(ready)
    {
      ok, os := true, [];
      NothingSaid(t);
      if !r.auto || (r.conn.Some? && r.conn.value !in connected) {
        return;
      }
      if !fate.Denied? {
        var o := Outcome(r.id, PassedOn);
        staged, os := staged + [Staged(t, o)], [o];   // the copy for the owner
        assert InTxn(t, os) == [Staged(t, o)] && os[1..] == [];
      }
      if fate.HandedOn? {
        return;
      }
      if fate.now {
        if r.conn.None? || r.conn.value !in ready {
          return false, os;   // bus_connection_send_oom_error asserts otherwise
        }
        SendOomError(t, r);
        InTxnAppend(t, os, Outcome(r.id, OutOfMemory));
        EarlyAppend(os, [Outcome(r.id, OutOfMemory)]);
        os := os + [Outcome(r.id, OutOfMemory)];
      } else if r.conn.Some? {   // an error for the daemon itself goes nowhere
        staged := staged + [Staged(t, Outcome(r.id, ErrorReply))];
        InTxnAppend(t, os, Outcome(r.id, ErrorReply));
        EarlyAppend(os, [Outcome(r.id, ErrorReply)]);
        os := os + [Outcome(r.id, ErrorReply)];
      }
    }

    /** The dispatch of each auto-start message is resumed; `fates` says how each ends.  It is not ok if an assertion fails. */
    method SendPendingMessages(t: TxnId, n: Name, fates: map<nat, Fate>) returns (ok: bool, ghost os: seq<Outcome>)
      requires n in table && table[n] in heap
      modifies `staged, `outcomes, `ready
      ensures ok <==> ErrorsAtHand(old(Abs()), heap[table[n]].entries, fates, old(ready))
      ensures ok ==>
                && os == Handovers(old(Abs()), heap[table[n]].entries, fates)
                && staged == old(staged) + InTxn(t, os) && outcomes == old(outcomes) + Early(os)
                && ready == ReadyAfter(old(Abs()), heap[table[n]].entries, fates, old(ready))
    {
      hide Early, InTxn, Handovers, HandoverOf, ToldNow, ErrorsAtHand, ReadyAfter;
      var entries := heap[table[n]].entries;
      ghost var s := Abs();
      ok, os := true, [];
      NothingSaid(t);
      HandoversEnd(s, entries, fates);
      assert entries[0..] == entries;
      var i := 0;
      while i < |entries|
        invariant i <= |entries| && ok && staged == old(staged) + InTxn(t, os) && outcomes == old(outcomes) + Early(os)
        invariant os + Handovers(s, entries[i..], fates) == Handovers(s, entries, fates)
        invariant ErrorsAtHand(s, entries[i..], fates, ready) <==> ErrorsAtHand(s, entries, fates, s.ready)
        invariant ReadyAfter(s, entries[i..], fates, ready) == ReadyAfter(s, entries, fates, s.ready)
      {
        HandoversStep(s, entries, i, fates, os);
        ReadyStep(s, entries, i, fates, ready);
        HandoverElsewhere(s, Abs(), entries[i], FateOf(fates, entries[i]));
        ghost var more;
        ok, more := Resume(t, entries[i], FateOf(fates, entries[i]));
        if !ok {
          return;
        }
        InTxnConcat(t, os, more);
        EarlyAppend(os, more);
        os := os + more;
        i := i + 1;
      }
      ReadyEnd(s, entries, fates, ready);
    }

    /** bus_activation_service_created, then bus_activation_send_pending_auto_activation_messages. */
    method AnswerAll(t: TxnId, n: Name, fates: map<nat, Fate>) returns (r: Answered, ghost os: seq<Outcome>)
      requires n in table && table[n] in heap
      modifies `staged, `outcomes, `ready
      ensures r.Aborted? ==> !ErrorsAtHand(old(Abs()), heap[table[n]].entries, fates, old(ready))
      ensures !r.Aborted? ==> Abs() == Say(old(Abs()), t, os).(ready := ready)
      ensures r.AllAnswered? ==>
                && ErrorsAtHand(old(Abs()), heap[table[n]].entries, fates, old(ready))
                && os == Answers(old(Abs()), n, fates) && ready == ReadyAfter(old(Abs()), heap[table[n]].entries, fates, old(ready))
      ensures r.ShortOfMemory? ==> os <= Replies(old(Abs()), heap[table[n]].entries) && ready == old(ready) && !enough
    {
      hide Early, InTxn, Replies, Handovers, ErrorsAtHand, ReadyAfter;
      ghost var s := Abs();
      var ok;
      ok, os := ServiceCreated(t, n);
      if !ok {
        assert s.outcomes + Early(os) == s.outcomes;
        return ShortOfMemory, os;
      }
      HandoversElsewhere(s, Abs(), heap[table[n]].entries, fates, ready);
      ghost var more;
      ok, more := SendPendingMessages(t, n, fates);
      if !ok {
        return Aborted, os;
      }
      SaySplit(s, t, os, more);
      return AllAnswered, os + more;
    }

    /**
     What RequestName does once the name has an owner: answer the explicit requests, hand the
     messages on, and take the pending activation out.  Without memory t is doomed.  The daemon
     aborts only where the assertion of a preallocated error fails.
     */
    method NameIsAcquired(t: TxnId, n: Name, fates: map<nat, Fate>) returns (r: Answered, ghost es: seq<Step>)
      requires Inv(Abs()) && t in open
      modifies `heap, `total, `table, `hooks, `staged, `outcomes, `ready, `doomed
      ensures !r.Aborted? ==> Led(old(Abs()), es, Abs())
      ensures n !in old(table) ==> r == AllAnswered && es == []
      ensures n in old(table) && r.AllAnswered? ==> es == [NameAcquired(t, n, fates)]
      ensures r.ShortOfMemory? ==> !enough && t in doomed && n in old(table) && exists k :: es == [PartlyAnswered(t, n, fates, k)]
      ensures r.Aborted? ==>
                n in old(table) && old(table)[n] in old(heap) && !ErrorsAtHand(old(Abs()), old(heap)[old(table)[n]].entries, fates, old(ready))
    {
      hide Inv, Say, Replies, Handovers, ErrorsAtHand, ReadyAfter, Enabled, Apply, Remove, Hooked;
      ghost var s := Abs();
      if n !in table {
        return AllAnswered, [];
      }
      InvTable(s, n);
      var p := table[n];
      ghost var os;
      r, os := AnswerAll(t, n, fates);
      if r.Aborted? {
        return r, [];
      }
      SayFrame(s, t, os);
      HookedFrame(Abs(), t, p, n);
      var ok := r.AllAnswered?;
      if ok {
        ok := AddCancelHook(t, RestorePending, p);
      }
      if !ok {
        PartlyIs(s, t, n, fates, os, ready);
        LedOne(s, PartlyAnswered(t, n, fates, |os|));
        doomed := doomed + {t};
        return ShortOfMemory, [PartlyAnswered(t, n, fates, |os|)];
      }
      AcquiredIs(s, t, n, fates, ready);
      LedOne(s, NameAcquired(t, n, fates));
      RemovePending(n);
      return AllAnswered, [NameAcquired(t, n, fates)];
    }

    // ---- The service could not be started ----

    /** One attempt to tell everybody, in a transaction of its own; without memory it is cancelled. */
    method TrySendActivationFailure(n: Name, memory: bool) returns (ok: bool)
      requires n in table && table[n] in heap
      modifies `outcomes, `answered
      ensures ok == memory
      ensures ok ==>
                && outcomes == old(outcomes) + Errors(old(Abs()), heap[table[n]].entries)
                && answered == old(answered) + ReqsOf(Errors(old(Abs()), heap[table[n]].entries))
      ensures !ok ==> outcomes == old(outcomes) && answered == old(answered)
    {
      hide Errors, ReqsOf;
      var os;
      ok, os := StageErrors(heap[table[n]].entries, memory);
      if ok {
        outcomes, answered := outcomes + os, answered + ReqsOf(os);
      }
    }

    /** What the new transaction stages, if there is memory for that and for the transaction. */
    method StageErrors(entries: seq<Request>, memory: bool) returns (ok: bool, os: seq<Outcome>)
      ensures ok == memory && (ok ==> os == Errors(Abs(), entries))
    {
      hide Errors;
      ghost var s := Abs();
      os := [];
      ErrorsEnd(s, entries);
      var i := 0;
      while i < |entries|
        invariant i <= |entries| && os + Errors(s, entries[i..]) == Errors(s, entries)
      {
        var r := entries[i];
        ErrorsStep(s, entries, i, os);
        if r.conn.Some? && r.conn.value in connected {
          if !memory {
            return false, os;
          }
          os := os + [Outcome(r.id, ErrorReply)];
        } else {
          assert os + [] == os;
        }
        i := i + 1;
      }
      ErrorsEnd(s, entries);
      assert os + [] == os;
      ok := memory;
    }

    /** Tried again as often as there is no memory: n is told off exactly once. */
    method PendingActivationFailed(n: Name, failures: nat) returns (ghost es: seq<Step>)
      requires Inv(Abs()) && n in table
      modifies `heap, `total, `table, `outcomes, `answered
      ensures es == [ActivationFailed(n)] && Led(old(Abs()), es, Abs()) && table == old(table) - {n}
    {
      hide Inv, Errors;
      ghost var s := Abs();
      InvTable(s, n);
      LedOne(s, ActivationFailed(n));
      var tries := failures;
      var ok := TrySendActivationFailure(n, tries == 0);
      while !ok
        invariant ok <==> tries == 0
        invariant Abs() == if ok then s.(outcomes := s.outcomes + Errors(s, s.heap[s.table[n]].entries), answered := s.answered + ReqsOf(Errors(s, s.heap[s.table[n]].entries))) else s
        decreases tries
      {
        tries := tries - 1;   // _dbus_wait_for_memory
        ok := TrySendActivationFailure(n, tries == 0);
      }
      RemovePending(n);
      return [ActivationFailed(n)];
    }

    /** pending_activation_finished_cb: whatever waits for the same command fails, and n itself last. */
    method ChildFailed(n: Name, failures: nat) returns (ghost es: seq<Step>)
      requires Inv(Abs()) && n in table
      modifies `heap, `total, `table, `outcomes, `answered
      ensures Led(old(Abs()), es, Abs())
      ensures forall m | m in old(table) :: old(table)[m] in old(heap)
      ensures forall m :: m in table <==>
                m in old(table) && m != n && !(old(heap)[old(table)[m]].exec.Some? && old(heap)[old(table)[m]].exec == old(heap)[old(table)[n]].exec)
      ensures es != [] && es[|es| - 1] == ActivationFailed(n) && forall k | 0 <= k < |es| :: es[k].ActivationFailed?
    {
      hide Inv, Enabled, Apply, Run, Runnable;
      ghost var s := Abs();
      InvTables(s);
      es := FailAll((set m | m in table && m != n && heap[table[m]].exec.Some? && heap[table[m]].exec == heap[table[n]].exec), failures);
      ghost var s1 := Abs();
      ghost var more := PendingActivationFailed(n, failures);
      LedOn(s, es, s1, more, Abs());
      es := es + more;
    }

    method FailAll(names: set<Name>, failures: nat) returns (ghost es: seq<Step>)
      requires Inv(Abs()) && names <= table.Keys
      modifies `heap, `total, `table, `outcomes, `answered
      ensures Led(old(Abs()), es, Abs()) && table == old(table) - names
      ensures forall k | 0 <= k < |es| :: es[k].ActivationFailed?
    {
      hide Inv, Enabled, Apply;
      ghost var s := Abs();
      NothingLed(s);
      es := [];
      var todo := names;
      ghost var done: set<Name> := {};
      assert table == s.table - done;
      while todo != {}
        invariant Led(s, es, Abs()) && todo + done == names && todo !! done
        invariant forall k | 0 <= k < |es| :: es[k].ActivationFailed?
        invariant table == s.table - done && todo <= table.Keys
        decreases todo
      {
        var m :| m in todo;
        ghost var s1 := Abs();
        ghost var more := PendingActivationFailed(m, failures);
        LedOn(s, es, s1, more, Abs());
        es := es + more;
        todo, done := todo - {m}, done + {m};
      }
    }

    // ---- Requests ----

    method NewTransaction(t: TxnId) returns (ok: bool, ghost es: seq<Step>)
      requires Inv(Abs()) && t !in open
      modifies `open
      ensures Led(old(Abs()), es, Abs()) && table == old(table) && total == old(total) && (enough ==> ok)
      ensures es == (if ok then [Activation.Begin(t)] else []) && open == if ok then old(open) + {t} else old(open)
    {
      hide Inv;
      var full := Exhausted(enough);
      if full {
        return false, [];
      }
      LedOne(Abs(), Activation.Begin(t));
      open := open + {t};
      return true, [Activation.Begin(t)];
    }

    /** Queue the request with its cancel hook.  Without memory for the hook the whole pending activation goes. */
    method EnqueueRequest(t: TxnId, n: Name, exec: Option<Command>, conn: Option<Conn>, auto: bool) returns (ok: bool, ghost es: seq<Step>)
      requires Inv(Abs()) && t in open && total < limit
      modifies `heap, `total, `table, `hooks, `nextPid, `nextReq, `doomed
      ensures Led(old(Abs()), es, Abs()) && (enough ==> ok)
      ensures ok ==> es == [Enqueue(t, n, exec, conn, auto)] && total == old(total) + 1 && table.Keys == old(table.Keys) + {n} && doomed == old(doomed)
      ensures !ok ==> es == [] || (es == [EnqueueUnhooked(t, n, exec, conn, auto)] && t in doomed && n !in table)
    {
      hide Inv, Enabled, Apply, Appended, Hooked, Remove, Led;
      ghost var s := Abs();
      if n in table { InvTable(s, n); }
      var full := Exhausted(enough);
      if full {
        NothingLed(s);
        return false, [];   // nothing has been queued yet
      }
      EnqueueIs(s, t, n, exec, conn, auto);
      AppendEntry(n, exec, conn, auto);
      var p := table[n];
      ok := AddCancelHook(t, CancelPending, p);
      if !ok {
        LedOne(s, EnqueueUnhooked(t, n, exec, conn, auto));
        RemovePending(n);
        doomed := doomed + {t};
        return false, [EnqueueUnhooked(t, n, exec, conn, auto)];
      }
      LedOne(s, Enqueue(t, n, exec, conn, auto));
      return true, [Enqueue(t, n, exec, conn, auto)];
    }

    method AppendEntry(n: Name, exec: Option<Command>, conn: Option<Conn>, auto: bool)
      requires n in table ==> table[n] in heap
      modifies `heap, `total, `table, `nextPid, `nextReq
      ensures Abs() == Appended(old(Abs()), n, exec, conn, auto)
    {
      if n in table {
        JoinPending(n, conn, auto);
      } else {
        CreatePending(n, exec, conn, auto);
      }
    }

    /** The first request for n. */
    method CreatePending(n: Name, exec: Option<Command>, conn: Option<Conn>, auto: bool)
      requires n !in table
      modifies `heap, `total, `table, `nextPid, `nextReq
      ensures Abs() == Appended(old(Abs()), n, exec, conn, auto)
    {
      heap := heap[nextPid := Pending(n, exec, [Request(nextReq, conn, auto)], 1, 1)];
      table := table[n := nextPid];
      nextPid, total, nextReq := nextPid + 1, total + 1, nextReq + 1;
    }

    /** The request waits together with those before it. */
    method JoinPending(n: Name, conn: Option<Conn>, auto: bool)
      requires n in table && table[n] in heap
      modifies `heap, `total, `nextReq
      ensures Abs() == Appended(old(Abs()), n, None, conn, auto)
    {
      var q := heap[table[n]];
      heap := heap[table[n] := q.(entries := q.entries + [Request(nextReq, conn, auto)], count := q.count + 1)];
      total, nextReq := total + 1, nextReq + 1;
    }

    /** cancel_pending_activation, with the hook of t still in place. */
    method Abandon(n: Name) returns (ghost es: seq<Step>)
      requires Inv(Abs())
      modifies `heap, `total, `table
      ensures es == [GiveUp(n)] && Led(old(Abs()), es, Abs()) && n !in table
    {
      hide Inv;
      if n in table { InvTable(Abs(), n); }
      LedOne(Abs(), GiveUp(n));
      RemovePending(n);
      return [GiveUp(n)];
    }

    /** Hand the start of a unit to systemd, starting systemd itself if need be. */
    method StartViaSystemd(t: TxnId, t2: TxnId, systemdRuns: bool, refused: bool) returns (ok: bool, ghost es: seq<Step>)
      requires Inv(Abs()) && t in open && t2 !in open + doomed
      modifies this
      ensures Led(old(Abs()), es, Abs()) && t in open
      ensures ok ==> open == old(open) && table.Keys == old(table.Keys) + if systemdRuns then {} else {SYSTEMD}
      ensures ok && !systemdRuns ==> old(total) < limit && |es| > 1 && es[1] == Enqueue(t2, SYSTEMD, None, None, true)
      ensures ok ==> if systemdRuns then !refused else old(total) < limit
      ensures enough && (if systemdRuns then !refused else old(total) < limit) ==> ok
      ensures forall k | 0 <= k < |es| :: Nested(es[k], t2)
      ensures open == old(open) || (!enough && es == [Activation.Begin(t2)] && open == old(open) + {t2})
    {
      hide Inv, Enabled, Apply;
      ghost var s := Abs();
      var began;
      began, es := NewTransaction(t2);
      if !began {
        return false, es;
      }
      var full := Exhausted(enough);
      if full {
        return false, es;   // no memory to tell monitors; the transaction stays behind, empty
      }
      if systemdRuns {
        full := Exhausted(enough);
        ok := !refused && !full;   // bus_dispatch_matches
      } else {
        ghost var s1 := Abs();
        ghost var more;
        ok, more := ActivateSystemd(t2);
        LedOn(s, es, s1, more, Abs());
        es := es + more;
      }
      ghost var s2 := Abs();
      ghost var rest := Conclude(t2, ok);
      LedOn(s, es, s2, rest, Abs());
      es := es + rest;
    }

    /** The nested transaction is executed or cancelled. */
    method Conclude(t: TxnId, ok: bool) returns (ghost es: seq<Step>)
      requires Inv(Abs()) && t in open && (ok ==> t !in doomed)
      modifies `heap, `total, `table, `hooks, `staged, `open, `doomed, `outcomes, `answered, `doubled, `repeated
      ensures Led(old(Abs()), es, Abs()) && open == old(open) - {t} && (ok ==> table == old(table))
      ensures es != [] && es[0] == if ok then DeliverAll(t) else DropAll(t)
      ensures forall k | 0 <= k < |es| :: Nested(es[k], t)
    {
      hide Inv, Enabled, Apply, Led;
      ghost var s := Abs();
      if ok {
        es := ExecuteAndFree(t);
        EndingShape(Deliver(s, t), es[1..], Abs(), t);
      } else {
        es := CancelAndFree(t);
        EndingShape(Drop(s, t), es[1..], Abs(), t);
      }
      assert forall k | 0 < k < |es| :: es[k] == es[1..][k - 1];
    }

    /** The nested request of the daemon itself, under the same limit. */
    method ActivateSystemd(t: TxnId) returns (ok: bool, ghost es: seq<Step>)
      requires Inv(Abs()) && t in open && t !in doomed
      modifies `heap, `total, `table, `hooks, `nextPid, `nextReq, `doomed
      ensures Led(old(Abs()), es, Abs())
      ensures ok ==> old(total) < limit && es == [Enqueue(t, SYSTEMD, None, None, true)] && t !in doomed && table.Keys == old(table.Keys) + {SYSTEMD}
      ensures old(total) >= limit ==> !ok
      ensures !ok ==> es == [] || es == [EnqueueUnhooked(t, SYSTEMD, None, None, true)]
      ensures enough && old(total) < limit ==> ok
    {
      hide Inv, Enabled, Apply;
      if total >= limit {
        NothingLed(Abs());
        return false, [];
      }
      ok, es := EnqueueRequest(t, SYSTEMD, None, None, true);
    }

    /** The last part of an activation: have systemd start the unit, or run the command; if that fails, give n up. */
    method Launch(t: TxnId, t2: TxnId, n: Name, unit: bool, systemdRuns: bool, refused: bool) returns (ok: bool, ghost es: seq<Step>)
      requires Inv(Abs()) && t in open && t2 !in open + doomed
      modifies this
      ensures Led(old(Abs()), es, Abs()) && t in open
      ensures ok ==> (forall k | 0 <= k < |es| :: Nested(es[k], t2)) && (!unit ==> es == [])
      ensures ok ==> open == old(open) && table.Keys == old(table.Keys) + if unit && !systemdRuns then {SYSTEMD} else {}
      ensures !ok ==> n !in table && es != [] && es[|es| - 1] == GiveUp(n) && forall k | 0 <= k < |es| - 1 :: Nested(es[k], t2)
      ensures unit && (if systemdRuns then refused else old(total) >= limit) ==> !ok
      ensures enough && !(unit && if systemdRuns then refused else old(total) >= limit) ==> ok
      ensures open == old(open) || (!enough && open == old(open) + {t2})
    {
      hide Inv, Enabled, Apply;
      ghost var s := Abs();
      if unit {
        ok, es := StartViaSystemd(t, t2, systemdRuns, refused);
      } else {
        NothingLed(s);
        var full := Exhausted(enough);
        ok, es := !full, [];
      }
      if !ok {
        ghost var s2 := Abs();
        ghost var more := Abandon(n);
        LedOn(s, es, s2, more, Abs());
        es := es + more;
      }
    }

    /**
     bus_activation_activate_service.  `found` is what the service files say about n; denied and
     running are the answers of the policy and of the registry, and refused is that of the policy
     about the daemon's own message to systemd.
     */
    method ActivateService(t: TxnId, t2: TxnId, conn: Conn, auto: bool, n: Name, found: Option<Service>, denied: bool, running: bool,
                           useSystemd: bool, systemdRuns: bool, refused: bool) returns (r: Activated, ghost es: seq<Step>)
      requires Inv(Abs()) && t in open && t2 !in open + doomed
      modifies this
      ensures Led(old(Abs()), es, Abs()) && t in open
      ensures r == TooMany <==> old(total) >= limit
      ensures r == NoSuchService <==> old(total) < limit && !(useSystemd && n == SYSTEMD) && found.None?
      ensures r == NotAllowed <==> old(total) < limit && !(useSystemd && n == SYSTEMD) && found.Some? && auto && denied
      ensures r != Accepted ==> es == [] || (r == NotStarted && n !in table)
      ensures r == NotStarted && es != [] ==>
                var exec := if useSystemd && n == SYSTEMD then None else Some(found.value.exec);
                || es == [EnqueueUnhooked(t, n, exec, Some(conn), auto)]
                || (|es| > 1 && es[0] == Enqueue(t, n, exec, Some(conn), auto) && es[|es| - 1] == GiveUp(n)
                    && forall k | 0 < k < |es| - 1 :: Nested(es[k], t2))
      ensures enough ==>
                (r == NotStarted <==>
                 && old(total) < limit && n !in old(table) && (auto || !running) && useSystemd && n != SYSTEMD
                 && found.Some? && !(auto && denied) && found.value.unit.Some? && if systemdRuns then refused else old(total) + 1 >= limit)
      ensures open == old(open) || (!enough && open == old(open) + {t2})
      ensures r == Accepted && !auto && running ==> es == []
      ensures r == Accepted && (auto || !running) ==>
                var exec := if useSystemd && n == SYSTEMD then None else Some(found.value.exec);
                var unit := useSystemd && n != SYSTEMD && found.Some? && found.value.unit.Some?;
                var nested := unit && n !in old(table) && !systemdRuns;
                && es != [] && es[0] == Enqueue(t, n, exec, Some(conn), auto) && (forall k | 0 < k < |es| :: Nested(es[k], t2))
                && (n in old(table) || !unit ==> |es| == 1)
                && table.Keys == old(table.Keys) + {n} + (if nested then {SYSTEMD} else {})
                && open == old(open)
    {
      hide Inv, Enabled, Apply, Led, Nested;
      NothingLed(Abs());
      if total >= limit {
        return TooMany, [];
      }
      var entry := if useSystemd && n == SYSTEMD then None else found;
      if !(useSystemd && n == SYSTEMD) && found.None? {
        return NoSuchService, [];
      }
      if auto && entry.Some? && denied {
        return NotAllowed, [];
      }
      var ok: bool;
      if !auto && running {
        var full := Exhausted(enough);   // already running; the reply goes into t
        return if full then NotStarted else Accepted, [];
      }
      ghost var s := Abs();
      var waiting := n in table;
      ok, es := EnqueueRequest(t, n, if entry.Some? then Some(entry.value.exec) else None, Some(conn), auto);
      if !ok || waiting || entry.None? {
        return if ok then Accepted else NotStarted, es;
      }
      ghost var s1, more := Abs(), [];
      LedWell(s, es, s1);
      ok, more := Launch(t, t2, n, useSystemd && entry.value.unit.Some?, systemdRuns, refused);
      LedOn(s, es, s1, more, Abs());
      es := es + more;
      r := if ok then Accepted else NotStarted;
    }
  }

  lemma InvTable(s: State, n: Name)
    requires Inv(s) && n in s.table
    ensures s.table[n] in s.heap && s.heap[s.table[n]].name == n
  {
  }

  lemma InvTables(s: State)
    requires Inv(s)
    ensures forall n | n in s.table :: s.table[n] in s.heap && s.heap[s.table[n]].name == n
  {
  }

  lemma SayFrame(s: State, t: TxnId, os: seq<Outcome>)
    ensures var s' := Say(s, t, os); s' == s.(staged := s'.staged, outcomes := s'.outcomes)
  {
  }

  lemma SaySplit(s: State, t: TxnId, a: seq<Outcome>, b: seq<Outcome>)
    ensures Say(s, t, a + b) == s.(staged := s.staged + InTxn(t, a) + InTxn(t, b), outcomes := s.outcomes + Early(a) + Early(b))
    ensures InTxn(t, []) == [] && Early([]) == []
  {
    hide Early, InTxn;
    EarlyAppend(a, b);
    InTxnConcat(t, a, b);
    NothingSaid(t);
    assert s.staged + InTxn(t, a) + InTxn(t, b) == s.staged + (InTxn(t, a) + InTxn(t, b));
    assert s.outcomes + Early(a) + Early(b) == s.outcomes + (Early(a) + Early(b));
  }

  lemma InTxnConcat(t: TxnId, a: seq<Outcome>, b: seq<Outcome>)
    ensures InTxn(t, a + b) == InTxn(t, a) + InTxn(t, b)
  {
    var l, r := InTxn(t, a + b), InTxn(t, a) + InTxn(t, b);
    assert forall i :: 0 <= i < |l| ==> l[i] == r[i];
  }

  lemma {:induction false} HandoversElsewhere(s: State, s': State, es: seq<Request>, fates: map<nat, Fate>, ready: set<Conn>)
    requires s'.connected == s.connected
    ensures Handovers(s', es, fates) == Handovers(s, es, fates)
    ensures ErrorsAtHand(s', es, fates, ready) == ErrorsAtHand(s, es, fates, ready)
    ensures ReadyAfter(s', es, fates, ready) == ReadyAfter(s, es, fates, ready)
  {
    if es != [] {
      HandoverElsewhere(s, s', es[0], FateOf(fates, es[0]));
      hide HandoverOf, ToldNow;
      var gone := if es[0].conn.Some? then {es[0].conn.value} else {};
      HandoversElsewhere(s, s', es[1..], fates, ready);
      HandoversElsewhere(s, s', es[1..], fates, ready - gone);
    }
  }

  lemma HandoverElsewhere(s: State, s': State, r: Request, f: Fate)
    requires s'.connected == s.connected
    ensures HandoverOf(s', r, f) == HandoverOf(s, r, f) && ToldNow(s', r, f) == ToldNow(s, r, f)
  {
  }

  lemma ReadyStep(s: State, es: seq<Request>, i: nat, fates: map<nat, Fate>, ready: set<Conn>)
    requires i < |es|
    ensures var now := ToldNow(s, es[i], FateOf(fates, es[i]));
            if now && !(es[i].conn.Some? && es[i].conn.value in ready) then !ErrorsAtHand(s, es[i..], fates, ready)
            else
              var ready' := if now then ready - {es[i].conn.value} else ready;
              && (ErrorsAtHand(s, es[i + 1..], fates, ready') <==> ErrorsAtHand(s, es[i..], fates, ready))
              && ReadyAfter(s, es[i + 1..], fates, ready') == ReadyAfter(s, es[i..], fates, ready)
  {
    hide ToldNow, FateOf;
    assert es[i..][0] == es[i] && es[i..][1..] == es[i + 1..];
  }

  lemma ReadyEnd(s: State, es: seq<Request>, fates: map<nat, Fate>, ready: set<Conn>)
    ensures ReadyAfter(s, es[|es|..], fates, ready) == ready && ErrorsAtHand(s, es[|es|..], fates, ready)
  {
  }

  lemma HookedFrame(s: State, t: TxnId, p: Pid, n: Name)
    requires n in s.table && s.table[n] == p && p in s.heap
    ensures var s' := Hooked(s, t, RestorePending, p); n in s'.table && s'.table[n] in s'.heap
  {
  }

  lemma AcquiredIs(s: State, t: TxnId, n: Name, fates: map<nat, Fate>, ready: set<Conn>)
    requires t in s.open && n in s.table && s.table[n] in s.heap && ErrorsAtHand(s, s.heap[s.table[n]].entries, fates, s.ready)
    requires ready == ReadyAfter(s, s.heap[s.table[n]].entries, fates, s.ready)
    ensures Enabled(s, NameAcquired(t, n, fates))
    ensures var s1 := Hooked(Say(s, t, Answers(s, n, fates)).(ready := ready), t, RestorePending, s.table[n]);
            n in s1.table && s1.table[n] in s1.heap && Apply(s, NameAcquired(t, n, fates)) == Remove(s1, n)
  {
    hide Answers, ReadyAfter, ErrorsAtHand, InTxn, Early;
  }

  lemma EnqueueIs(s: State, t: TxnId, n: Name, exec: Option<Command>, conn: Option<Conn>, auto: bool)
    requires t in s.open && s.total < s.limit && (n in s.table ==> s.table[n] in s.heap)
    ensures Enabled(s, Enqueue(t, n, exec, conn, auto)) && Enabled(s, EnqueueUnhooked(t, n, exec, conn, auto))
    ensures var s1 := Appended(s, n, exec, conn, auto);
            && Apply(s, Enqueue(t, n, exec, conn, auto)) == Hooked(s1, t, CancelPending, s1.table[n])
            && Apply(s, EnqueueUnhooked(t, n, exec, conn, auto)) == Remove(s1, n).(doomed := s.doomed + {t})
            && s1.table.Keys == s.table.Keys + {n} && s1.doomed == s.doomed
            && Hooked(s1, t, CancelPending, s1.table[n]).table == s1.table && Hooked(s1, t, CancelPending, s1.table[n]).doomed == s.doomed
            && Hooked(s1, t, CancelPending, s1.table[n]).total == s.total + 1
            && n !in Remove(s1, n).table && Remove(s1, n).doomed == s.doomed
  {
  }

  lemma PartlyIs(s: State, t: TxnId, n: Name, fates: map<nat, Fate>, os: seq<Outcome>, ready: set<Conn>)
    requires t in s.open && n in s.table && s.table[n] in s.heap
    requires var es := s.heap[s.table[n]].entries;
             || (ErrorsAtHand(s, es, fates, s.ready) && os == Answers(s, n, fates) && ready == ReadyAfter(s, es, fates, s.ready))
             || (os <= Replies(s, es) && ready == s.ready)
    ensures Enabled(s, PartlyAnswered(t, n, fates, |os|))
    ensures Apply(s, PartlyAnswered(t, n, fates, |os|)) == Say(s, t, os).(doomed := s.doomed + {t}, ready := ready)
  {
    hide Replies, Handovers, ReadyAfter, ErrorsAtHand;
    var es := s.heap[s.table[n]].entries;
    var all := Answers(s, n, fates);
    assert all[..|os|] == os;
    if |os| == |all| && Handovers(s, es, fates) == [] { NobodyNow(s, es, fates, s.ready); }
  }

  /** When there is nothing to hand on and no error, nobody uses up a preallocated error. */
  lemma {:induction false} NobodyNow(s: State, es: seq<Request>, fates: map<nat, Fate>, ready: set<Conn>)
    requires Handovers(s, es, fates) == []
    ensures ReadyAfter(s, es, fates, ready) == ready
  {
    if es != [] { NobodyNow(s, es[1..], fates, ready); }
  }

  lemma HandoversStep(s: State, es: seq<Request>, i: nat, fates: map<nat, Fate>, os: seq<Outcome>)
    requires i < |es|
    ensures os + Handovers(s, es[i..], fates) == (os + HandoverOf(s, es[i], FateOf(fates, es[i]))) + Handovers(s, es[i + 1..], fates)
  {
    hide HandoverOf;
    assert es[i..][1..] == es[i + 1..];
  }

  lemma RepliesStep(s: State, es: seq<Request>, i: nat, os: seq<Outcome>)
    requires i < |es|
    ensures var r := es[i];
            os + Replies(s, es[i..]) == (os + if Reachable(s, r) && !r.auto then [Outcome(r.id, Started)] else []) + Replies(s, es[i + 1..])
  {
    assert es[i..][1..] == es[i + 1..];
  }

  lemma RepliesEnd(s: State, es: seq<Request>)
    ensures Replies(s, es[|es|..]) == [] && [] + Replies(s, es[0..]) == Replies(s, es)
  {
    assert es[0..] == es && es[|es|..] == [];
  }

  lemma ErrorsStep(s: State, es: seq<Request>, i: nat, os: seq<Outcome>)
    requires i < |es|
    ensures var r := es[i];
            os + Errors(s, es[i..]) == (os + if Reachable(s, r) then [Outcome(r.id, ErrorReply)] else []) + Errors(s, es[i + 1..])
  {
    assert es[i..][1..] == es[i + 1..];
  }

  lemma ErrorsEnd(s: State, es: seq<Request>)
    ensures Errors(s, es[|es|..]) == [] && [] + Errors(s, es[0..]) == Errors(s, es)
  {
    assert es[0..] == es && es[|es|..] == [];
  }

  lemma SayStarted(t: TxnId, os: seq<Outcome>, o: Outcome)
    requires o.kind.Started? && Early(os) == []
    ensures InTxn(t, os + [o]) == InTxn(t, os) + [Staged(t, o)] && Early(os + [o]) == []
  {
    EarlyAppend(os, [o]);
  }

  lemma HandoversEnd(s: State, es: seq<Request>, fates: map<nat, Fate>)
    ensures Handovers(s, es[|es|..], fates) == [] && [] + Handovers(s, es[0..], fates) == Handovers(s, es, fates)
  {
    assert es[0..] == es && es[|es|..] == [];
  }

  lemma NothingSaid(t: TxnId)
    ensures InTxn(t, []) == [] && Early([]) == []
  {
  }

  lemma InTxnAppend(t: TxnId, os: seq<Outcome>, o: Outcome)
    ensures InTxn(t, os + [o]) == InTxn(t, os) + InTxn(t, [o])
  {
  }

  lemma {:induction false} NoneLeft(q: seq<Staged>, t: TxnId)
    ensures StagedBy(StagedByOthers(q, t), t) == []
  {
    if q != [] {
      NoneLeft(q[1..], t);
      assert q[0].txn != t ==> StagedByOthers(q, t)[1..] == StagedByOthers(q[1..], t);
    }
  }
}
