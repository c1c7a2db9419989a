/** What every step of the activation code keeps. */
module ActivationInvariants {
  import opened BusTypes
  import opened Activation

  // ---- Counting ----

  function Mentions(hooks: seq<Hook>, p: Pid): nat {
    if hooks == [] then 0 else (if hooks[0].pid == p then 1 else 0) + Mentions(hooks[1..], p)
  }

  /** Hooks that would put p back into the table. */
  function Restorers(hooks: seq<Hook>, p: Pid): nat {
    if hooks == [] then 0
    else (if hooks[0].pid == p && hooks[0].kind.RestorePending? && !hooks[0].spent then 1 else 0) + Restorers(hooks[1..], p)
  }

  function InTable(s: State, p: Pid): nat
    requires p in s.heap
  {
    var n := s.heap[p].name;
    if n in s.table && s.table[n] == p then 1 else 0
  }

  ghost function Sum(heap: map<Pid, Pending>): int {
    if heap == map[] then 0 else var p :| p in heap; heap[p].count + Sum(heap - {p})
  }

  lemma {:induction false} SumRemove(heap: map<Pid, Pending>, p: Pid)
    requires p in heap
    ensures Sum(heap) == heap[p].count + Sum(heap - {p})
    decreases |heap|
  {
    var q :| q in heap && Sum(heap) == heap[q].count + Sum(heap - {q});
    if q != p {
      SumRemove(heap - {q}, p);
      SumRemove(heap - {p}, q);
      assert heap - {q} - {p} == heap - {p} - {q};
    }
  }

  lemma SumUpdate(heap: map<Pid, Pending>, p: Pid, q: Pending)
    ensures Sum(heap[p := q]) == q.count + Sum(heap) - if p in heap then heap[p].count else 0
  {
    SumRemove(heap[p := q], p);
    assert heap[p := q] - {p} == heap - {p};
    if p in heap { SumRemove(heap, p); } else { assert heap - {p} == heap; }
  }

  lemma {:induction false} MentionsNone(hooks: seq<Hook>, p: Pid)
    ensures Mentions(hooks, p) == 0 <==> forall i :: 0 <= i < |hooks| ==> hooks[i].pid != p
    ensures Restorers(hooks, p) <= Mentions(hooks, p)
  {
    if hooks != [] {
      MentionsNone(hooks[1..], p);
      assert forall i :: 1 <= i < |hooks| ==> hooks[i] == hooks[1..][i - 1];
    }
  }

  lemma {:induction false} DropHook(hooks: seq<Hook>, i: nat, p: Pid)
    requires i < |hooks|
    ensures var r := hooks[..i] + hooks[i + 1..];
            && Mentions(r, p) == Mentions(hooks, p) - (if hooks[i].pid == p then 1 else 0)
            && Restorers(r, p) == Restorers(hooks, p) - (if hooks[i].pid == p && hooks[i].kind.RestorePending? && !hooks[i].spent then 1 else 0)
  {
    if i == 0 {
      assert hooks[..i] + hooks[i + 1..] == hooks[1..];
    } else {
      DropHook(hooks[1..], i - 1, p);
      assert (hooks[..i] + hooks[i + 1..])[1..] == hooks[1..][..i - 1] + hooks[1..][i..];
    }
  }

  lemma {:induction false} SpendHook(hooks: seq<Hook>, i: nat, p: Pid)
    requires i < |hooks| && !hooks[i].spent
    ensures var r := hooks[i := hooks[i].(spent := true)];
            && Mentions(r, p) == Mentions(hooks, p)
            && Restorers(r, p) == Restorers(hooks, p) - (if hooks[i].pid == p && hooks[i].kind.RestorePending? then 1 else 0)
  {
    var r := hooks[i := hooks[i].(spent := true)];
    if i == 0 {
      assert r[1..] == hooks[1..];
    } else {
      SpendHook(hooks[1..], i - 1, p);
      assert r[1..] == hooks[1..][i - 1 := hooks[i].(spent := true)];
    }
  }

  lemma {:induction false} SpendAll(hooks: seq<Hook>, t: TxnId, p: Pid)
    ensures Mentions(MarkSpent(hooks, t), p) == Mentions(hooks, p)
    ensures Restorers(MarkSpent(hooks, t), p) <= Restorers(hooks, p)
  {
    if hooks != [] { SpendAll(hooks[1..], t, p); }
  }

  // ---- The objects ----

  ghost predicate Tabled(table: map<Name, Pid>, heap: map<Pid, Pending>) {
    forall n | n in table :: table[n] in heap && heap[table[n]].name == n
  }

  ghost predicate Live(hooks: seq<Hook>, heap: map<Pid, Pending>, open: set<TxnId>) {
    forall i | 0 <= i < |hooks| :: hooks[i].pid in heap && hooks[i].txn in open
  }

  function Owed(owed: Option<Pid>, p: Pid): nat { if owed == Some(p) then 1 else 0 }

  /** Each object is referenced once by the table, once by each hook, and once more if a reference to it is owed. */
  ghost predicate Counted(s: State, owed: Option<Pid>) {
    forall p | p in s.heap :: s.heap[p].refs == InTable(s, p) + Mentions(s.hooks, p) + Owed(owed, p) && s.heap[p].refs >= 1
  }

  ghost predicate Summed(heap: map<Pid, Pending>, total: int) {
    total == Sum(heap) && forall p | p in heap :: heap[p].count == |heap[p].entries|
  }

  predicate Increasing(es: seq<Request>) { forall i, j :: 0 <= i < j < |es| ==> es[i].id < es[j].id }

  function Ids(es: seq<Request>): set<nat> { set r | r in es :: r.id }

  ghost predicate Numbered(heap: map<Pid, Pending>, nextPid: Pid, nextReq: nat) {
    && (forall p | p in heap :: p < nextPid && Increasing(heap[p].entries) && forall r | r in heap[p].entries :: r.id < nextReq)
    && (forall p, q | p in heap && q in heap && p != q :: Ids(heap[p].entries) !! Ids(heap[q].entries))
  }

  /** Everything but the reference counts. */
  ghost predicate Shape(s: State) {
    && Tabled(s.table, s.heap) && Live(s.hooks, s.heap, s.open)
    && Summed(s.heap, s.total) && s.total <= s.limit && Numbered(s.heap, s.nextPid, s.nextReq)
  }

  /** With one reference to an object that is about to be let go of. */
  ghost predicate Core(s: State, owed: Option<Pid>) {
    Shape(s) && Counted(s, owed) && (owed.Some? ==> owed.value in s.heap)
  }

  lemma {:induction false} SumIsNat(heap: map<Pid, Pending>)
    requires forall p | p in heap :: heap[p].count >= 0
    ensures Sum(heap) >= 0
    decreases |heap|
  {
    if heap != map[] {
      var p :| p in heap && Sum(heap) == heap[p].count + Sum(heap - {p});
      SumIsNat(heap - {p});
    }
  }

  lemma RefsKeepShape(s: State, p: Pid, k: int)
    requires Shape(s) && p in s.heap
    ensures Shape(s.(heap := s.heap[p := s.heap[p].(refs := k)]))
  {
    hide Sum, Ids;
    var heap := s.heap[p := s.heap[p].(refs := k)];
    SumUpdate(s.heap, p, heap[p]);
    assert forall x | x in s.heap :: heap[x].entries == s.heap[x].entries;
  }

  lemma FreeKeepsShape(s: State, p: Pid)
    requires Shape(s) && p in s.heap && InTable(s, p) == 0 && Mentions(s.hooks, p) == 0
    ensures Shape(s.(heap := s.heap - {p}, total := s.total - s.heap[p].count))
  {
    hide Sum, Ids, Mentions;
    SumRemove(s.heap, p);
    MentionsNone(s.hooks, p);
    assert s.heap[p].count == |s.heap[p].entries|;
  }

  lemma UnrefSettles(s: State, p: Pid)
    requires Core(s, Some(p))
    ensures Core(Unref(s, p), None)
  {
    hide Shape, Mentions;
    var q := s.heap[p];
    assert q.refs == InTable(s, p) + Mentions(s.hooks, p) + 1;
    if q.refs > 1 {
      RefsKeepShape(s, p, q.refs - 1);
    } else {
      FreeKeepsShape(s, p);
    }
    var s' := Unref(s, p);
    forall x | x in s'.heap ensures s'.heap[x].refs == InTable(s', x) + Mentions(s'.hooks, x) && s'.heap[x].refs >= 1 {
      assert s.heap[x].refs == InTable(s, x) + Mentions(s.hooks, x) + Owed(Some(p), x);
    }
  }

  lemma RemoveKeepsCore(s: State, n: Name)
    requires Core(s, None)
    ensures Core(Remove(s, n), None)
  {
    if n in s.table {
      hide Summed, Numbered, Mentions;
      var p := s.table[n];
      var s1 := s.(table := s.table - {n});
      forall x | x in s.heap ensures s1.heap[x].refs == InTable(s1, x) + Mentions(s1.hooks, x) + Owed(Some(p), x) {
        assert s.heap[x].refs == InTable(s, x) + Mentions(s.hooks, x) + Owed(None, x);
      }
      UnrefSettles(s1, p);
    }
  }

  lemma RestoreKeepsCore(s: State, p: Pid)
    requires Core(s, None) && p in s.heap && InTable(s, p) == 0
    ensures Core(Restore(s, p), None)
  {
    hide Summed, Numbered, Mentions;
    var n := s.heap[p].name;
    var s1 := Ref(s.(table := s.table[n := p]), p);
    var owed := if n in s.table then Some(s.table[n]) else None;
    RefsKeepShape(s, p, s.heap[p].refs + 1);
    forall x | x in s1.heap ensures s1.heap[x].refs == InTable(s1, x) + Mentions(s1.hooks, x) + Owed(owed, x) && s1.heap[x].refs >= 1 {
      assert s.heap[x].refs == InTable(s, x) + Mentions(s.hooks, x) + Owed(None, x);
    }
    if n in s.table { UnrefSettles(s1, s.table[n]); }
  }

  lemma HookedKeepsCore(s: State, t: TxnId, kind: HookKind, p: Pid)
    requires Core(s, None) && p in s.heap && t in s.open
    ensures Core(Hooked(s, t, kind, p), None)
  {
    hide Summed, Numbered;
    var s' := Hooked(s, t, kind, p);
    RefsKeepShape(s, p, s.heap[p].refs + 1);
    assert s'.hooks[1..] == s.hooks;
    forall x | x in s'.heap ensures s'.heap[x].refs == InTable(s', x) + Mentions(s'.hooks, x) + Owed(None, x) && s'.heap[x].refs >= 1 {
      assert s.heap[x].refs == InTable(s, x) + Mentions(s.hooks, x) + Owed(None, x);
    }
  }

  lemma FreeHookKeepsCore(s: State, i: nat)
    requires Core(s, None) && i < |s.hooks|
    ensures Core(FreeHook(s, i), None)
  {
    hide Summed, Numbered, Mentions;
    var p := s.hooks[i].pid;
    var s1 := s.(hooks := s.hooks[..i] + s.hooks[i + 1..]);
    forall x | x in s1.heap ensures s1.heap[x].refs == InTable(s1, x) + Mentions(s1.hooks, x) + Owed(Some(p), x) {
      assert s.heap[x].refs == InTable(s, x) + Mentions(s.hooks, x) + Owed(None, x);
      DropHook(s.hooks, i, x);
    }
    UnrefSettles(s1, p);
  }

  lemma RunHookKeepsCore(s: State, i: nat)
    requires Core(s, None) && i < |s.hooks| && !s.hooks[i].spent
    requires s.hooks[i].kind.RestorePending? ==> InTable(s, s.hooks[i].pid) == 0
    ensures Core(RunHook(s, i), None)
  {
    hide Summed, Numbered, Mentions;
    var h := s.hooks[i];
    var s1 := s.(hooks := s.hooks[i := h.(spent := true)]);
    forall x | x in s1.heap ensures s1.heap[x].refs == InTable(s1, x) + Mentions(s1.hooks, x) + Owed(None, x) {
      assert s.heap[x].refs == InTable(s, x) + Mentions(s.hooks, x) + Owed(None, x);
      SpendHook(s.hooks, i, x);
    }
    if h.kind.CancelPending? { RemoveKeepsCore(s1, s.heap[h.pid].name); } else { RestoreKeepsCore(s1, h.pid); }
  }

  lemma AppendKeepsNumbers(heap: map<Pid, Pending>, nextPid: Pid, nextReq: nat, p: Pid, q': Pending)
    requires Numbered(heap, nextPid, nextReq) && p in heap && |q'.entries| > 0
    requires q'.entries[..|q'.entries| - 1] == heap[p].entries && q'.entries[|q'.entries| - 1].id == nextReq
    ensures Numbered(heap[p := q'], nextPid, nextReq + 1)
  {
    var n := |q'.entries| - 1;
    assert q'.entries == heap[p].entries + [q'.entries[n]];
    assert Ids(q'.entries) == Ids(heap[p].entries) + {nextReq};
    assert forall i :: 0 <= i < n ==> q'.entries[i] in heap[p].entries;
    assert forall x | x in heap :: nextReq !in Ids(heap[x].entries);
  }

  lemma AppendToExisting(s: State, n: Name, exec: Option<Command>, conn: Option<Conn>, auto: bool)
    requires Core(s, None) && s.total < s.limit && n in s.table
    ensures Core(Appended(s, n, exec, conn, auto), None)
  {
    hide Sum, Numbered, Mentions;
    var p := s.table[n];
    var q := s.heap[p];
    var q' := q.(entries := q.entries + [Request(s.nextReq, conn, auto)], count := q.count + 1);
    var s' := Appended(s, n, exec, conn, auto);
    SumUpdate(s.heap, p, q');
    forall x | x in s'.heap ensures s'.heap[x].refs == InTable(s', x) + Mentions(s'.hooks, x) + Owed(None, x) {
      assert s.heap[x].refs == InTable(s, x) + Mentions(s.hooks, x) + Owed(None, x);
    }
    AppendKeepsNumbers(s.heap, s.nextPid, s.nextReq, p, q');
  }

  lemma NewKeepsNumbers(heap: map<Pid, Pending>, nextPid: Pid, nextReq: nat, q: Pending)
    requires Numbered(heap, nextPid, nextReq) && |q.entries| == 1 && q.entries[0].id == nextReq
    ensures nextPid !in heap && Numbered(heap[nextPid := q], nextPid + 1, nextReq + 1)
  {
    assert Ids(q.entries) == {nextReq};
    assert forall x | x in heap :: nextReq !in Ids(heap[x].entries);
  }

  lemma AppendNew(s: State, n: Name, exec: Option<Command>, conn: Option<Conn>, auto: bool)
    requires Core(s, None) && s.total < s.limit && n !in s.table
    ensures Core(Appended(s, n, exec, conn, auto), None)
  {
    hide Sum, Numbered, Mentions;
    var q := Pending(n, exec, [Request(s.nextReq, conn, auto)], 1, 1);
    var s' := Appended(s, n, exec, conn, auto);
    NewKeepsNumbers(s.heap, s.nextPid, s.nextReq, q);
    SumUpdate(s.heap, s.nextPid, q);
    MentionsNone(s.hooks, s.nextPid);
    forall x | x in s'.heap ensures s'.heap[x].refs == InTable(s', x) + Mentions(s'.hooks, x) + Owed(None, x) {
      if x in s.heap { assert s.heap[x].refs == InTable(s, x) + Mentions(s.hooks, x) + Owed(None, x); }
    }
  }

  lemma AppendKeepsCore(s: State, n: Name, exec: Option<Command>, conn: Option<Conn>, auto: bool)
    requires Core(s, None) && s.total < s.limit
    ensures Core(Appended(s, n, exec, conn, auto), None)
  {
    if n in s.table { AppendToExisting(s, n, exec, conn, auto); } else { AppendNew(s, n, exec, conn, auto); }
  }

  // ---- The requests ----

  /** In how many ways the requests of p can still be answered. */
  function Chances(s: State, p: Pid): nat
    requires p in s.heap
  {
    InTable(s, p) + Restorers(s.hooks, p)
  }

  ghost predicate OneChance(s: State) { forall p | p in s.heap :: Chances(s, p) <= 1 }

  ghost predicate AnsweredGone(s: State) {
    && (forall p | p in s.heap && Chances(s, p) > 0 :: Ids(s.heap[p].entries) !! s.answered)
    && (forall r | r in s.answered :: r < s.nextReq)
  }

  predicate Restores(h: Hook, t: TxnId) { h.txn == t && h.kind.RestorePending? && !h.spent }

  /** The request is held by t, which puts it back unless it is executed. */
  ghost predicate HeldBy(s: State, t: TxnId, r: nat) {
    exists h :: h in s.hooks && Restores(h, t) && h.pid in s.heap && r in Ids(s.heap[h.pid].entries)
  }

  ghost predicate Spoken(s: State) {
    forall i | 0 <= i < |s.staged| ::
      && s.staged[i].txn in s.open
      && (s.staged[i].txn !in s.doomed ==> HeldBy(s, s.staged[i].txn, s.staged[i].outcome.req))
  }

  /** A transaction has at most two things to say to a request: that it was handed on, and an error. */
  ghost predicate AtMostTwice(staged: seq<Staged>, doomed: set<TxnId>) {
    forall t: TxnId, r: nat | t !in doomed :: Told(StagedBy(staged, t), r) <= 2
  }

  function Said(staged: seq<Staged>): seq<Outcome> {
    if staged == [] then [] else [staged[0].outcome] + Said(staged[1..])
  }

  /** How often r has been told by transactions that have ended. */
  function Counts(s: State, r: nat): nat {
    (if r in s.answered then 1 else 0) + (if r in s.doubled then 1 else 0) + Told(s.repeated, r)
  }

  /** Everything that was ever said is the outcome of an executed transaction, was said in vain, or is being said. */
  ghost predicate Booked(s: State) {
    s.doubled <= s.answered && forall r: nat :: Told(s.outcomes, r) == Counts(s, r) + Told(Early(Said(s.staged)), r)
  }

  ghost predicate Inv(s: State) {
    Core(s, None) && OneChance(s) && AnsweredGone(s) && Spoken(s) && AtMostTwice(s.staged, s.doomed) && Booked(s)
  }

  /** s' has no object that s does not have, and no new way to answer its requests. */
  ghost predicate Fewer(s: State, s': State) {
    && s'.answered == s.answered && s'.nextReq == s.nextReq
    && forall p | p in s'.heap :: p in s.heap && s'.heap[p].entries == s.heap[p].entries && Chances(s', p) <= Chances(s, p)
  }

  lemma FewerKeeps(s: State, s': State)
    requires OneChance(s) && AnsweredGone(s) && Fewer(s, s')
    ensures OneChance(s') && AnsweredGone(s')
  {
    hide Ids, Chances;
  }

  /** What t holds it still holds, if its restoring hooks are all still there. */
  lemma StillHeld(s: State, s': State, t: TxnId, r: nat)
    requires HeldBy(s, t, r)
    requires forall h | h in s.hooks && Restores(h, t) && h.pid in s.heap ::
               h in s'.hooks && h.pid in s'.heap && Ids(s.heap[h.pid].entries) <= Ids(s'.heap[h.pid].entries)
    ensures HeldBy(s', t, r)
  {
    var h :| h in s.hooks && Restores(h, t) && h.pid in s.heap && r in Ids(s.heap[h.pid].entries);
    assert h in s'.hooks;
  }

  /** Both kinds of promise, when nothing has been said. */
  lemma SilentKeeps(s: State, s': State)
    requires Inv(s) && Core(s', None) && OneChance(s') && AnsweredGone(s')
    requires s'.staged == s.staged && s'.doomed == s.doomed && s'.open == s.open && s'.answered == s.answered
    requires s'.outcomes == s.outcomes && s'.repeated == s.repeated && s'.doubled == s.doubled
    requires forall h | h in s.hooks && !h.spent && StagedBy(s.staged, h.txn) != [] :: h in s'.hooks
    requires forall p | p in s.heap && p in s'.heap :: Ids(s.heap[p].entries) <= Ids(s'.heap[p].entries)
    ensures Inv(s')
  {
    hide Ids, Told, Early, Said, Counted, Summed, Numbered, Restorers;
    forall i | 0 <= i < |s.staged| && s.staged[i].txn !in s.doomed ensures HeldBy(s', s.staged[i].txn, s.staged[i].outcome.req) {
      var t := s.staged[i].txn;
      StagedByHas(s.staged, i);
      forall h | h in s.hooks && Restores(h, t) && h.pid in s.heap
        ensures h in s'.hooks && h.pid in s'.heap && Ids(s.heap[h.pid].entries) <= Ids(s'.heap[h.pid].entries)
      {
        assert h in s'.hooks;
        var j :| 0 <= j < |s'.hooks| && s'.hooks[j] == h;
      }
      StillHeld(s, s', t, s.staged[i].outcome.req);
    }
  }

  lemma {:induction false} StagedByHas(q: seq<Staged>, i: nat)
    requires i < |q|
    ensures q[i].outcome in StagedBy(q, q[i].txn)
  {
    if i > 0 { StagedByHas(q[1..], i - 1); }
  }

  lemma RemoveFewer(s: State, n: Name)
    requires Core(s, None)
    ensures Fewer(s, Remove(s, n)) && Remove(s, n).hooks == s.hooks
  {
    hide Summed, Numbered, Mentions, Restorers;
  }

  lemma RemoveKeeps(s: State, n: Name)
    requires Inv(s)
    ensures Inv(Remove(s, n))
  {
    RemoveKeepsCore(s, n);
    RemoveFewer(s, n);
    FewerKeeps(s, Remove(s, n));
    SilentKeeps(s, Remove(s, n));
  }

  lemma CancelHookFewer(s: State, t: TxnId, p: Pid)
    requires p in s.heap
    ensures Fewer(s, Hooked(s, t, CancelPending, p))
  {
    assert Hooked(s, t, CancelPending, p).hooks[1..] == s.hooks;
  }

  lemma CancelHookKeeps(s: State, t: TxnId, p: Pid)
    requires Inv(s) && p in s.heap && t in s.open
    ensures Inv(Hooked(s, t, CancelPending, p))
  {
    hide Summed, Numbered, Mentions, Restorers, Booked, Spoken, AtMostTwice, OneChance, AnsweredGone;
    var s' := Hooked(s, t, CancelPending, p);
    HookedKeepsCore(s, t, CancelPending, p);
    CancelHookFewer(s, t, p);
    FewerKeeps(s, s');
    assert forall h | h in s.hooks :: h in s'.hooks;
    SilentKeeps(s, s');
  }

  /** The pending activation of n leaves the table, and t will put it back. */
  function Taken(s: State, t: TxnId, n: Name): State
    requires n in s.table && s.table[n] in s.heap
  {
    Remove(Hooked(s, t, RestorePending, s.table[n]), n)
  }

  lemma TakenFewer(s: State, t: TxnId, n: Name)
    requires Core(s, None) && n in s.table
    ensures Fewer(s, Taken(s, t, n)) && Taken(s, t, n).hooks == [Hook(t, RestorePending, s.table[n], false)] + s.hooks
  {
    hide Summed, Numbered, Mentions;
    var p := s.table[n];
    assert ([Hook(t, RestorePending, p, false)] + s.hooks)[1..] == s.hooks;
  }

  lemma TakenKeeps(s: State, t: TxnId, n: Name)
    requires Inv(s) && t in s.open && n in s.table
    ensures Inv(Taken(s, t, n)) && s.table[n] in Taken(s, t, n).heap
  {
    hide Summed, Numbered, Mentions, Restorers, Booked, Spoken, AtMostTwice, OneChance, AnsweredGone;
    var s' := Taken(s, t, n);
    HookedKeepsCore(s, t, RestorePending, s.table[n]);
    RemoveKeepsCore(Hooked(s, t, RestorePending, s.table[n]), n);
    TakenFewer(s, t, n);
    FewerKeeps(s, s');
    assert forall h | h in s.hooks :: h in s'.hooks;
    SilentKeeps(s, s');
    assert s'.hooks[0].pid == s.table[n];
  }

  lemma FreeHookFewer(s: State, i: nat)
    requires i < |s.hooks| && s.hooks[i].pid in s.heap
    ensures Fewer(s, FreeHook(s, i))
    ensures forall h | h in s.hooks && h != s.hooks[i] :: h in FreeHook(s, i).hooks
  {
    hide Restorers;
    forall p ensures Restorers(s.hooks[..i] + s.hooks[i + 1..], p) <= Restorers(s.hooks, p) { DropHook(s.hooks, i, p); }
  }

  lemma FreeHookKeeps(s: State, i: nat)
    requires Inv(s) && i < |s.hooks| && s.hooks[i].spent
    ensures Inv(FreeHook(s, i))
  {
    hide Summed, Numbered, Mentions, Restorers, Booked, Spoken, AtMostTwice, OneChance, AnsweredGone;
    var s' := FreeHook(s, i);
    FreeHookKeepsCore(s, i);
    FreeHookFewer(s, i);
    FewerKeeps(s, s');
    SilentKeeps(s, s');
  }

  lemma RunHookFewer(s: State, i: nat)
    requires Core(s, None) && OneChance(s) && i < |s.hooks| && !s.hooks[i].spent
    ensures s.hooks[i].kind.RestorePending? ==> InTable(s, s.hooks[i].pid) == 0
    ensures Fewer(s, RunHook(s, i))
  {
    hide Summed, Numbered, Mentions, Restorers;
    var h := s.hooks[i];
    forall p ensures Restorers(s.hooks[i := h.(spent := true)], p) == Restorers(s.hooks, p) - (if h.pid == p && h.kind.RestorePending? then 1 else 0) {
      SpendHook(s.hooks, i, p);
    }
    assert Chances(s, h.pid) <= 1;
    assert h.kind.RestorePending? ==> Restorers(s.hooks[i := h.(spent := true)], h.pid) == Restorers(s.hooks, h.pid) - 1;
  }

  lemma RunHookKeeps(s: State, i: nat)
    requires Inv(s) && i < |s.hooks| && !s.hooks[i].spent && StagedBy(s.staged, s.hooks[i].txn) == []
    ensures Inv(RunHook(s, i))
  {
    hide Summed, Numbered, Mentions, Restorers, Booked, Spoken, AtMostTwice;
    var s' := RunHook(s, i);
    RunHookFewer(s, i);
    RunHookKeepsCore(s, i);
    FewerKeeps(s, s');
    assert s'.hooks == s.hooks[i := s.hooks[i].(spent := true)];
    forall h | h in s.hooks && !h.spent && StagedBy(s.staged, h.txn) != [] ensures h in s'.hooks {
      var j :| 0 <= j < |s.hooks| && s.hooks[j] == h;
      assert s'.hooks[j] == h;
    }
    SilentKeeps(s, s');
  }

  lemma AppendChances(s: State, n: Name, exec: Option<Command>, conn: Option<Conn>, auto: bool)
    requires Core(s, None) && OneChance(s) && AnsweredGone(s) && s.total < s.limit
    ensures var s' := Appended(s, n, exec, conn, auto); OneChance(s') && AnsweredGone(s')
  {
    hide Summed, Mentions, Numbered, Restorers;
    var s' := Appended(s, n, exec, conn, auto);
    var r := Request(s.nextReq, conn, auto);
    NewKeepsNumbers(s.heap, s.nextPid, s.nextReq, Pending(n, exec, [r], 1, 1));
    MentionsNone(s.hooks, s.nextPid);
    forall p | p in s'.heap ensures Chances(s', p) <= 1 && (Chances(s', p) > 0 ==> Ids(s'.heap[p].entries) !! s'.answered) {
      if p in s.heap {
        assert s'.heap[p].entries == s.heap[p].entries || s'.heap[p].entries == s.heap[p].entries + [r];
        assert Chances(s', p) == Chances(s, p);
      } else {
        assert s'.heap[p].entries == [r];
      }
    }
  }

  lemma AppendKeeps(s: State, n: Name, exec: Option<Command>, conn: Option<Conn>, auto: bool)
    requires Inv(s) && s.total < s.limit
    ensures Inv(Appended(s, n, exec, conn, auto))
  {
    hide Summed, Numbered, Mentions, Restorers, Booked, Spoken, AtMostTwice, OneChance, AnsweredGone;
    var s' := Appended(s, n, exec, conn, auto);
    AppendKeepsCore(s, n, exec, conn, auto);
    AppendChances(s, n, exec, conn, auto);
    assert s.nextPid !in s.heap by { NewKeepsNumbers(s.heap, s.nextPid, s.nextReq, Pending(n, exec, [Request(s.nextReq, conn, auto)], 1, 1)); }
    assert forall p | p in s.heap :: Ids(s.heap[p].entries) <= Ids(s'.heap[p].entries);
    SilentKeeps(s, s');
  }

  /** Whatever t has promised, it need not keep it. */
  lemma DoomKeeps(s: State, t: TxnId)
    requires Inv(s)
    ensures Inv(s.(doomed := s.doomed + {t}))
  {
    hide Summed, Numbered, Mentions, Restorers, Booked, Ids;
    var s' := s.(doomed := s.doomed + {t});
    forall i | 0 <= i < |s.staged| && s.staged[i].txn !in s'.doomed ensures HeldBy(s', s.staged[i].txn, s.staged[i].outcome.req) {
      assert HeldBy(s, s.staged[i].txn, s.staged[i].outcome.req);
    }
    assert Booked(s') by { BookedSame(s, s'); }
    assert Counted(s', None);
  }

  lemma BookedSame(s: State, s': State)
    requires Booked(s) && s'.outcomes == s.outcomes && s'.answered == s.answered && s'.doubled == s.doubled
    requires s'.repeated == s.repeated && s'.staged == s.staged
    ensures Booked(s')
  {
    forall r: nat ensures Told(s'.outcomes, r) == Counts(s', r) + Told(Early(Said(s'.staged)), r) { assert Counts(s', r) == Counts(s, r); }
  }

  // ---- Saying ----

  lemma {:induction false} ToldAppend(a: seq<Outcome>, b: seq<Outcome>, r: nat)
    ensures Told(a + b, r) == Told(a, r) + Told(b, r)
  {
    if a == [] { assert a + b == b; } else { ToldAppend(a[1..], b, r); assert (a + b)[1..] == a[1..] + b; }
  }

  lemma {:induction false} EarlyAppend(a: seq<Outcome>, b: seq<Outcome>)
    ensures Early(a + b) == Early(a) + Early(b)
  {
    if a == [] {
      assert a + b == b;
    } else {
      EarlyAppend(a[1..], b);
      assert (a + b)[1..] == a[1..] + b && (a + b)[0] == a[0];
      assert [a[0]] + (Early(a[1..]) + Early(b)) == [a[0]] + Early(a[1..]) + Early(b);
    }
  }

  lemma InTxnCons(t: TxnId, os: seq<Outcome>)
    ensures os == [] ==> InTxn(t, os) == []
    ensures os != [] ==> InTxn(t, os) == [Staged(t, os[0])] + InTxn(t, os[1..])
  {
  }

  lemma {:induction false} SaidAppend(a: seq<Staged>, t: TxnId, os: seq<Outcome>)
    ensures Said(a + InTxn(t, os)) == Said(a) + os
  {
    hide InTxn;
    if a != [] {
      SaidAppend(a[1..], t, os);
      assert (a + InTxn(t, os))[1..] == a[1..] + InTxn(t, os) && (a + InTxn(t, os))[0] == a[0];
      assert [a[0].outcome] + (Said(a[1..]) + os) == [a[0].outcome] + Said(a[1..]) + os;
    } else {
      SaidInTxn(t, os);
      assert a + InTxn(t, os) == InTxn(t, os);
    }
  }

  lemma {:induction false} SaidInTxn(t: TxnId, os: seq<Outcome>)
    ensures Said(InTxn(t, os)) == os
  {
    InTxnCons(t, os);
    hide InTxn;
    if os != [] {
      SaidInTxn(t, os[1..]);
      assert InTxn(t, os)[1..] == InTxn(t, os[1..]);
    }
  }

  lemma SayBooked(s: State, t: TxnId, os: seq<Outcome>)
    requires Booked(s)
    ensures Booked(Say(s, t, os))
  {
    hide Told, Early, Said;
    SaidAppend(s.staged, t, os);
    EarlyAppend(Said(s.staged), os);
    forall r: nat ensures Told(Say(s, t, os).outcomes, r) == Counts(Say(s, t, os), r) + Told(Early(Said(Say(s, t, os).staged)), r) {
      assert Counts(Say(s, t, os), r) == Counts(s, r);
      ToldAppend(s.outcomes, Early(os), r);
      ToldAppend(Early(Said(s.staged)), Early(os), r);
    }
  }

  predicate DistinctReqs(os: seq<Outcome>) { forall i, j :: 0 <= i < j < |os| ==> os[i].req != os[j].req }

  ghost predicate TwoEach(os: seq<Outcome>) { forall r: nat :: Told(os, r) <= 2 }

  /** A transaction may answer the requests it has just taken. */
  lemma SayKeeps(s: State, t: TxnId, os: seq<Outcome>)
    requires Inv(s) && t in s.open && TwoEach(os)
    requires forall o | o in os :: HeldBy(s, t, o.req) && forall i | 0 <= i < |s.staged| && s.staged[i].txn !in s.doomed :: s.staged[i].outcome.req != o.req
    ensures Inv(Say(s, t, os))
  {
    hide Told, Early, Said, Summed, Numbered, Mentions, Restorers, Ids, Booked;
    var s' := Say(s, t, os);
    SayBooked(s, t, os);
    assert Core(s', None) by { assert Counted(s', None); }
    forall i | 0 <= i < |s'.staged| ensures s'.staged[i].txn in s'.open && (s'.staged[i].txn !in s'.doomed ==> HeldBy(s', s'.staged[i].txn, s'.staged[i].outcome.req)) {
      if i < |s.staged| {
        assert s'.staged[i] == s.staged[i];
        if s.staged[i].txn !in s.doomed { assert HeldBy(s, s.staged[i].txn, s.staged[i].outcome.req); }
      } else {
        var o := os[i - |s.staged|];
        assert s'.staged[i] == Staged(t, o) && o in os && HeldBy(s, t, o.req);
      }
    }
    SpokenMore(s.staged, s.doomed, t, os);
  }

  lemma {:induction false} StagedByAppend(q: seq<Staged>, t: TxnId, os: seq<Outcome>, u: TxnId)
    ensures StagedBy(q + InTxn(t, os), u) == StagedBy(q, u) + if u == t then os else []
    ensures StagedByOthers(q + InTxn(t, os), u) == StagedByOthers(q, u) + if u == t then [] else InTxn(t, os)
  {
    hide InTxn;
    if q != [] {
      StagedByAppend(q[1..], t, os, u);
      assert (q + InTxn(t, os))[1..] == q[1..] + InTxn(t, os) && (q + InTxn(t, os))[0] == q[0];
    } else {
      assert q + InTxn(t, os) == InTxn(t, os);
      StagedByAll(t, os, u);
    }
  }

  lemma {:induction false} StagedByAll(t: TxnId, os: seq<Outcome>, u: TxnId)
    ensures StagedBy(InTxn(t, os), u) == if u == t then os else []
    ensures StagedByOthers(InTxn(t, os), u) == if u == t then [] else InTxn(t, os)
  {
    InTxnCons(t, os);
    hide InTxn;
    if os != [] {
      StagedByAll(t, os[1..], u);
      assert InTxn(t, os)[1..] == InTxn(t, os[1..]) && InTxn(t, os)[0] == Staged(t, os[0]);
    }
  }

  lemma {:induction false} NeverTold(os: seq<Outcome>, r: nat)
    ensures Told(os, r) == 0 <==> r !in ReqsOf(os)
  {
    if os != [] {
      NeverTold(os[1..], r);
      assert forall o :: o in os <==> o == os[0] || o in os[1..];
    }
  }

  lemma SpokenMore(q: seq<Staged>, doomed: set<TxnId>, t: TxnId, os: seq<Outcome>)
    requires AtMostTwice(q, doomed) && TwoEach(os)
    requires forall o | o in os :: forall i | 0 <= i < |q| && q[i].txn !in doomed :: q[i].outcome.req != o.req
    ensures AtMostTwice(q + InTxn(t, os), doomed)
  {
    var q' := q + InTxn(t, os);
    forall u: TxnId, r: nat | u !in doomed ensures Told(StagedBy(q', u), r) <= 2 {
      StagedByAppend(q, t, os, u);
      ToldAppend(StagedBy(q, u), os, r);
      NeverTold(os, r);
      NeverTold(StagedBy(q, u), r);
      OthersAre(q, u);
      assert StagedBy(q, u) + [] == StagedBy(q, u);
      if u == t && r in ReqsOf(os) && r in ReqsOf(StagedBy(q, u)) {
        assert false;
      }
    }
  }

  /** Out of memory on the way: t is doomed, so that it may have said anything. */
  lemma PartlyKeeps(s: State, t: TxnId, os: seq<Outcome>)
    requires Inv(s) && t in s.open
    ensures Inv(Say(s, t, os).(doomed := s.doomed + {t}))
  {
    hide Told, Early, Said, Summed, Numbered, Mentions, Restorers, Ids, Booked;
    DoomKeeps(s, t);
    var s1 := s.(doomed := s.doomed + {t});
    var s' := Say(s1, t, os);
    SayBooked(s1, t, os);
    assert Core(s', None) by { assert Counted(s', None); }
    forall i | 0 <= i < |s'.staged| ensures s'.staged[i].txn in s'.open && (s'.staged[i].txn !in s'.doomed ==> HeldBy(s', s'.staged[i].txn, s'.staged[i].outcome.req)) {
      if i < |s.staged| {
        assert s'.staged[i] == s.staged[i];
        if s.staged[i].txn !in s1.doomed { assert HeldBy(s1, s.staged[i].txn, s.staged[i].outcome.req); }
      }
    }
    forall u: TxnId, r: nat | u !in s'.doomed ensures Told(StagedBy(s'.staged, u), r) <= 2 {
      StagedByAppend(s.staged, t, os, u);
      assert StagedBy(s.staged, u) + [] == StagedBy(s.staged, u);
    }
  }

  // ---- Answers to a pending activation ----

  predicate InOrder(os: seq<Outcome>) { forall i, j :: 0 <= i < j < |os| ==> os[i].req < os[j].req }

  /** r is the number of a waiting request of the given kind. */
  predicate Waits(es: seq<Request>, r: nat, auto: bool) { exists i :: 0 <= i < |es| && es[i].id == r && es[i].auto == auto }

  lemma WaitsTail(es: seq<Request>, r: nat, auto: bool)
    requires es != [] && Increasing(es) && Waits(es[1..], r, auto)
    ensures Waits(es, r, auto) && es[0].id < r
  {
    var i :| 0 <= i < |es[1..]| && es[1..][i].id == r && es[1..][i].auto == auto;
    assert es[i + 1].id == r;
  }

  lemma InOrderCons(o: Outcome, os: seq<Outcome>)
    requires InOrder(os) && forall x | x in os :: o.req < x.req
    ensures InOrder([o] + os)
  {
  }

  lemma {:induction false} RepliesFrom(s: State, es: seq<Request>)
    requires Increasing(es)
    ensures InOrder(Replies(s, es)) && forall o | o in Replies(s, es) :: Waits(es, o.req, false)
  {
    if es != [] {
      RepliesFrom(s, es[1..]);
      var rest := Replies(s, es[1..]);
      forall o | o in rest ensures Waits(es, o.req, false) && es[0].id < o.req { WaitsTail(es, o.req, false); }
      InOrderCons(Outcome(es[0].id, Started), rest);
    }
  }

  lemma {:induction false} ErrorsFrom(s: State, es: seq<Request>)
    requires Increasing(es)
    ensures InOrder(Errors(s, es)) && forall o | o in Errors(s, es) :: Waits(es, o.req, true) || Waits(es, o.req, false)
  {
    if es != [] {
      ErrorsFrom(s, es[1..]);
      var rest := Errors(s, es[1..]);
      forall o | o in rest ensures (Waits(es, o.req, true) || Waits(es, o.req, false)) && es[0].id < o.req {
        if Waits(es[1..], o.req, true) { WaitsTail(es, o.req, true); } else { WaitsTail(es, o.req, false); }
      }
      InOrderCons(Outcome(es[0].id, ErrorReply), rest);
      assert Waits(es, es[0].id, es[0].auto);
    }
  }

  lemma WaitingIds(es: seq<Request>, r: nat, auto: bool)
    requires Waits(es, r, auto)
    ensures r in Ids(es)
  {
  }

  lemma {:induction false} NotWaiting(s: State, es: seq<Request>, fates: map<nat, Fate>, r: nat)
    requires r !in Ids(es)
    ensures Told(Replies(s, es), r) == 0 && Told(Handovers(s, es, fates), r) == 0
  {
    if es != [] {
      assert es[0] in es && forall x | x in es[1..] :: x in es;
      NotWaiting(s, es[1..], fates, r);
      ToldAppend(ReplyTo(s, es[0]), Replies(s, es[1..]), r);
      ToldAppend(HandoverOf(s, es[0], FateOf(fates, es[0])), Handovers(s, es[1..], fates), r);
    }
  }

  /** Every request is told what there is to say to it, and nothing else. */
  lemma {:induction false} EachTold(s: State, es: seq<Request>, fates: map<nat, Fate>, i: nat)
    requires Increasing(es) && i < |es|
    ensures Told(Replies(s, es), es[i].id) == |ReplyTo(s, es[i])|
    ensures Told(Handovers(s, es, fates), es[i].id) == |HandoverOf(s, es[i], FateOf(fates, es[i]))|
  {
    hide ReplyTo, HandoverOf;
    var first, rest := es[0], es[1..];
    assert forall k | 0 <= k < |rest| :: rest[k] == es[k + 1];
    ToldAppend(ReplyTo(s, first), Replies(s, rest), es[i].id);
    ToldAppend(HandoverOf(s, first, FateOf(fates, first)), Handovers(s, rest, fates), es[i].id);
    OnlyItself(s, first, FateOf(fates, first), es[i].id);
    if i == 0 {
      NotWaiting(s, rest, fates, first.id);
    } else {
      EachTold(s, rest, fates, i - 1);
    }
  }

  lemma OnlyItself(s: State, r: Request, f: Fate, id: nat)
    ensures Told(ReplyTo(s, r), id) == if id == r.id then |ReplyTo(s, r)| else 0
    ensures Told(HandoverOf(s, r, f), id) == if id == r.id then |HandoverOf(s, r, f)| else 0
  {
    var os := HandoverOf(s, r, f);
    if |os| == 2 { assert os[1..] == [os[1]] && os[1..][1..] == []; }
  }

  /** Nobody is told more than two things by one acquisition. */
  lemma AnswersTwice(s: State, es: seq<Request>, fates: map<nat, Fate>)
    requires Increasing(es)
    ensures var os := Replies(s, es) + Handovers(s, es, fates);
            TwoEach(os) && forall o | o in os :: o.req in Ids(es)
  {
    var a, b := Replies(s, es), Handovers(s, es, fates);
    forall r: nat ensures Told(a + b, r) <= 2 && (r !in Ids(es) ==> Told(a + b, r) == 0) {
      ToldAppend(a, b, r);
      if r in Ids(es) {
        var i :| 0 <= i < |es| && es[i].id == r;
        EachTold(s, es, fates, i);
      } else {
        NotWaiting(s, es, fates, r);
      }
    }
    forall o: Outcome | o in a + b ensures o.req in Ids(es) { NeverTold(a + b, o.req); }
  }

  lemma {:induction false} RestorerCounts(hooks: seq<Hook>, i: nat)
    requires i < |hooks| && hooks[i].kind.RestorePending? && !hooks[i].spent
    ensures Restorers(hooks, hooks[i].pid) > 0
  {
    if i > 0 { RestorerCounts(hooks[1..], i - 1); }
  }

  /** Requests in the table have no answer waiting in an open transaction. */
  lemma NotSpokenYet(s: State, n: Name, i: nat)
    requires Inv(s) && n in s.table && i < |s.staged| && s.staged[i].txn !in s.doomed
    ensures s.staged[i].outcome.req !in Ids(s.heap[s.table[n]].entries)
  {
    hide Summed, Mentions, Restorers, Ids, Booked, AtMostTwice, AnsweredGone, Counted;
    var t, r := s.staged[i].txn, s.staged[i].outcome.req;
    assert HeldBy(s, t, r);
    var h :| h in s.hooks && Restores(h, t) && h.pid in s.heap && r in Ids(s.heap[h.pid].entries);
    var j :| 0 <= j < |s.hooks| && s.hooks[j] == h;
    RestorerCounts(s.hooks, j);
    assert Chances(s, h.pid) <= 1;
    assert h.pid != s.table[n];
  }

  lemma AcquiredKeeps(s: State, t: TxnId, n: Name, fates: map<nat, Fate>)
    requires Inv(s) && t in s.open && n in s.table
    ensures Inv(ApplyAcquired(s, t, n, fates))
  {
    hide Summed, Numbered, Mentions, Restorers, Ids, Booked, Counted, OneChance, AnsweredGone, Spoken, AtMostTwice, Replies, Handovers;
    var p := s.table[n];
    var es := s.heap[p].entries;
    assert Increasing(es) by { assert Numbered(s.heap, s.nextPid, s.nextReq); NumberedOne(s, p); }
    var os := Answers(s, n, fates);
    AnswersTwice(s, es, fates);
    TakenKeeps(s, t, n);
    TakenFewer(s, t, n);
    var s1 := Taken(s, t, n);
    assert s1.heap[p].entries == es && s1.hooks[0] == Hook(t, RestorePending, p, false);
    forall o | o in os ensures HeldBy(s1, t, o.req) && forall i | 0 <= i < |s1.staged| && s1.staged[i].txn !in s1.doomed :: s1.staged[i].outcome.req != o.req {
      assert s1.hooks[0] in s1.hooks && Restores(s1.hooks[0], t);
      forall i | 0 <= i < |s1.staged| && s1.staged[i].txn !in s1.doomed ensures s1.staged[i].outcome.req != o.req {
        NotSpokenYet(s, n, i);
      }
    }
    SayKeeps(s1, t, os);
    assert ApplyAcquired(s, t, n, fates) == Say(s1, t, os).(ready := ApplyAcquired(s, t, n, fates).ready);
    ReadyKeeps(Say(s1, t, os), ApplyAcquired(s, t, n, fates).ready);
  }

  lemma ReadyKeeps(s: State, ready: set<Conn>)
    requires Inv(s)
    ensures Inv(s.(ready := ready))
  {
    IdleKeeps(s, s.(ready := ready));
  }

  lemma NumberedOne(s: State, p: Pid)
    requires Numbered(s.heap, s.nextPid, s.nextReq) && p in s.heap
    ensures Increasing(s.heap[p].entries)
  {
  }

  // ---- Ends ----

  lemma {:induction false} ToldOnce(os: seq<Outcome>, r: nat)
    requires DistinctReqs(os)
    ensures Told(os, r) == if r in ReqsOf(os) then 1 else 0
  {
    if os != [] {
      ToldOnce(os[1..], r);
      assert forall o :: o in os <==> o == os[0] || o in os[1..];
    }
  }

  lemma ToldTwice(os: seq<Outcome>, r: nat)
    requires Told(os, r) <= 2
    ensures Told(os, r) == (if r in ReqsOf(os) then 1 else 0) + if r in Doubled(os) then 1 else 0
    ensures Doubled(os) <= ReqsOf(os)
  {
    NeverTold(os, r);
    if r in ReqsOf(os) { var o :| o in os && o.req == r; }
  }

  lemma {:induction false} EarlyAndLate(os: seq<Outcome>, r: nat)
    ensures Told(Early(os), r) + Told(Late(os), r) == Told(os, r)
  {
    if os != [] {
      EarlyAndLate(os[1..], r);
      assert ([os[0]] + Early(os[1..]))[1..] == Early(os[1..]);
      assert ([os[0]] + Late(os[1..]))[1..] == Late(os[1..]);
    }
  }

  lemma {:induction false} EarlySplit(q: seq<Staged>, t: TxnId, r: nat)
    ensures Told(Early(Said(q)), r) == Told(Early(StagedBy(q, t)), r) + Told(Early(Said(StagedByOthers(q, t))), r)
  {
    if q != [] {
      EarlySplit(q[1..], t, r);
      var x, mine, rest := q[0], StagedBy(q[1..], t), StagedByOthers(q[1..], t);
      assert Said(q) == [x.outcome] + Said(q[1..]);
      if x.txn == t {
        EarlyCons(x.outcome, mine, r);
      } else {
        assert ([x] + rest)[1..] == rest;
        EarlyCons(x.outcome, Said(rest), r);
      }
      EarlyCons(x.outcome, Said(q[1..]), r);
    }
  }

  lemma EarlyCons(o: Outcome, os: seq<Outcome>, r: nat)
    ensures Told(Early([o] + os), r) == (if o.kind.OutOfMemory? && o.req == r then 1 else 0) + Told(Early(os), r)
  {
    assert ([o] + os)[1..] == os;
    assert ([o] + Early(os))[1..] == Early(os);
  }

  lemma {:induction false} OthersAre(q: seq<Staged>, t: TxnId)
    ensures forall x :: x in StagedByOthers(q, t) <==> x in q && x.txn != t
    ensures forall o | o in StagedBy(q, t) :: Staged(t, o) in q
  {
    if q != [] {
      OthersAre(q[1..], t);
      assert forall x :: x in q <==> x == q[0] || x in q[1..];
    }
  }

  lemma {:induction false} OthersStaged(q: seq<Staged>, t: TxnId, u: TxnId)
    ensures StagedBy(StagedByOthers(q, t), u) == if u == t then [] else StagedBy(q, u)
  {
    if q != [] { OthersStaged(q[1..], t, u); }
  }

  lemma {:induction false} SpendStrict(hooks: seq<Hook>, t: TxnId, i: nat)
    requires i < |hooks| && Restores(hooks[i], t)
    ensures Restorers(MarkSpent(hooks, t), hooks[i].pid) < Restorers(hooks, hooks[i].pid)
  {
    SpendAll(hooks[1..], t, hooks[i].pid);
    if i > 0 { SpendStrict(hooks[1..], t, i - 1); }
  }

  /** What t holds can be answered by t alone, and has not been answered. */
  lemma HeldAlone(s: State, t: TxnId, r: nat, p: Pid)
    requires Inv(s) && HeldBy(s, t, r) && p in s.heap && r in Ids(s.heap[p].entries)
    ensures Chances(s, p) == 1 && InTable(s, p) == 0 && Restorers(MarkSpent(s.hooks, t), p) == 0
    ensures r !in s.answered
  {
    hide Summed, Mentions, Restorers, Booked, Spoken, AtMostTwice, Counted;
    var h :| h in s.hooks && Restores(h, t) && h.pid in s.heap && r in Ids(s.heap[h.pid].entries);
    assert h.pid == p;
    var j :| 0 <= j < |s.hooks| && s.hooks[j] == h;
    RestorerCounts(s.hooks, j);
    SpendStrict(s.hooks, t, j);
    assert Chances(s, p) <= 1;
  }

  lemma HeldSomewhere(s: State, t: TxnId, r: nat) returns (p: Pid)
    requires HeldBy(s, t, r)
    ensures p in s.heap && r in Ids(s.heap[p].entries)
  {
    var h :| h in s.hooks && Restores(h, t) && h.pid in s.heap && r in Ids(s.heap[h.pid].entries);
    p := h.pid;
  }

  lemma StagedIsHeld(s: State, t: TxnId, r: nat)
    requires Inv(s) && t !in s.doomed && r in ReqsOf(StagedBy(s.staged, t))
    ensures HeldBy(s, t, r) && r !in s.answered && r < s.nextReq
  {
    hide Summed, Numbered, Mentions, Restorers, Booked, AtMostTwice, Counted, Ids, OneChance, AnsweredGone;
    OthersAre(s.staged, t);
    var o :| o in StagedBy(s.staged, t) && o.req == r;
    var i :| 0 <= i < |s.staged| && s.staged[i] == Staged(t, o);
    var p := HeldSomewhere(s, t, r);
    HeldAlone(s, t, r, p);
    IdsBelow(s, p, r);
  }

  lemma DeliverChances(s: State, t: TxnId)
    requires Inv(s) && t !in s.doomed
    ensures OneChance(Deliver(s, t)) && AnsweredGone(Deliver(s, t))
    ensures forall r | r in ReqsOf(StagedBy(s.staged, t)) :: r !in s.answered
  {
    hide Summed, Numbered, Mentions, Restorers, Booked, AtMostTwice, Counted, Ids, Spoken, HeldBy;
    var s' := Deliver(s, t);
    var os := StagedBy(s.staged, t);
    forall r | r in ReqsOf(os) ensures HeldBy(s, t, r) && r !in s.answered && r < s.nextReq { StagedIsHeld(s, t, r); }
    forall p | p in s'.heap ensures Chances(s', p) <= 1 && (Chances(s', p) > 0 ==> Ids(s'.heap[p].entries) !! s'.answered) {
      SpendAll(s.hooks, t, p);
      assert Chances(s, p) <= 1;
      if Chances(s', p) > 0 {
        forall r | r in ReqsOf(os) ensures r !in Ids(s.heap[p].entries) {
          if r in Ids(s.heap[p].entries) { HeldAlone(s, t, r, p); assert false; }
        }
      }
    }
  }

  lemma IdsBelow(s: State, p: Pid, r: nat)
    requires Numbered(s.heap, s.nextPid, s.nextReq) && p in s.heap && r in Ids(s.heap[p].entries)
    ensures r < s.nextReq
  {
  }

  lemma DeliverBooked(s: State, t: TxnId)
    requires Booked(s) && AtMostTwice(s.staged, s.doomed) && t !in s.doomed
    requires forall r | r in ReqsOf(StagedBy(s.staged, t)) :: r !in s.answered
    ensures Booked(Deliver(s, t))
  {
    hide Told, Early, Said, StagedBy, StagedByOthers, Late;
    var os := StagedBy(s.staged, t);
    var s' := Deliver(s, t);
    forall r: nat ensures Told(s'.outcomes, r) == Counts(s', r) + Told(Early(Said(s'.staged)), r) {
      ToldAppend(s.outcomes, Late(os), r);
      EarlyAndLate(os, r);
      EarlySplit(s.staged, t, r);
      ToldTwice(os, r);
    }
  }

  /** The answers of other transactions are not affected by the end of t. */
  lemma OthersSpoken(s: State, s': State, t: TxnId)
    requires Spoken(s) && AtMostTwice(s.staged, s.doomed)
    requires s'.staged == StagedByOthers(s.staged, t) && s'.heap == s.heap && s'.open == s.open && s'.doomed == s.doomed
    requires forall h | h in s.hooks && h.txn != t :: h in s'.hooks
    ensures Spoken(s') && AtMostTwice(s'.staged, s'.doomed)
  {
    OthersAre(s.staged, t);
    forall u: TxnId, r: nat | u !in s'.doomed ensures Told(StagedBy(s'.staged, u), r) <= 2 { OthersStaged(s.staged, t, u); }
    forall i | 0 <= i < |s'.staged|
      ensures s'.staged[i].txn in s'.open && (s'.staged[i].txn !in s'.doomed ==> HeldBy(s', s'.staged[i].txn, s'.staged[i].outcome.req))
    {
      assert s'.staged[i] in s'.staged;
      var j :| 0 <= j < |s.staged| && s.staged[j] == s'.staged[i];
      if s.staged[j].txn !in s.doomed { StillHeld(s, s', s.staged[j].txn, s.staged[j].outcome.req); }
    }
  }

  lemma DeliverKeeps(s: State, t: TxnId)
    requires Inv(s) && t in s.open && t !in s.doomed
    ensures Inv(Deliver(s, t))
  {
    hide Summed, Numbered, Mentions, Restorers, Booked, OneChance, AnsweredGone, Spoken, AtMostTwice, StagedBy, StagedByOthers, Doubled, Late, ReqsOf;
    var s' := Deliver(s, t);
    DeliverChances(s, t);
    DeliverBooked(s, t);
    forall h | h in s.hooks && h.txn != t ensures h in s'.hooks {
      var j :| 0 <= j < |s.hooks| && s.hooks[j] == h;
      assert s'.hooks[j] == h;
    }
    OthersSpoken(s, s', t);
    DeliverCore(s, t);
  }

  lemma DeliverCore(s: State, t: TxnId)
    requires Core(s, None)
    ensures Core(Deliver(s, t), None)
  {
    hide Summed, Numbered, Mentions, Restorers, StagedBy, StagedByOthers, Doubled, Late, ReqsOf;
    var s' := Deliver(s, t);
    forall p | p in s.heap ensures s'.heap[p].refs == InTable(s', p) + Mentions(s'.hooks, p) + Owed(None, p) && s'.heap[p].refs >= 1 {
      SpendAll(s.hooks, t, p);
      assert s.heap[p].refs == InTable(s, p) + Mentions(s.hooks, p) + Owed(None, p);
    }
  }

  lemma DropKeeps(s: State, t: TxnId)
    requires Inv(s) && t in s.open
    ensures Inv(Drop(s, t))
  {
    hide Summed, Numbered, Mentions, Restorers, Told, Early, Said, Spoken, AtMostTwice, StagedBy, StagedByOthers;
    var s' := Drop(s, t);
    OthersSpoken(s, s', t);
    assert Fewer(s, s');
    FewerKeeps(s, s');
    assert Counted(s', None);
    forall r: nat ensures Told(s'.outcomes, r) == Counts(s', r) + Told(Early(Said(s'.staged)), r) {
      ToldAppend(s.repeated, Early(StagedBy(s.staged, t)), r);
      EarlySplit(s.staged, t, r);
    }
  }

  lemma FailChances(s: State, n: Name)
    requires Inv(s) && n in s.table
    ensures var os := Errors(s, s.heap[s.table[n]].entries);
            && DistinctReqs(os) && (forall r | r in ReqsOf(os) :: r !in s.answered)
            && AnsweredGone(Remove(s, n).(answered := s.answered + ReqsOf(os)))
  {
    hide Summed, Mentions, Restorers, Booked, Spoken, AtMostTwice, Counted;
    var p := s.table[n];
    var es := s.heap[p].entries;
    var os := Errors(s, es);
    ErrorsFrom(s, es);
    forall r | r in ReqsOf(os) ensures r in Ids(es) {
      if Waits(es, r, true) { WaitingIds(es, r, true); } else { WaitingIds(es, r, false); }
    }
    var s1 := Remove(s, n);
    RemoveFewer(s, n);
    assert Chances(s, p) <= 1;
    forall q | q in s1.heap && Chances(s1, q) > 0 ensures Ids(s1.heap[q].entries) !! s.answered + ReqsOf(os) {
      assert q != p;
    }
  }

  lemma FailKeeps(s: State, n: Name)
    requires Inv(s) && n in s.table
    ensures Inv(Apply(s, ActivationFailed(n)))
  {
    hide Summed, Numbered, Mentions, Restorers, Told, Early, Said, OneChance, AnsweredGone, AtMostTwice, Errors;
    var os := Errors(s, s.heap[s.table[n]].entries);
    var s1 := Remove(s, n);
    var s' := s1.(outcomes := s.outcomes + os, answered := s.answered + ReqsOf(os));
    FailChances(s, n);
    RemoveKeeps(s, n);
    assert OneChance(s') by { OneChanceSame(s1, s'); }
    assert AnsweredGone(s') by { AnsweredSame(s1.(answered := s.answered + ReqsOf(os)), s'); }
    assert Spoken(s') by { SpokenSame(s1, s'); }
    assert Counted(s', None);
    forall r: nat ensures Told(s'.outcomes, r) == Counts(s', r) + Told(Early(Said(s'.staged)), r) {
      ToldAppend(s.outcomes, os, r);
      ToldOnce(os, r);
    }
    assert Apply(s, ActivationFailed(n)) == s';
  }

  lemma OneChanceSame(s: State, s': State)
    requires OneChance(s) && s'.heap == s.heap && s'.table == s.table && s'.hooks == s.hooks
    ensures OneChance(s')
  {
    forall p | p in s'.heap ensures Chances(s', p) <= 1 { assert Chances(s, p) <= 1; }
  }

  lemma AnsweredSame(s: State, s': State)
    requires AnsweredGone(s) && s'.heap == s.heap && s'.table == s.table && s'.hooks == s.hooks
    requires s'.answered == s.answered && s'.nextReq == s.nextReq
    ensures AnsweredGone(s')
  {
    forall p | p in s'.heap && Chances(s', p) > 0 ensures Ids(s'.heap[p].entries) !! s'.answered { assert Chances(s, p) > 0; }
  }

  lemma SpokenSame(s: State, s': State)
    requires Spoken(s) && s'.heap == s.heap && s'.hooks == s.hooks && s'.staged == s.staged && s'.open == s.open && s'.doomed == s.doomed
    ensures Spoken(s')
  {
    forall i | 0 <= i < |s.staged| && s.staged[i].txn !in s.doomed ensures HeldBy(s', s.staged[i].txn, s.staged[i].outcome.req) {
      assert HeldBy(s, s.staged[i].txn, s.staged[i].outcome.req);
    }
  }

  lemma EndKeeps(s: State, t: TxnId)
    requires Inv(s) && Enabled(s, End(t))
    ensures Inv(Apply(s, End(t)))
  {
    hide Summed, Numbered, Mentions, Restorers, Booked, AnsweredGone, OneChance;
    var s' := Apply(s, End(t));
    forall i | 0 <= i < |s.staged| ensures s.staged[i].txn != t { StagedByHas(s.staged, i); }
    forall i | 0 <= i < |s.staged| && s.staged[i].txn !in s'.doomed ensures HeldBy(s', s.staged[i].txn, s.staged[i].outcome.req) {
      assert HeldBy(s, s.staged[i].txn, s.staged[i].outcome.req);
    }
    OneChanceSame(s, s');
    AnsweredSame(s, s');
    BookedSame(s, s');
    assert Counted(s', None);
  }

  /** Steps that only open a transaction or change who is connected. */
  lemma IdleKeeps(s: State, s': State)
    requires Inv(s) && s' == s.(open := s'.open, connected := s'.connected, ready := s'.ready) && s.open <= s'.open
    ensures Inv(s')
  {
    hide Summed, Numbered, Mentions, Restorers, Booked, AnsweredGone, OneChance;
    forall i | 0 <= i < |s.staged| && s.staged[i].txn !in s'.doomed ensures HeldBy(s', s.staged[i].txn, s.staged[i].outcome.req) {
      assert HeldBy(s, s.staged[i].txn, s.staged[i].outcome.req);
    }
    OneChanceSame(s, s');
    AnsweredSame(s, s');
    BookedSame(s, s');
    assert Counted(s', None);
  }

  lemma StepKeepsInv(s: State, e: Step)
    requires Inv(s) && Enabled(s, e)
    ensures Inv(Apply(s, e))
  {
    hide Inv;
    match e {
      case Begin(t) => IdleKeeps(s, Apply(s, e));
      case Enqueue(t, n, exec, conn, auto) =>
        AppendKeeps(s, n, exec, conn, auto);
        var s1 := Appended(s, n, exec, conn, auto);
        CancelHookKeeps(s1, t, s1.table[n]);
      case EnqueueUnhooked(t, n, exec, conn, auto) =>
        AppendKeeps(s, n, exec, conn, auto);
        RemoveKeeps(Appended(s, n, exec, conn, auto), n);
        DoomKeeps(Remove(Appended(s, n, exec, conn, auto), n), t);
        assert Remove(Appended(s, n, exec, conn, auto), n).doomed == s.doomed;
      case GiveUp(n) => RemoveKeeps(s, n);
      case NameAcquired(t, n, fates) => AcquiredKeeps(s, t, n, fates);
      case PartlyAnswered(t, n, fates, k) =>
        PartlyKeeps(s, t, Answers(s, n, fates)[..k]);
        ReadyKeeps(Say(s, t, Answers(s, n, fates)[..k]).(doomed := s.doomed + {t}), Apply(s, e).ready);
      case ActivationFailed(n) => FailKeeps(s, n);
      case DeliverAll(t) => DeliverKeeps(s, t);
      case DropAll(t) => DropKeeps(s, t);
      case HookRuns(i) => RunHookKeeps(s, i);
      case HookFreed(i) => FreeHookKeeps(s, i);
      case End(t) => EndKeeps(s, t);
      case Connect(c) => IdleKeeps(s, Apply(s, e));
      case Disconnect(c) => IdleKeeps(s, Apply(s, e));
      case Preallocate(c) => IdleKeeps(s, Apply(s, e));
      case UseUp(c) => IdleKeeps(s, Apply(s, e));
    }
  }

  lemma {:induction false} EveryRunKeepsInv(s: State, es: seq<Step>)
    requires Inv(s) && Runnable(s, es)
    ensures Inv(Run(s, es))
    decreases |es|
  {
    if es != [] {
      StepKeepsInv(s, es[0]);
      EveryRunKeepsInv(Apply(s, es[0]), es[1..]);
    }
  }
}
