/**
 Pending service activations (bus/activation.c).

 A BusPendingActivation is kept alive by reference counts: one while it is in the hash table
 of pending activations, one for every cancel hook that mentions it.  `State` holds the
 counted objects by identity, the table, the hooks of all open transactions, and what every
 waiting request has been told.
*/
module Activation {
  import opened BusTypes

  type Name = nat   // service names, up to equality
  type Command = nat
  type Pid = nat   // identity of a BusPendingActivation

  /** conn is None for the daemon itself, waiting for systemd.  Ids grow in order of arrival. */
  datatype Request = Request(id: nat, conn: Option<Conn>, auto: bool)

  datatype Pending = Pending(name: Name, exec: Option<Command>, entries: seq<Request>, count: int, refs: int)

  datatype HookKind = CancelPending | RestorePending

  /** A spent hook will not run any more and only waits to be freed. */
  datatype Hook = Hook(txn: TxnId, kind: HookKind, pid: Pid, spent: bool)

  /**
   How the dispatch of an auto-start message ends once the name has an owner.  It is handed on; or
   it fails, and an error goes to the requester, at once (now) if there is no memory to queue it;
   or it fails when the copy for the owner has already been queued, and then both things happen.
   */
  datatype Fate = HandedOn | Denied(now: bool) | HandedOnAndDenied(now: bool)

  datatype Kind = Started | PassedOn | ErrorReply | OutOfMemory

  datatype Outcome = Outcome(req: nat, kind: Kind)

  /** OutOfMemory is sent at once; any other outcome waits for the end of its transaction. */
  datatype Staged = Staged(txn: TxnId, outcome: Outcome)

  datatype State = State(
    limit: nat,                  // max_pending_service_starts
    heap: map<Pid, Pending>,
    table: map<Name, Pid>,       // pending_activations
    total: int,                  // n_pending_activations
    hooks: seq<Hook>,            // newest first
    open: set<TxnId>,
    doomed: set<TxnId>,          // out of memory: can only be cancelled
    staged: seq<Staged>,         // what open transactions have to say
    outcomes: seq<Outcome>,      // what has been said
    answered: set<nat>,          // the books: requests with an outcome of an executed transaction,
    doubled: set<nat>,           //   those to which such a transaction had two things to say,
    repeated: seq<Outcome>,      //   and what cancelled transactions have said all the same
    connected: set<Conn>,
    ready: set<Conn>,            // with a preallocated out-of-memory error
    nextPid: Pid,
    nextReq: nat)

  // ---- Reference counts ----

  function Ref(s: State, p: Pid): State
    requires p in s.heap
  {
    s.(heap := s.heap[p := s.heap[p].(refs := s.heap[p].refs + 1)])
  }

  /** The last reference takes the waiting requests with it. */
  function Unref(s: State, p: Pid): State
    requires p in s.heap
  {
    var q := s.heap[p];
    if q.refs > 1 then s.(heap := s.heap[p := q.(refs := q.refs - 1)])
    else s.(heap := s.heap - {p}, total := s.total - q.count)
  }

  /** _dbus_hash_table_remove_string */
  function Remove(s: State, n: Name): State
    requires n in s.table ==> s.table[n] in s.heap
  {
    if n in s.table then Unref(s.(table := s.table - {n}), s.table[n]) else s
  }

  /** _dbus_hash_table_insert_string_preallocated, which lets go of what it replaces, and bus_pending_activation_ref. */
  function Restore(s: State, p: Pid): State
    requires p in s.heap && (s.heap[p].name in s.table ==> s.table[s.heap[p].name] in s.heap)
  {
    var n := s.heap[p].name;
    var s1 := Ref(s.(table := s.table[n := p]), p);
    if n in s.table then Unref(s1, s.table[n]) else s1
  }

  // ---- Requests ----

  function Appended(s: State, n: Name, exec: Option<Command>, conn: Option<Conn>, auto: bool): (s': State)
    requires n in s.table ==> s.table[n] in s.heap
    ensures n in s'.table && s'.table[n] in s'.heap
  {
    var r := Request(s.nextReq, conn, auto);
    var s1 := s.(total := s.total + 1, nextReq := s.nextReq + 1);
    if n in s.table then
      var q := s.heap[s.table[n]];
      s1.(heap := s.heap[s.table[n] := q.(entries := q.entries + [r], count := q.count + 1)])
    else
      s1.(heap := s.heap[s.nextPid := Pending(n, exec, [r], 1, 1)], table := s.table[n := s.nextPid], nextPid := s.nextPid + 1)
  }

  function Hooked(s: State, t: TxnId, kind: HookKind, p: Pid): State
    requires p in s.heap
  {
    Ref(s, p).(hooks := [Hook(t, kind, p, false)] + s.hooks)
  }

  // ---- Answers ----

  predicate Reachable(s: State, r: Request) { r.conn.Some? && r.conn.value in s.connected }

  function FateOf(fates: map<nat, Fate>, r: Request): Fate { if r.id in fates then fates[r.id] else HandedOn }

  /** bus_activation_service_created: explicit requests are answered, */
  function Replies(s: State, es: seq<Request>): seq<Outcome> {
    if es == [] then [] else ReplyTo(s, es[0]) + Replies(s, es[1..])
  }

  function ReplyTo(s: State, r: Request): seq<Outcome> { if Reachable(s, r) && !r.auto then [Outcome(r.id, Started)] else [] }

  /** then the dispatch of auto-start messages is resumed. */
  function Handovers(s: State, es: seq<Request>, fates: map<nat, Fate>): seq<Outcome> {
    if es == [] then [] else HandoverOf(s, es[0], FateOf(fates, es[0])) + Handovers(s, es[1..], fates)
  }

  /** The daemon itself, which waits for systemd, is handed on but cannot be told of an error. */
  function HandoverOf(s: State, r: Request, f: Fate): seq<Outcome> {
    if !r.auto || !(r.conn.None? || Reachable(s, r)) then []
    else
      (if f.Denied? then [] else [Outcome(r.id, PassedOn)]) +
      (if f.HandedOn? || r.conn.None? then [] else [Outcome(r.id, if f.now then OutOfMemory else ErrorReply)])
  }

  // ---- The preallocated error ----

  /** r is told at once, which takes a preallocated error. */
  predicate ToldNow(s: State, r: Request, f: Fate) { r.auto && (r.conn.None? || Reachable(s, r)) && !f.HandedOn? && f.now }

  /** The connections that still have their preallocated error when all of es have been handed on. */
  function ReadyAfter(s: State, es: seq<Request>, fates: map<nat, Fate>, ready: set<Conn>): set<Conn> {
    if es == [] then ready
    else
      ReadyAfter(s, es[1..], fates, if ToldNow(s, es[0], FateOf(fates, es[0])) && es[0].conn.Some? then ready - {es[0].conn.value} else ready)
  }

  /** bus_connection_send_oom_error asserts that there is a connection, and that its preallocated error is there. */
  predicate ErrorsAtHand(s: State, es: seq<Request>, fates: map<nat, Fate>, ready: set<Conn>) {
    es == [] ||
    if ToldNow(s, es[0], FateOf(fates, es[0])) then
      es[0].conn.Some? && es[0].conn.value in ready && ErrorsAtHand(s, es[1..], fates, ready - {es[0].conn.value})
    else ErrorsAtHand(s, es[1..], fates, ready)
  }

  /** try_send_activation_failure: one error for every requester that is still there. */
  function Errors(s: State, es: seq<Request>): seq<Outcome> {
    if es == [] then []
    else (if Reachable(s, es[0]) then [Outcome(es[0].id, ErrorReply)] else []) + Errors(s, es[1..])
  }

  function ReqsOf(os: seq<Outcome>): set<nat> { set o | o in os :: o.req }

  /** How often r occurs. */
  function Told(os: seq<Outcome>, r: nat): nat {
    if os == [] then 0 else (if os[0].req == r then 1 else 0) + Told(os[1..], r)
  }

  function Doubled(os: seq<Outcome>): set<nat> { set o | o in os && Told(os, o.req) > 1 :: o.req }

  function InTxn(t: TxnId, os: seq<Outcome>): seq<Staged> { seq(|os|, i requires 0 <= i < |os| => Staged(t, os[i])) }

  function Early(os: seq<Outcome>): seq<Outcome> {
    if os == [] then [] else if os[0].kind.OutOfMemory? then [os[0]] + Early(os[1..]) else Early(os[1..])
  }

  function Late(os: seq<Outcome>): seq<Outcome> {
    if os == [] then [] else if os[0].kind.OutOfMemory? then Late(os[1..]) else [os[0]] + Late(os[1..])
  }

  function StagedBy(q: seq<Staged>, t: TxnId): seq<Outcome> {
    if q == [] then [] else if q[0].txn == t then [q[0].outcome] + StagedBy(q[1..], t) else StagedBy(q[1..], t)
  }

  function StagedByOthers(q: seq<Staged>, t: TxnId): seq<Staged> {
    if q == [] then [] else if q[0].txn == t then StagedByOthers(q[1..], t) else [q[0]] + StagedByOthers(q[1..], t)
  }

  /** Queue what t has to say, and say at once what cannot be queued. */
  function Say(s: State, t: TxnId, os: seq<Outcome>): State {
    s.(staged := s.staged + InTxn(t, os), outcomes := s.outcomes + Early(os))
  }

  // ---- The end of a transaction ----

  /** Index of the first hook of t that has not run, or |hooks|. */
  function NextToRun(hooks: seq<Hook>, t: TxnId): (i: nat)
    ensures i <= |hooks|
    ensures i < |hooks| ==> hooks[i].txn == t && !hooks[i].spent
    ensures forall j :: 0 <= j < i ==> hooks[j].txn != t || hooks[j].spent
  {
    if hooks == [] || (hooks[0].txn == t && !hooks[0].spent) then 0
    else
      assert forall j :: 1 <= j < |hooks| ==> hooks[j] == hooks[1..][j - 1];
      1 + NextToRun(hooks[1..], t)
  }

  function NextToFree(hooks: seq<Hook>, t: TxnId): (i: nat)
    ensures i <= |hooks|
    ensures i < |hooks| ==> hooks[i].txn == t
    ensures forall j :: 0 <= j < i ==> hooks[j].txn != t
  {
    if hooks == [] || hooks[0].txn == t then 0
    else
      assert forall j :: 1 <= j < |hooks| ==> hooks[j] == hooks[1..][j - 1];
      1 + NextToFree(hooks[1..], t)
  }

  /** The cancel function of one hook. */
  function RunHook(s: State, i: nat): State
    requires i < |s.hooks| && s.hooks[i].pid in s.heap
    requires var n := s.heap[s.hooks[i].pid].name; n in s.table ==> s.table[n] in s.heap
  {
    var h := s.hooks[i];
    var s1 := s.(hooks := s.hooks[i := h.(spent := true)]);
    match h.kind
    case CancelPending => Remove(s1, s.heap[h.pid].name)
    case RestorePending => Restore(s1, h.pid)
  }

  /** The free function of one hook. */
  function FreeHook(s: State, i: nat): State
    requires i < |s.hooks| && s.hooks[i].pid in s.heap
  {
    Unref(s.(hooks := s.hooks[..i] + s.hooks[i + 1..]), s.hooks[i].pid)
  }

  function MarkSpent(hooks: seq<Hook>, t: TxnId): (r: seq<Hook>)
    ensures |r| == |hooks|
    ensures forall i :: 0 <= i < |r| ==> r[i] == if hooks[i].txn == t then hooks[i].(spent := true) else hooks[i]
  {
    if hooks == [] then []
    else [if hooks[0].txn == t then hooks[0].(spent := true) else hooks[0]] + MarkSpent(hooks[1..], t)
  }

  /** The messages of t go out, and its hooks will not run. */
  function Deliver(s: State, t: TxnId): State {
    var os := StagedBy(s.staged, t);
    s.(hooks := MarkSpent(s.hooks, t), outcomes := s.outcomes + Late(os), staged := StagedByOthers(s.staged, t),
    answered := s.answered + ReqsOf(os), doubled := s.doubled + Doubled(os))
  }

  /** The messages of t are dropped. */
  function Drop(s: State, t: TxnId): State {
    s.(staged := StagedByOthers(s.staged, t), repeated := s.repeated + Early(StagedBy(s.staged, t)))
  }

  // ---- Steps ----

  /** One step; a transaction ends in several of them, so that every state in between is a state of the model. */
  datatype Step =
    | Begin(t: TxnId)
    | Enqueue(t: TxnId, n: Name, exec: Option<Command>, conn: Option<Conn>, auto: bool)           // with its cancel hook
    | EnqueueUnhooked(t: TxnId, n: Name, exec: Option<Command>, conn: Option<Conn>, auto: bool)   // no memory for the hook
    | GiveUp(n: Name)                                                                            // could not be started
    | NameAcquired(t: TxnId, n: Name, fates: map<nat, Fate>)
    | PartlyAnswered(t: TxnId, n: Name, fates: map<nat, Fate>, k: nat)                           // the same, out of memory after k answers
    | ActivationFailed(n: Name)                                                                  // exited or timed out
    | DeliverAll(t: TxnId)         // executing t
    | DropAll(t: TxnId)            // cancelling t
    | HookRuns(i: nat)
    | HookFreed(i: nat)
    | End(t: TxnId)
    | Connect(c: Conn)
    | Disconnect(c: Conn)
    | Preallocate(c: Conn)         // every dispatch begins with that
    | UseUp(c: Conn)               // a dispatch that runs out of memory

  predicate CanFree(s: State, i: nat) { i < |s.hooks| && s.hooks[i].spent }

  predicate Enabled(s: State, e: Step) {
    match e
    case Begin(t) => t !in s.open
    case Enqueue(t, n, _, _, _) => t in s.open && s.total < s.limit && (n in s.table ==> s.table[n] in s.heap)
    case EnqueueUnhooked(t, n, _, _, _) => t in s.open && s.total < s.limit && (n in s.table ==> s.table[n] in s.heap)
    case GiveUp(n) => n in s.table ==> s.table[n] in s.heap
    case NameAcquired(t, n, fates) => t in s.open && n in s.table && s.table[n] in s.heap && ErrorsAtHand(s, s.heap[s.table[n]].entries, fates, s.ready)
    case PartlyAnswered(t, n, fates, k) =>
      && t in s.open && n in s.table && s.table[n] in s.heap
      && var es := s.heap[s.table[n]].entries;
         k <= |Replies(s, es)| || (k == |Answers(s, n, fates)| && ErrorsAtHand(s, es, fates, s.ready))
    case ActivationFailed(n) => n in s.table && s.table[n] in s.heap
    case DeliverAll(t) => t in s.open && t !in s.doomed
    case DropAll(t) => t in s.open
    case HookRuns(i) =>
      && i < |s.hooks| && !s.hooks[i].spent && s.hooks[i].pid in s.heap
      && StagedBy(s.staged, s.hooks[i].txn) == []
      && (s.heap[s.hooks[i].pid].name in s.table ==> s.table[s.heap[s.hooks[i].pid].name] in s.heap)
    case HookFreed(i) => CanFree(s, i) && s.hooks[i].pid in s.heap
    case End(t) => t in s.open && StagedBy(s.staged, t) == [] && NextToFree(s.hooks, t) == |s.hooks|
    case Connect(_) => true
    case Disconnect(_) => true
    case Preallocate(_) => true
    case UseUp(c) => c in s.ready
  }

  function Apply(s: State, e: Step): State
    requires Enabled(s, e)
  {
    match e
    case Begin(t) => s.(open := s.open + {t})
    case Enqueue(t, n, exec, conn, auto) =>
      var s1 := Appended(s, n, exec, conn, auto);
      Hooked(s1, t, CancelPending, s1.table[n])
    case EnqueueUnhooked(t, n, exec, conn, auto) =>
      Remove(Appended(s, n, exec, conn, auto), n).(doomed := s.doomed + {t})
    case GiveUp(n) => Remove(s, n)
    case NameAcquired(t, n, fates) => ApplyAcquired(s, t, n, fates)
    case PartlyAnswered(t, n, fates, k) =>
      var all := Answers(s, n, fates);
      Say(s, t, all[..k]).(doomed := s.doomed + {t}, ready := if k < |all| then s.ready else ReadyAfter(s, s.heap[s.table[n]].entries, fates, s.ready))
    case ActivationFailed(n) =>
      var os := Errors(s, s.heap[s.table[n]].entries);
      Remove(s.(outcomes := s.outcomes + os, answered := s.answered + ReqsOf(os)), n)
    case DeliverAll(t) => Deliver(s, t)
    case DropAll(t) => Drop(s, t)
    case HookRuns(i) => RunHook(s, i)
    case HookFreed(i) => FreeHook(s, i)
    case End(t) => s.(open := s.open - {t}, doomed := s.doomed - {t})
    case Connect(c) => s.(connected := s.connected + {c})
    case Disconnect(c) => s.(connected := s.connected - {c}, ready := s.ready - {c})
    case Preallocate(c) => s.(ready := s.ready + {c})
    case UseUp(c) => s.(ready := s.ready - {c})
  }

  /** What the acquisition of n has to say to everybody who waits for it. */
  function Answers(s: State, n: Name, fates: map<nat, Fate>): seq<Outcome>
    requires n in s.table && s.table[n] in s.heap
  {
    Replies(s, s.heap[s.table[n]].entries) + Handovers(s, s.heap[s.table[n]].entries, fates)
  }

  /** Answer everybody, remember to put the pending activation back should t be cancelled, and take it out. */
  function ApplyAcquired(s: State, t: TxnId, n: Name, fates: map<nat, Fate>): State
    requires n in s.table && s.table[n] in s.heap
  {
    Remove(Hooked(Say(s, t, Answers(s, n, fates)), t, RestorePending, s.table[n]), n)
    .(ready := ReadyAfter(s, s.heap[s.table[n]].entries, fates, s.ready))
  }

  predicate Runnable(s: State, es: seq<Step>)
    decreases |es|
  {
    es == [] || (Enabled(s, es[0]) && Runnable(Apply(s, es[0]), es[1..]))
  }

  function Run(s: State, es: seq<Step>): State
    requires Runnable(s, es)
    decreases |es|
  {
    if es == [] then s else Run(Apply(s, es[0]), es[1..])
  }

  function Initial(limit: nat, connected: set<Conn>): State {
    State(limit, map[], map[], 0, [], {}, {}, [], [], {}, {}, [], connected, {}, 0, 0)
  }
}
