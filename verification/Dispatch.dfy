/**
 Routing of one message (bus/dispatch.c, and the reply gating of bus/bus.c).

 bus_dispatch opens a transaction, asks the policy for every recipient, records or consumes
 expected replies on the way, queues the message, and finishes the transaction.  `Progress`
 is what the transaction has done so far: the posts it has queued since the messages were in
 state w, and the edits es it has made since the reply table was in state r.
*/
module Dispatch {
  import opened BusTypes
  import opened W = Transactions
  import R = ReplyTable
  import I = ReplyInvariants
  import opened ReplyTheorems
  import opened Connections

  datatype Verdict = Allowed | Refused(error: ErrorName)

  /**
   The answers of SELinux, AppArmor, the sender's and the recipient's policy and the check for
   a full queue, for a message from sender to proposed: an error, or None to let it pass.  The
   last argument says whether the message is a requested reply.
   */
  type Answers = (Conn, Option<Conn>, Conn, Message, bool) -> Option<ErrorName>

  /** Where a message that is not for the daemon goes: everywhere, to a name nobody owns, or to an owner. */
  datatype Destination = Broadcast | Unowned | OwnedBy(owner: Conn)

  datatype Outcome =
    | NotHandled                           // left to DBusConnection
    | Executed(error: Option<ErrorName>)   // with the error the sender is told about, if any
    | Cancelled                            // out of memory

  datatype Progress = Progress(w: Wire, t: TxnId, log: seq<Post>, r: R.Table, es: seq<R.Event>)

  // ---- What the reply table goes through ----

  /** m is the reply that addressed is waiting for. */
  predicate IsRequested(r: R.Table, sender: Conn, addressed: Option<Conn>, proposed: Conn, m: Message) {
    && m.Message? && m.replySerial != 0 && addressed == Some(proposed)
    && R.Find(r.pending, proposed, sender, m.replySerial) < |r.pending|
  }

  function ReplyEdits(r: R.Table, sender: Conn, addressed: Option<Conn>, proposed: Conn, m: Message): seq<R.Event> {
    if IsRequested(r, sender, addressed, proposed, m) then [R.Consume(proposed, sender, m.replySerial)] else []
  }

  function CallEdits(sender: Conn, addressed: Option<Conn>, proposed: Conn, m: Message): seq<R.Event> {
    if m.Message? && m.kind.MethodCall? && addressed == Some(proposed) && !m.noReply then [R.Record(sender, proposed, m.serial)] else []
  }

  /** The edits that letting m through to proposed makes. */
  function Edits(r: R.Table, sender: Conn, addressed: Option<Conn>, proposed: Conn, m: Message): seq<R.Event> {
    ReplyEdits(r, sender, addressed, proposed, m) + CallEdits(sender, addressed, proposed, m)
  }

  /** What is wrong with recording that proposed may reply to m, in a table where nothing is. */
  function CallObjection(pending: seq<R.PendingReply>, limit: nat, sender: Conn, addressed: Option<Conn>, proposed: Conn, m: Message): Option<ErrorName> {
    if !(m.Message? && m.kind.MethodCall? && addressed == Some(proposed) && !m.noReply) then None
    else if R.Find(pending, sender, proposed, m.serial) < |pending| then Some(AccessDenied)
    else if R.CountFor(pending, sender) >= limit then Some(LimitsExceeded)
    else None
  }

  /** The expectations that are left when a requested reply has used up its own. */
  function AfterReply(r: R.Table, sender: Conn, addressed: Option<Conn>, proposed: Conn, m: Message): seq<R.PendingReply> {
    if IsRequested(r, sender, addressed, proposed, m) then
      var i := R.Find(r.pending, proposed, sender, m.replySerial);
      r.pending[..i] + r.pending[i + 1..]
    else r.pending
  }

  /** Why m may not go to proposed, memory apart. */
  function Objection(r: R.Table, policy: Answers, sender: Conn, addressed: Option<Conn>, proposed: Conn, m: Message): Option<ErrorName> {
    if !m.Message? || m.kind.UnknownType? then Some(AccessDenied)
    else
      var answer := policy(sender, addressed, proposed, m, IsRequested(r, sender, addressed, proposed, m));
      if answer.Some? then answer
      else CallObjection(AfterReply(r, sender, addressed, proposed, m), r.limit, sender, addressed, proposed, m)
  }

  /** The edits that are made although there is an objection: a requested reply is used up before the policy is asked. */
  function EditsAnyway(r: R.Table, sender: Conn, addressed: Option<Conn>, proposed: Conn, m: Message): seq<R.Event> {
    if m.Message? && m.kind.UnknownType? then [] else ReplyEdits(r, sender, addressed, proposed, m)
  }

  /**
   The verdict v after the edits es.  Unless memory ran out it is the objection, with the edits
   made anyway; without an objection it lets the message pass, with all the edits.
   */
  predicate Judged(objection: Option<ErrorName>, all: seq<R.Event>, anyway: seq<R.Event>, v: Verdict, es: seq<R.Event>) {
    if v == Refused(NoMemory) then PartOf(es, all)
    else if objection.Some? then v == Refused(objection.value) && es == anyway
    else v == Allowed && es == all
  }

  /** Out of memory leaves a part of the edits behind, and perhaps the timer armed. */
  predicate PartOf(es: seq<R.Event>, all: seq<R.Event>) {
    es <= all || (es != [] && es[|es| - 1] == R.RecordFails && es[..|es| - 1] <= all)
  }

  lemma {:induction false} RunConcat(r: R.Table, es: seq<R.Event>, more: seq<R.Event>)
    requires R.Runnable(r, es) && R.Runnable(R.Run(r, es), more)
    ensures R.Runnable(r, es + more) && R.Run(r, es + more) == R.Run(R.Run(r, es), more)
    decreases |es|
  {
    if es == [] {
      assert es + more == more;
    } else {
      assert (es + more)[1..] == es[1..] + more;
      RunConcat(R.Apply(r, es[0]), es[1..], more);
    }
  }

  /** es is what has happened to the reply table since it was r. */
  ghost predicate Happened(r: R.Table, es: seq<R.Event>, r': R.Table) {
    InTransaction(es) && R.Runnable(r, es) && r' == R.Run(r, es)
  }

  lemma HappenedNext(r: R.Table, es: seq<R.Event>, r': R.Table, more: seq<R.Event>, r'': R.Table)
    requires Happened(r, es, r') && Happened(r', more, r'')
    ensures Happened(r, es + more, r'')
  {
    RunConcat(r, es, more);
  }

  lemma HappenedOne(r: R.Table, e: R.Event)
    requires R.Enabled(r, e) && InTransaction([e])
    ensures Happened(r, [e], R.Apply(r, e))
  {
    assert [e][1..] == [];
  }

  /** Whether m is a requested reply; only asked for the addressed recipient. */
  method GateReply(b: BusConnections, t: TxnId, sender: Conn, addressed: Option<Conn>, proposed: Conn, m: Message)
    returns (ok: bool, requested: bool, ghost es: seq<R.Event>)
    requires b.Valid() && t in b.listed && (b.hooks != [] ==> b.hookOwner == t) && m.Message?
    modifies b`pending, b`hooks, b`hookOwner
    ensures b.Valid() && (b.hooks != [] ==> b.hookOwner == t) && Happened(old(b.Replies()), es, b.Replies())
    ensures !ok ==> es == [] && addressed == Some(proposed) && !b.enough
    ensures ok ==> requested == IsRequested(old(b.Replies()), sender, addressed, proposed, m)
    ensures ok ==> es == ReplyEdits(old(b.Replies()), sender, addressed, proposed, m)
  {
    hide I.Inv, W.Inv, R.Find;
    ghost var r := b.Replies();
    ok, requested, es := true, false, [];
    if m.replySerial != 0 && addressed == Some(proposed) {
      var c := b.CheckReply(t, sender, proposed, m);
      ok, requested := !c.CheckOutOfMemory?, c.Requested?;
      if requested {
        es := [R.Consume(proposed, sender, m.replySerial)];
        HappenedOne(r, es[0]);
      }
    }
  }

  /** Record that the addressed recipient may reply. */
  method GateCall(b: BusConnections, t: TxnId, sender: Conn, addressed: Option<Conn>, proposed: Conn, m: Message)
    returns (v: Verdict, ghost es: seq<R.Event>)
    requires b.Valid() && t in b.listed && (b.hooks != [] ==> b.hookOwner == t) && sender in b.staged && m.Message?
    modifies b`pending, b`hooks, b`hookOwner, b`nextId, b`timer
    ensures b.Valid() && (b.hooks != [] ==> b.hookOwner == t) && Happened(old(b.Replies()), es, b.Replies())
    ensures v == Refused(NoMemory) ==> (es == [] || es == [R.RecordFails]) && !b.enough
    ensures v != Refused(NoMemory) ==>
              var objection := CallObjection(old(b.pending), b.limit, sender, addressed, proposed, m);
              if objection.Some? then v == Refused(objection.value) && es == []
              else v == Allowed && es == CallEdits(sender, addressed, proposed, m)
    ensures !(m.kind.MethodCall? && addressed == Some(proposed)) ==> v.Allowed?
  {
    hide I.Inv, W.Inv, R.Find, R.CountFor;
    v, es := Allowed, [];
    if m.kind.MethodCall? && addressed == Some(proposed) {
      ghost var r := b.Replies();
      var e := b.ExpectReply(t, sender, proposed, m);
      match e {
        case NotWanted =>
        case SameSerial => v := Refused(AccessDenied);
        case TooMany => v := Refused(LimitsExceeded);
        case Granted =>
          es := [R.Record(sender, proposed, m.serial)];
          HappenedOne(r, es[0]);
        case OutOfMemory =>
          v := Refused(NoMemory);
          HappenedOne(r, R.RecordFails);
          es := if b.Replies() == r then [] else [R.RecordFails];
      }
    }
  }

  lemma AfterReplyIs(r: R.Table, sender: Conn, addressed: Option<Conn>, proposed: Conn, m: Message, r1: R.Table)
    requires Happened(r, ReplyEdits(r, sender, addressed, proposed, m), r1)
    ensures r1.pending == AfterReply(r, sender, addressed, proposed, m) && r1.limit == r.limit
  {
    if IsRequested(r, sender, addressed, proposed, m) {
      var e := R.Consume(proposed, sender, m.replySerial);
      assert [e][1..] == [] && R.Run(r, [e]) == R.Run(R.Apply(r, e), []);
    }
  }

  /** bus_context_check_security_policy, for a sender that has said Hello. */
  method CheckSecurityPolicy(b: BusConnections, t: TxnId, policy: Answers, sender: Conn, addressed: Option<Conn>,
                             proposed: Conn, m: Message) returns (v: Verdict, ghost es: seq<R.Event>)
    requires b.Valid() && t in b.listed && (b.hooks != [] ==> b.hookOwner == t) && sender in b.staged && m.Message?
    modifies b`pending, b`hooks, b`hookOwner, b`nextId, b`timer
    ensures b.Valid() && (b.hooks != [] ==> b.hookOwner == t) && Happened(old(b.Replies()), es, b.Replies())
    ensures var r := old(b.Replies());
            Judged(Objection(r, policy, sender, addressed, proposed, m), Edits(r, sender, addressed, proposed, m),
                   EditsAnyway(r, sender, addressed, proposed, m), v, es)
    ensures addressed != Some(proposed) ==>   // an eavesdropper
              es == [] && (v.Allowed? <==> !m.kind.UnknownType? && policy(sender, addressed, proposed, m, false).None?)
    ensures b.enough && v == Refused(NoMemory) ==> Objection(old(b.Replies()), policy, sender, addressed, proposed, m) == Some(NoMemory)
  {
    hide I.Inv, W.Inv, Happened, IsRequested, ReplyEdits, CallEdits, Edits, EditsAnyway, Objection, CallObjection, Judged, AfterReply;
    ghost var r := b.Replies();
    NothingHappened(r);
    JudgedEarly(r, policy, sender, addressed, proposed, m);
    if addressed != Some(proposed) { Eavesdropping(r, sender, addressed, proposed, m); }
    if m.kind.UnknownType? {
      return Refused(AccessDenied), [];
    }
    var ok, requested;
    ok, requested, es := GateReply(b, t, sender, addressed, proposed, m);
    if !ok {
      return Refused(NoMemory), es;
    }
    var answer := policy(sender, addressed, proposed, m, requested);
    if answer.Some? {
      return Refused(answer.value), es;
    }
    ghost var r1, more := b.Replies(), [];
    AfterReplyIs(r, sender, addressed, proposed, m, r1);
    v, more := GateCall(b, t, sender, addressed, proposed, m);
    HappenedNext(r, es, r1, more, b.Replies());
    JudgedLate(r, policy, sender, addressed, proposed, m, v, more);
    es := es + more;
  }

  /** The verdict before anything is recorded: unknown type, no memory, or the answer of the policy. */
  lemma JudgedEarly(r: R.Table, policy: Answers, sender: Conn, addressed: Option<Conn>, proposed: Conn, m: Message)
    requires m.Message?
    ensures var o, all, anyway := Objection(r, policy, sender, addressed, proposed, m), Edits(r, sender, addressed, proposed, m), EditsAnyway(r, sender, addressed, proposed, m);
            var answer := policy(sender, addressed, proposed, m, IsRequested(r, sender, addressed, proposed, m));
            && Judged(o, all, anyway, Refused(NoMemory), [])
            && (m.kind.UnknownType? ==> Judged(o, all, anyway, Refused(AccessDenied), []))
            && (!m.kind.UnknownType? && answer.Some? ==> o == answer && Judged(o, all, anyway, Refused(answer.value), ReplyEdits(r, sender, addressed, proposed, m)))
  {
    hide R.Find;
  }

  /** The verdict once the policy has let the message pass. */
  lemma JudgedLate(r: R.Table, policy: Answers, sender: Conn, addressed: Option<Conn>, proposed: Conn, m: Message, v: Verdict, more: seq<R.Event>)
    requires m.Message? && !m.kind.UnknownType?
    requires policy(sender, addressed, proposed, m, IsRequested(r, sender, addressed, proposed, m)).None?
    requires v == Refused(NoMemory) ==> more == [] || more == [R.RecordFails]
    requires v != Refused(NoMemory) ==>
               var objection := CallObjection(AfterReply(r, sender, addressed, proposed, m), r.limit, sender, addressed, proposed, m);
               if objection.Some? then v == Refused(objection.value) && more == []
               else v == Allowed && more == CallEdits(sender, addressed, proposed, m)
    ensures Judged(Objection(r, policy, sender, addressed, proposed, m), Edits(r, sender, addressed, proposed, m),
                   EditsAnyway(r, sender, addressed, proposed, m), v, ReplyEdits(r, sender, addressed, proposed, m) + more)
  {
    hide IsRequested, CallObjection, AfterReply, ReplyEdits, CallEdits;
    var es := ReplyEdits(r, sender, addressed, proposed, m);
    assert es + [] == es && (es + [R.RecordFails])[..|es|] == es;
  }

  lemma Eavesdropping(r: R.Table, sender: Conn, addressed: Option<Conn>, proposed: Conn, m: Message)
    requires addressed != Some(proposed)
    ensures !IsRequested(r, sender, addressed, proposed, m) && ReplyEdits(r, sender, addressed, proposed, m) == []
    ensures CallEdits(sender, addressed, proposed, m) == []
  {
  }

  lemma NothingElseHappened(r: R.Table, r': R.Table)
    ensures Happened(r, [], r') ==> r' == r
  {
  }

  lemma NothingHappened(r: R.Table)
    ensures Happened(r, [], r)
  {
  }

  // ---- One open transaction ----

  /** The transaction of p is open in b, and has done what p says. */
  ghost predicate On(b: BusConnections, p: Progress)
    reads b
  {
    && b.Valid() && (b.hooks != [] ==> b.hookOwner == p.t)
    && Staged(p.w, p.t, p.log, b.Wired())
    && I.Inv(p.r) && p.r.hooks == [] && Happened(p.r, p.es, b.Replies())
  }

  ghost predicate Staged(w: Wire, t: TxnId, log: seq<Post>, w': Wire) {
    W.Inv(w) && t !in w.listed && Deliverable(w, log) && w' == Posted(w, t, log)
  }

  lemma StagedNext(w: Wire, t: TxnId, log: seq<Post>, w': Wire, c: Conn, m: Message)
    requires Staged(w, t, log, w') && c in w'.staged
    ensures t in w'.listed && Staged(w, t, log + [Post(c, m)], ApplySend(w', t, c, m))
  {
    assert (log + [Post(c, m)])[..|log|] == log;
  }

  lemma StagedKeys(w: Wire, t: TxnId, log: seq<Post>, w': Wire)
    requires Staged(w, t, log, w')
    ensures t in w'.listed && w'.staged.Keys == w.staged.Keys && w'.connected == w.connected
  {
  }

  method Begin(b: BusConnections) returns (ok: bool, t: TxnId, ghost p: Progress)
    requires b.Valid() && b.hooks == []
    modifies b`listed, b`nextTxn
    ensures b.Valid()
    ensures ok ==> On(b, p) && p.t == t && p.w == old(b.Wired()) && p.log == [] && p.r == old(b.Replies()) && p.es == []
    ensures !ok ==> b.Wired() == old(b.Wired()) && !b.enough
  {
    hide I.Inv, W.Inv;
    ghost var w := b.Wired();
    var r := b.NewTransaction();
    ok, t := r.Some?, if r.Some? then r.value else 0;
    p := Progress(w, t, [], b.Replies(), []);
  }

  method Enqueue(b: BusConnections, ghost p: Progress, t: TxnId, c: Conn, m: Message) returns (ok: bool)
    requires On(b, p) && p.t == t && c in b.staged
    modifies b`staged, b`listed
    ensures On(b, if ok then p.(log := p.log + [Post(c, m)]) else p) && b.staged.Keys == old(b.staged.Keys) && (b.enough ==> ok)
  {
    hide I.Inv, W.Inv, Staged, Happened, ApplySend;
    StagedKeys(p.w, p.t, p.log, b.Wired());
    StagedNext(p.w, p.t, p.log, b.Wired(), c, m);
    ok := b.Send(t, c, m);
  }

  /** The error reply of the daemon, which its policy may silently eat. */
  method EnqueueError(b: BusConnections, ghost p: Progress, t: TxnId, c: Conn, m: Message) returns (ok: bool)
    requires On(b, p) && p.t == t && c in b.staged
    modifies b`staged, b`listed
    ensures On(b, if ok && b.driverMaySend(c, m) then p.(log := p.log + [Post(c, m)]) else p) && b.staged.Keys == old(b.staged.Keys)
    ensures b.enough ==> ok
  {
    hide I.Inv, W.Inv, Staged, Happened, ApplySend;
    StagedKeys(p.w, p.t, p.log, b.Wired());
    StagedNext(p.w, p.t, p.log, b.Wired(), c, m);
    ok := b.SendFromDriver(t, c, m);
  }

  method Ask(b: BusConnections, ghost p: Progress, t: TxnId, policy: Answers, sender: Conn, addressed: Option<Conn>,
             proposed: Conn, m: Message) returns (v: Verdict, ghost es: seq<R.Event>)
    requires On(b, p) && p.t == t && sender in b.staged && m.Message?
    modifies b`pending, b`hooks, b`hookOwner, b`nextId, b`timer
    ensures On(b, p.(es := p.es + es))
    ensures var r := old(b.Replies());
            Judged(Objection(r, policy, sender, addressed, proposed, m), Edits(r, sender, addressed, proposed, m),
                   EditsAnyway(r, sender, addressed, proposed, m), v, es)
    ensures addressed != Some(proposed) ==>
              es == [] && (v.Allowed? <==> !m.kind.UnknownType? && policy(sender, addressed, proposed, m, false).None?)
    ensures b.enough && v == Refused(NoMemory) ==> Objection(old(b.Replies()), policy, sender, addressed, proposed, m) == Some(NoMemory)
  {
    hide I.Inv, W.Inv, Staged, Happened, R.Find;
    StagedKeys(p.w, p.t, p.log, b.Wired());
    ghost var r1 := b.Replies();
    v, es := CheckSecurityPolicy(b, t, policy, sender, addressed, proposed, m);
    HappenedNext(p.r, p.es, r1, es, b.Replies());
  }

  /** Everything that was queued is delivered, and every edit of the reply table is final. */
  method Execute(b: BusConnections, ghost p: Progress, t: TxnId)
    requires On(b, p) && p.t == t
    modifies b`staged, b`sent, b`listed, b`hooks, b`recorded, b`consumed
    ensures b.Valid() && b.hooks == []
    ensures b.Wired() == p.w.(sent := Delivered(p.w.sent, p.w.connected, p.log))
    ensures R.Runnable(p.r, p.es) && b.Replies() == R.Apply(R.Run(p.r, p.es), R.Commit)
  {
    hide I.Inv, W.Inv, Delivered, Posted;
    StagedKeys(p.w, p.t, p.log, b.Wired());
    ExecutePosted(p.w, t, p.log);
    b.ExecuteAndFree(t);
  }

  /** Nothing that was queued is delivered, and the reply table is put back. */
  method Cancel(b: BusConnections, ghost p: Progress, t: TxnId)
    requires On(b, p) && p.t == t
    modifies b`staged, b`listed, b`pending, b`hooks, b`timer
    ensures b.Valid() && b.hooks == []
    ensures b.Wired() == p.w && Restored(p.r, b.Replies())
  {
    hide I.Inv, W.Inv, Posted;
    StagedKeys(p.w, p.t, p.log, b.Wired());
    CancelPosted(p.w, t, p.log);
    CancelRestores(p.r, p.es);
    b.CancelAndFree(t);
  }

  // ---- Recipients ----

  function Copies(cs: seq<Conn>, m: Message): (log: seq<Post>) {
    if cs == [] then [] else Copies(cs[..|cs| - 1], m) + [Post(cs[|cs| - 1], m)]
  }

  predicate Willing(policy: Answers, fds: set<Conn>, sender: Conn, addressed: Option<Conn>, m: Message, c: Conn) {
    && m.Message? && !m.kind.UnknownType? && policy(sender, addressed, c, m, false).None?
    && (m.hasFds ==> c in fds)
  }

  /** The recipients with a match rule that get the message. */
  function Listeners(policy: Answers, fds: set<Conn>, sender: Conn, addressed: Option<Conn>, m: Message, rs: seq<Conn>): seq<Conn> {
    if rs == [] then []
    else
      Listeners(policy, fds, sender, addressed, m, rs[..|rs| - 1]) +
      if Willing(policy, fds, sender, addressed, m, rs[|rs| - 1]) then [rs[|rs| - 1]] else []
  }

  function Addressed(a: Option<Conn>): seq<Conn> { if a.Some? then [a.value] else [] }

  /** Whoever is refused the message is passed over without an error. */
  method SendOneMessage(b: BusConnections, ghost p: Progress, t: TxnId, policy: Answers, fds: set<Conn>, sender: Conn,
                        addressed: Option<Conn>, c: Conn, m: Message) returns (ok: bool)
    requires On(b, p) && p.t == t && sender in b.staged && c in b.staged && m.Message? && addressed != Some(c)
    modifies b`staged, b`listed, b`pending, b`hooks, b`hookOwner, b`nextId, b`timer
    ensures On(b, if ok && Willing(policy, fds, sender, addressed, m, c) then p.(log := p.log + [Post(c, m)]) else p)
    ensures b.staged.Keys == old(b.staged.Keys) && (b.enough ==> ok)
  {
    hide I.Inv, W.Inv, Staged, Happened, R.Find;
    var v, es := Ask(b, p, t, policy, sender, addressed, c, m);
    assert p.(es := p.es + es) == p;
    if v.Refused? || (m.hasFds && c !in fds) {
      return true;
    }
    ok := Enqueue(b, p, t, c, m);
  }

  method SendToListeners(b: BusConnections, ghost p: Progress, t: TxnId, policy: Answers, fds: set<Conn>, sender: Conn,
                         addressed: Option<Conn>, rs: seq<Conn>, m: Message) returns (ok: bool, ghost q: Progress, ghost k: nat)
    requires On(b, p) && p.t == t && sender in b.staged && m.Message?
    requires forall c | c in rs :: c in b.staged && addressed != Some(c)
    modifies b`staged, b`listed, b`pending, b`hooks, b`hookOwner, b`nextId, b`timer
    ensures On(b, q) && q == p.(log := q.log)
    ensures var ls := Listeners(policy, fds, sender, addressed, m, rs);
            k <= |ls| && (ok ==> k == |ls|) && q.log == p.log + Copies(ls[..k], m)
    ensures b.staged.Keys == old(b.staged.Keys) && (b.enough ==> ok)
  {
    hide On, Willing, Listeners, Copies;
    NoListeners(policy, fds, sender, addressed, m);
    ok, q, k := true, p, 0;
    var i := 0;
    ghost var to: seq<Conn> := [];
    while i < |rs|
      invariant i <= |rs| && On(b, q) && b.staged.Keys == old(b.staged.Keys)
      invariant to == Listeners(policy, fds, sender, addressed, m, rs[..i])
      invariant q == p.(log := p.log + Copies(to, m))
    {
      ListenersSoFar(policy, fds, sender, addressed, m, rs, i);
      OneListener(policy, fds, sender, addressed, m, rs, i);
      k := |to|;
      ok := SendOneMessage(b, q, t, policy, fds, sender, addressed, rs[i], m);
      if !ok {
        return;
      }
      if Willing(policy, fds, sender, addressed, m, rs[i]) {
        CopyMore(to, rs[i], m);
        q := q.(log := q.log + [Post(rs[i], m)]);
        assert q.log == p.log + (Copies(to, m) + [Post(rs[i], m)]);
        to := to + [rs[i]];
      }
      i := i + 1;
    }
    assert rs[..i] == rs && to[..|to|] == to;
    k := |to|;
  }

  lemma NoListeners(policy: Answers, fds: set<Conn>, sender: Conn, addressed: Option<Conn>, m: Message)
    ensures Listeners(policy, fds, sender, addressed, m, []) == [] && Copies([], m) == []
  {
  }

  lemma OneListener(policy: Answers, fds: set<Conn>, sender: Conn, addressed: Option<Conn>, m: Message, rs: seq<Conn>, i: nat)
    requires i < |rs|
    ensures var so, more := Listeners(policy, fds, sender, addressed, m, rs[..i]), Listeners(policy, fds, sender, addressed, m, rs[..i + 1]);
            more == if Willing(policy, fds, sender, addressed, m, rs[i]) then so + [rs[i]] else so
  {
    hide Willing;
    assert rs[..i + 1][..i] == rs[..i];
  }

  lemma CopyMore(cs: seq<Conn>, c: Conn, m: Message)
    ensures Copies(cs + [c], m) == Copies(cs, m) + [Post(c, m)]
  {
    assert (cs + [c])[..|cs|] == cs;
  }

  lemma {:induction false} ListenersSoFar(policy: Answers, fds: set<Conn>, sender: Conn, addressed: Option<Conn>, m: Message, rs: seq<Conn>, i: nat)
    requires i <= |rs|
    ensures var so, all := Listeners(policy, fds, sender, addressed, m, rs[..i]), Listeners(policy, fds, sender, addressed, m, rs);
            |so| <= |all| && all[..|so|] == so
    decreases |rs|
  {
    hide Willing;
    if i == |rs| {
      assert rs[..i] == rs;
    } else {
      var n := |rs| - 1;
      assert rs[..n][..i] == rs[..i];
      ListenersSoFar(policy, fds, sender, addressed, m, rs[..n], i);
    }
  }

  /** Why m cannot be sent to its addressed recipient c. */
  function SendObjection(r: R.Table, policy: Answers, fds: set<Conn>, sender: Conn, c: Conn, m: Message): Option<ErrorName> {
    var o := Objection(r, policy, sender, Some(c), c, m);
    if o.None? && m.Message? && m.hasFds && c !in fds then Some(NotSupported) else o
  }

  /** The edits made in spite of that: only the lack of descriptor passing is noticed after the call has been recorded. */
  function SendAnyway(r: R.Table, policy: Answers, sender: Conn, c: Conn, m: Message): seq<R.Event> {
    if Objection(r, policy, sender, Some(c), c, m).Some? then EditsAnyway(r, sender, Some(c), c, m) else Edits(r, sender, Some(c), c, m)
  }

  ghost predicate SendJudged(r: R.Table, policy: Answers, fds: set<Conn>, sender: Conn, c: Conn, m: Message, v: Verdict, es: seq<R.Event>) {
    Judged(SendObjection(r, policy, fds, sender, c, m), Edits(r, sender, Some(c), c, m), SendAnyway(r, policy, sender, c, m), v, es)
  }

  /** The addressed recipient comes first; its refusal is the sender's error. */
  method SendToAddressed(b: BusConnections, ghost p: Progress, t: TxnId, policy: Answers, fds: set<Conn>, sender: Conn,
                         c: Conn, m: Message) returns (v: Verdict, ghost q: Progress, ghost es: seq<R.Event>)
    requires On(b, p) && p.t == t && sender in b.staged && c in b.staged && m.Message?
    modifies b`staged, b`listed, b`pending, b`hooks, b`hookOwner, b`nextId, b`timer
    ensures On(b, q) && q == p.(log := q.log, es := q.es) && b.staged.Keys == old(b.staged.Keys)
    ensures q.log == if v.Allowed? then p.log + [Post(c, m)] else p.log
    ensures q.es == p.es + es && SendJudged(old(b.Replies()), policy, fds, sender, c, m, v, es)
    ensures b.enough && v == Refused(NoMemory) ==> SendObjection(old(b.Replies()), policy, fds, sender, c, m) == Some(NoMemory)
  {
    hide I.Inv, W.Inv, Staged, Happened, R.Find;
    v, es := Ask(b, p, t, policy, sender, Some(c), c, m);
    q := p.(es := p.es + es);
    if v.Refused? {
      return;
    }
    if m.hasFds && c !in fds {
      return Refused(NotSupported), q, es;
    }
    var ok := Enqueue(b, q, t, c, m);
    if ok {
      q := q.(log := q.log + [Post(c, m)]);
    } else {
      v := Refused(NoMemory);
    }
  }

  /** Everybody who gets m, the addressed recipient first. */
  function Recipients(policy: Answers, fds: set<Conn>, sender: Conn, addressed: Option<Conn>, rs: seq<Conn>, m: Message): seq<Conn> {
    Addressed(addressed) + Listeners(policy, fds, sender, addressed, m, rs)
  }

  /**
   bus_dispatch_matches.  It has posted k copies; with an error other than memory it has posted
   none, but memory may run out after any of them.
   */
  method DispatchMatches(b: BusConnections, ghost p: Progress, t: TxnId, policy: Answers, fds: set<Conn>, sender: Conn,
                         addressed: Option<Conn>, rs: seq<Conn>, m: Message)
    returns (v: Verdict, ghost q: Progress, ghost es: seq<R.Event>, ghost k: nat)
    requires On(b, p) && p.t == t && sender in b.staged && m.Message?
    requires addressed.Some? ==> addressed.value in b.staged
    requires forall c | c in rs :: c in b.staged && addressed != Some(c)
    modifies b`staged, b`listed, b`pending, b`hooks, b`hookOwner, b`nextId, b`timer
    ensures On(b, q) && q == p.(log := q.log, es := p.es + es) && b.staged.Keys == old(b.staged.Keys)
    ensures var tos := Recipients(policy, fds, sender, addressed, rs, m);
            && k <= |tos| && q.log == p.log + Copies(tos[..k], m)
            && (v.Allowed? ==> k == |tos|) && (v.Refused? && v.error != NoMemory ==> k == 0)
    ensures addressed.None? ==> es == [] && (v == Allowed || v == Refused(NoMemory))
    ensures addressed.Some? ==> SendJudged(old(b.Replies()), policy, fds, sender, addressed.value, m, v, es)
    ensures b.enough && v == Refused(NoMemory) ==>
              addressed.Some? && SendObjection(old(b.Replies()), policy, fds, sender, addressed.value, m) == Some(NoMemory)
  {
    hide I.Inv, W.Inv, Staged, Happened, R.Find, On, Judged, Objection, Edits, Copies, Listeners;
    NoCopies(m);
    v, q, es, k := Allowed, p, [], 0;
    if addressed.Some? {
      v, q, es := SendToAddressed(b, p, t, policy, fds, sender, addressed.value, m);
      if v.Refused? {
        return;
      }
      OneCopy(addressed.value, m);
      k := 1;
    }
    ghost var tos := Recipients(policy, fds, sender, addressed, rs, m);
    assert tos[..k] == Addressed(addressed);
    var full := Exhausted(b.enough);
    if full {
      OutOfMemoryLater(old(b.Replies()), policy, fds, sender, addressed, m, es);
      return Refused(NoMemory), q, es, k;   // bus_matchmaker_get_recipients
    }
    ghost var more;
    var ok;
    ok, q, more := SendToListeners(b, q, t, policy, fds, sender, addressed, rs, m);
    ghost var ls := Listeners(policy, fds, sender, addressed, m, rs);
    CopiesAppend(Addressed(addressed), ls[..more], m);
    k := k + more;
    assert tos[..k] == Addressed(addressed) + ls[..more];
    if !ok {
      OutOfMemoryLater(old(b.Replies()), policy, fds, sender, addressed, m, es);
      return Refused(NoMemory), q, es, k;
    }
  }

  lemma NoCopies(m: Message)
    ensures Copies([], m) == []
  {
  }

  lemma OneCopy(c: Conn, m: Message)
    ensures Copies([c], m) == [Post(c, m)]
  {
    assert [c][..0] == [];
  }

  /** Memory may still run out once the addressed recipient has been dealt with. */
  lemma OutOfMemoryLater(r: R.Table, policy: Answers, fds: set<Conn>, sender: Conn, addressed: Option<Conn>, m: Message, es: seq<R.Event>)
    ensures addressed.Some? && SendJudged(r, policy, fds, sender, addressed.value, m, Allowed, es) ==>
              SendJudged(r, policy, fds, sender, addressed.value, m, Refused(NoMemory), es)
  {
  }

  lemma {:induction false} CopiesAppend(cs: seq<Conn>, ds: seq<Conn>, m: Message)
    ensures Copies(cs + ds, m) == Copies(cs, m) + Copies(ds, m)
    decreases |ds|
  {
    if ds == [] {
      assert cs + ds == cs;
    } else {
      var n := |ds| - 1;
      assert (cs + ds)[..|cs| + n] == cs + ds[..n];
      CopiesAppend(cs, ds[..n], m);
    }
  }

  // ---- One message ----

  /** The error reply as it goes out, if the daemon's own policy lets it through. */
  function ErrorLog(may: Policy, sender: Conn, e: ErrorName, m: Message): seq<Post>
    requires m.Message?
  {
    var reply := DriverError(e, m.serial);
    if may(sender, reply) then [Post(sender, reply)] else []
  }

  function OomLog(sender: Conn, m: Message): seq<Post>
    requires m.Message?
  {
    [Post(sender, DriverError(NoMemory, m.serial))]
  }

  /** Out of memory with the transaction of p open: the preallocated error goes out, all else is undone. */
  method GiveUp(b: BusConnections, ghost p: Progress, t: TxnId, sender: Conn, m: Message)
    requires On(b, p) && p.t == t && sender in b.staged && sender in b.oomReady && m.Message?
    modifies b`staged, b`listed, b`sent, b`oomReady, b`pending, b`hooks, b`timer
    ensures b.Valid() && b.hooks == []
    ensures b.Wired() == p.w.(sent := Delivered(p.w.sent, p.w.connected, OomLog(sender, m)))
    ensures Restored(p.r, b.Replies()) && b.oomReady == old(b.oomReady) - {sender}
  {
    hide I.Inv, W.Inv, Happened, Delivered, Posted;
    b.SendOomError(sender, m.serial);
    PostedSent(p.w, t, p.log, b.sent);
    SentKeepsInv(p.w, b.sent) by { DeliveredKeys(p.w.sent, p.w.connected, OomLog(sender, m)); }
    Cancel(b, p.(w := p.w.(sent := b.sent)), t);
  }

  lemma DeliveredKeys(sent: map<Conn, seq<Message>>, connected: set<Conn>, log: seq<Post>)
    ensures Delivered(sent, connected, log).Keys == sent.Keys
  {
  }

  /**
   The transaction has ended with r: it was executed with its posts, or with the error reply alone,
   and its edits are final; or it was cancelled and restored, and the preallocated error is out.
   */
  ghost predicate Finished(may: Policy, p: Progress, sender: Conn, m: Message, error: Option<ErrorName>, r: Outcome, log: seq<Post>,
                           w': Wire, t': R.Table) {
    && m.Message? && (r == Cancelled || r == Executed(error))
    && (error == Some(NoMemory) ==> r == Cancelled) && (error.None? ==> r == Executed(None))
    && w' == p.w.(sent := Delivered(p.w.sent, p.w.connected, log))
    && (r == Cancelled ==> log == OomLog(sender, m) && Restored(p.r, t'))
    && (r == Executed(error) ==>
          && log == (if error.Some? then ErrorLog(may, sender, error.value, m) else p.log)
          && R.Runnable(p.r, p.es) && t' == R.Apply(R.Run(p.r, p.es), R.Commit))
  }

  /** The end of bus_dispatch, with a transaction open. */
  method Finish(b: BusConnections, ghost p: Progress, t: TxnId, sender: Conn, m: Message, error: Option<ErrorName>)
    returns (r: Outcome, ghost log: seq<Post>)
    requires On(b, p) && p.t == t && sender in b.staged && sender in b.oomReady && m.Message?
    requires error.Some? && error.value != NoMemory ==> p.log == []
    modifies b`staged, b`listed, b`sent, b`oomReady, b`pending, b`hooks, b`timer, b`recorded, b`consumed
    ensures b.Valid() && b.hooks == []
    ensures Finished(b.driverMaySend, p, sender, m, error, r, log, b.Wired(), b.Replies())
    ensures b.enough && r == Cancelled ==> error == Some(NoMemory)
    ensures b.oomReady == if r == Cancelled then old(b.oomReady) - {sender} else old(b.oomReady)
  {
    hide I.Inv, W.Inv, Delivered, Staged, Happened;
    if error == Some(NoMemory) {
      GiveUp(b, p, t, sender, m);
      return Cancelled, OomLog(sender, m);
    }
    ghost var q := p;
    if error.Some? {
      var reply := DriverError(error.value, m.serial);
      var ok := EnqueueError(b, p, t, sender, reply);
      if !ok {
        GiveUp(b, p, t, sender, m);
        return Cancelled, OomLog(sender, m);
      }
      q := p.(log := ErrorLog(b.driverMaySend, sender, error.value, m));
      assert [] + [Post(sender, reply)] == [Post(sender, reply)];
    }
    Execute(b, q, t);
    return Executed(error), q.log;
  }

  /** From the open transaction to the label out. */
  method Route(b: BusConnections, ghost p: Progress, t: TxnId, policy: Answers, fds: set<Conn>, active: set<Conn>,
               sender: Conn, dest: Destination, rs: seq<Conn>, m: Message) returns (error: Option<ErrorName>, ghost q: Progress)
    requires On(b, p) && p.t == t && p.es == [] && p.log == [] && sender in b.staged && m.Message?
    requires dest.OwnedBy? ==> dest.owner in b.staged
    requires forall c | c in rs :: c in b.staged && Owner(dest) != Some(c)
    modifies b`connected, b`staged, b`listed, b`pending, b`hooks, b`hookOwner, b`nextId, b`timer
    ensures On(b, q) && q == p.(w := q.w, log := q.log, es := q.es) && b.staged.Keys == old(b.staged.Keys)
    ensures q.w == p.w.(connected := q.w.connected)
    ensures Routed(policy, fds, active, sender, dest, rs, m, p, error, q)
    ensures error.Some? && error.value != NoMemory ==> q.log == []
    ensures b.enough && error == Some(NoMemory) ==> DispatchObjection(p.r, policy, fds, active, sender, dest, m) == Some(NoMemory)
  {
    hide I.Inv, W.Inv, Happened, Staged, Edits, Copies, Listeners;
    q := p;
    var full := Exhausted(b.enough);
    if full {
      return Some(NoMemory), q;   // dbus_message_set_sender or bus_transaction_capture
    }
    if sender !in active {
      CloseConnection(b, p, sender);
      q := p.(w := p.w.(connected := p.w.connected - {sender}));
      return None, q;
    }
    if dest.Unowned? {
      return Some(NameHasNoOwner), q;
    }
    NothingElseHappened(p.r, b.Replies());
    var v;
    ghost var es, k;
    v, q, es, k := DispatchMatches(b, p, t, policy, fds, sender, Owner(dest), rs, m);
    ghost var tos := Recipients(policy, fds, sender, Owner(dest), rs, m);
    assert [] + Copies(tos[..k], m) == Copies(tos[..k], m) && [] + es == es && tos[..|tos|] == tos;
    NoCopies(m);
    error := if v.Allowed? then None else Some(v.error);
  }

  function Owner(d: Destination): Option<Conn> { if d.OwnedBy? then Some(d.owner) else None }

  /** Why m is not delivered, memory apart. */
  function DispatchObjection(t: R.Table, policy: Answers, fds: set<Conn>, active: set<Conn>, sender: Conn, dest: Destination, m: Message): Option<ErrorName> {
    if sender !in active then None
    else match dest
      case Broadcast => None
      case Unowned => Some(NameHasNoOwner)
      case OwnedBy(c) => SendObjection(t, policy, fds, sender, c, m)
  }

  /** The edits that go with an error. */
  function DispatchAnyway(t: R.Table, policy: Answers, active: set<Conn>, sender: Conn, dest: Destination, m: Message): seq<R.Event> {
    if sender in active && dest.OwnedBy? then SendAnyway(t, policy, sender, dest.owner, m) else []
  }

  /** The error, the posts and the edits that routing m may end with. */
  ghost predicate Routed(policy: Answers, fds: set<Conn>, active: set<Conn>, sender: Conn, dest: Destination,
                         rs: seq<Conn>, m: Message, p: Progress, error: Option<ErrorName>, q: Progress)
  {
    && q.w.connected == (if error.None? && sender !in active then p.w.connected - {sender} else p.w.connected)
    && (error.None? ==> q.log == MessageLog(policy, fds, active, sender, dest, rs, m))
    && (error != Some(NoMemory) ==>
          && error == DispatchObjection(p.r, policy, fds, active, sender, dest, m)
          && q.es == if error.None? then AllEdits(p.r, active, sender, dest, m) else DispatchAnyway(p.r, policy, active, sender, dest, m))
  }

  /** dbus_connection_close, while a transaction that has queued nothing is open. */
  method CloseConnection(b: BusConnections, ghost p: Progress, c: Conn)
    requires On(b, p) && p.log == [] && c in b.staged
    modifies b`connected
    ensures On(b, p.(w := p.w.(connected := p.w.connected - {c})))
  {
    hide I.Inv, Happened;
    StepKeepsInv(p.w, Close(c));
    StepKeepsInv(b.Wired(), Close(c));
    b.connected := b.connected - {c};
  }

  /** The message itself, for whoever is to get it. */
  function MessageLog(policy: Answers, fds: set<Conn>, active: set<Conn>, sender: Conn, dest: Destination, rs: seq<Conn>, m: Message): seq<Post> {
    if sender !in active then []
    else Copies(Recipients(policy, fds, sender, Owner(dest), rs, m), m)
  }

  /** The edits that go with the delivery of m. */
  function AllEdits(t: R.Table, active: set<Conn>, sender: Conn, dest: Destination, m: Message): seq<R.Event> {
    if sender in active && dest.OwnedBy? then Edits(t, sender, Some(dest.owner), dest.owner, m) else []
  }

  /** What may have happened when bus_dispatch returns: w and t before, w' and t' after. */
  ghost predicate Concluded(may: Policy, policy: Answers, fds: set<Conn>, active: set<Conn>, sender: Conn, dest: Destination, rs: seq<Conn>,
                            m: Message, w: Wire, t: R.Table, r: Outcome, w': Wire, t': R.Table, log: seq<Post>, es: seq<R.Event>)
    requires m.Message?
  {
    var connected := if r == Executed(None) && sender !in active then w.connected - {sender} else w.connected;
    && w' == w.(connected := connected, sent := Delivered(w.sent, connected, log))
    && match r
       case NotHandled => log == [] && t' == t && dest.Broadcast? && !m.kind.Signal?
       case Cancelled => log == OomLog(sender, m) && Restored(t, t')
       case Executed(error) =>
         && (dest.Broadcast? ==> m.kind.Signal?)
         && R.Runnable(t, es) && t' == R.Apply(R.Run(t, es), R.Commit)
         && error == DispatchObjection(t, policy, fds, active, sender, dest, m) && error != Some(NoMemory)
         && if error.None? then log == MessageLog(policy, fds, active, sender, dest, rs, m) && es == AllEdits(t, active, sender, dest, m)
            else log == ErrorLog(may, sender, error.value, m) && es == DispatchAnyway(t, policy, active, sender, dest, m)
  }

  method RouteAndFinish(b: BusConnections, ghost p: Progress, x: TxnId, policy: Answers, fds: set<Conn>, active: set<Conn>,
                        sender: Conn, dest: Destination, rs: seq<Conn>, m: Message)
    returns (r: Outcome, ghost log: seq<Post>, ghost es: seq<R.Event>)
    requires On(b, p) && p.t == x && p.es == [] && p.log == [] && sender in b.staged && sender in b.oomReady && m.Message?
    requires dest.OwnedBy? ==> dest.owner in b.staged
    requires forall c | c in rs :: c in b.staged && Owner(dest) != Some(c)
    requires dest.Broadcast? ==> m.kind.Signal?
    modifies b
    ensures b.Valid() && b.hooks == []
    ensures Concluded(b.driverMaySend, policy, fds, active, sender, dest, rs, m, p.w, p.r, r, b.Wired(), b.Replies(), log, es)
    ensures b.enough && r == Cancelled ==> DispatchObjection(p.r, policy, fds, active, sender, dest, m) == Some(NoMemory)
    ensures b.oomReady == if r == Cancelled then old(b.oomReady) - {sender} else old(b.oomReady)
  {
    hide On, Routed, Finished, Concluded;
    ghost var q;
    var error;
    error, q := Route(b, p, x, policy, fds, active, sender, dest, rs, m);
    es := q.es;
    r, log := Finish(b, q, x, sender, m, error);
    Conclude(b.driverMaySend, policy, fds, active, sender, dest, rs, m, p, error, q, r, log, b.Wired(), b.Replies());
  }

  /** Routing and then finishing is what bus_dispatch may come to. */
  lemma Conclude(may: Policy, policy: Answers, fds: set<Conn>, active: set<Conn>, sender: Conn, dest: Destination, rs: seq<Conn>, m: Message,
                 p: Progress, error: Option<ErrorName>, q: Progress, r: Outcome, log: seq<Post>, w': Wire, t': R.Table)
    requires q == p.(w := q.w, log := q.log, es := q.es) && q.w == p.w.(connected := q.w.connected)
    requires Routed(policy, fds, active, sender, dest, rs, m, p, error, q) && Finished(may, q, sender, m, error, r, log, w', t')
    requires m.Message? && (dest.Broadcast? ==> m.kind.Signal?)
    ensures m.Message? && Concluded(may, policy, fds, active, sender, dest, rs, m, p.w, p.r, r, w', t', log, q.es)
  {
    hide Delivered, MessageLog, AllEdits, DispatchAnyway, DispatchObjection, Restored, R.Run, R.Runnable, R.Apply;
  }

  /** Before there is a transaction: the message is not handled, or memory has run out. */
  lemma EarlyExits(may: Policy, policy: Answers, fds: set<Conn>, active: set<Conn>, sender: Conn, dest: Destination, rs: seq<Conn>, m: Message,
                   w: Wire, t: R.Table)
    requires m.Message? && t.hooks == []
    ensures dest.Broadcast? && !m.kind.Signal? ==> Concluded(may, policy, fds, active, sender, dest, rs, m, w, t, NotHandled, w, t, [], [])
    ensures var w' := w.(sent := Delivered(w.sent, w.connected, OomLog(sender, m)));
            Concluded(may, policy, fds, active, sender, dest, rs, m, w, t, Cancelled, w', t, OomLog(sender, m), [])
  {
    hide Delivered, AllEdits, MessageLog;
    NothingDelivered(w.sent, w.connected);
  }

  /**
   bus_dispatch, for a message that is not for the daemon itself and needs no activation.  The
   transaction is finished exactly once: everything queued is delivered and the edits of the
   reply table are final, or nothing queued is delivered, the table is put back and the sender
   gets one out-of-memory error.
   */
  method BusDispatch(b: BusConnections, policy: Answers, fds: set<Conn>, active: set<Conn>, sender: Conn, dest: Destination,
                     rs: seq<Conn>, m: Message) returns (r: Outcome, ghost log: seq<Post>, ghost es: seq<R.Event>)
    requires b.Valid() && b.hooks == [] && sender in b.staged && m.Message?
    requires dest.OwnedBy? ==> dest.owner in b.staged
    requires forall c | c in rs :: c in b.staged && Owner(dest) != Some(c)
    modifies b
    ensures b.Valid() && b.hooks == []
    ensures Concluded(b.driverMaySend, policy, fds, active, sender, dest, rs, m, old(b.Wired()), old(b.Replies()),
                      r, b.Wired(), b.Replies(), log, es)
    ensures b.oomReady == if r == Cancelled then old(b.oomReady) - {sender} else old(b.oomReady) + {sender}
    ensures b.enough && r == Cancelled ==>   // only if the policy itself says so
              dest.OwnedBy? && Some(NoMemory) in {policy(sender, Some(dest.owner), dest.owner, m, true), policy(sender, Some(dest.owner), dest.owner, m, false)}
  {
    hide I.Inv, W.Inv, Delivered, On, Concluded;
    EarlyExits(b.driverMaySend, policy, fds, active, sender, dest, rs, m, b.Wired(), b.Replies());
    log, es := [], [];
    b.PreallocateOomError(sender);
    var full := Exhausted(b.enough);
    if full {
      b.SendOomError(sender, m.serial);   // _dbus_message_remove_unknown_fields
      return Cancelled, OomLog(sender, m), [];
    }
    if dest.Broadcast? && !m.kind.Signal? {
      return NotHandled, [], [];
    }
    var ok, x;
    ghost var p;
    ok, x, p := Begin(b);
    if !ok {
      b.SendOomError(sender, m.serial);
      return Cancelled, OomLog(sender, m), [];
    }
    r, log, es := RouteAndFinish(b, p, x, policy, fds, active, sender, dest, rs, m);
    if b.enough && r == Cancelled { NoMemoryObjection(old(b.Replies()), policy, fds, active, sender, dest, m); }
  }

  lemma NoMemoryObjection(t: R.Table, policy: Answers, fds: set<Conn>, active: set<Conn>, sender: Conn, dest: Destination, m: Message)
    requires DispatchObjection(t, policy, fds, active, sender, dest, m) == Some(NoMemory)
    ensures dest.OwnedBy? && Some(NoMemory) in {policy(sender, Some(dest.owner), dest.owner, m, true), policy(sender, Some(dest.owner), dest.owner, m, false)}
  {
    hide IsRequested, AfterReply;
  }
}
