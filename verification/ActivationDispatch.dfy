/**
 How the dispatch of a message that waited for a service is resumed (bus/activation.c, the loop
 of bus_activation_send_pending_auto_activation_messages), on the messages and the reply table.
 This is where the fates of module Activation come from.
*/
module ActivationDispatch {
  import opened BusTypes
  import opened W = Transactions
  import R = ReplyTable
  import I = ReplyInvariants
  import opened Connections
  import opened Dispatch
  import D = DispatchTheorems
  import A = Activation

  /** An entry with the message that it holds back, and the recipients with a match rule for it. */
  datatype Waiting = Waiting(request: A.Request, message: Message, listeners: seq<Conn>)

  /** The error of a failed dispatch: out of memory, or the objection to sending m to its new owner. */
  predicate IsError(r: R.Table, policy: Answers, fds: set<Conn>, sender: Conn, owner: Conn, m: Message, k: nat, e: ErrorName) {
    e == NoMemory || (k == 0 && SendObjection(r, policy, fds, sender, owner, m) == Some(e))
  }

  /** The edits es of the reply table r are those of a dispatch that ended with this fate and error. */
  ghost predicate Edited(r: R.Table, policy: Answers, fds: set<Conn>, sender: Conn, owner: Conn, m: Message, fate: A.Fate, e: ErrorName, es: seq<R.Event>) {
    SendJudged(r, policy, fds, sender, owner, m, if fate.HandedOn? then Allowed else Refused(e), es)
  }

  /** The error reply, unless it has been sent at once. */
  function ErrorPosts(may: Policy, sender: Conn, m: Message, fate: A.Fate, e: ErrorName): seq<Post>
    requires m.Message?
  {
    if !fate.HandedOn? && !fate.now then ErrorLog(may, sender, e, m) else []
  }

  /**
   The dispatch of m ended with this fate: k copies were posted, the first of them for the owner,
   and e is the error, if there is one.
   */
  ghost predicate Resumed(may: Policy, policy: Answers, fds: set<Conn>, sender: Conn, owner: Conn, rs: seq<Conn>, m: Message,
                          p: Progress, q: Progress, fate: A.Fate, k: nat, e: ErrorName)
    requires m.Message?
  {
    var tos := Recipients(policy, fds, sender, Some(owner), rs, m);
    && q == p.(w := q.w, log := q.log, es := q.es) && k <= |tos|
    && (fate.HandedOn? ==> k == |tos|) && (fate.Denied? <==> k == 0)
    && q.log == p.log + Copies(tos[..k], m) + ErrorPosts(may, sender, m, fate, e)
    && q.w == if !fate.HandedOn? && fate.now then p.w.(sent := Delivered(p.w.sent, p.w.connected, OomLog(sender, m))) else p.w
  }

  /** The owner is posted the message exactly once unless it is denied, whatever becomes of the listeners and of the error. */
  lemma HandedOnIff(may: Policy, policy: Answers, fds: set<Conn>, sender: Conn, owner: Conn, rs: seq<Conn>, m: Message,
                    p: Progress, q: Progress, fate: A.Fate, k: nat, e: ErrorName)
    requires m.Message? && NoDuplicates(rs) && owner !in rs
    requires Resumed(may, policy, fds, sender, owner, rs, m, p, q, fate, k, e)
    ensures For(q.log, owner) == For(p.log, owner) + (if fate.Denied? then [] else [m]) + For(ErrorPosts(may, sender, m, fate, e), owner)
  {
    hide Listeners, NoDuplicates;
    var tos := Recipients(policy, fds, sender, Some(owner), rs, m);
    EachOnce(policy, fds, sender, owner, rs, m, k);
    D.CopiesFor(tos[..k], m, owner);
    ForAppend(p.log + Copies(tos[..k], m), ErrorPosts(may, sender, m, fate, e), owner);
    ForAppend(p.log, Copies(tos[..k], m), owner);
    assert k > 0 ==> tos[..k][0] == owner;
  }

  /**
   Everybody else in plain words: the first k recipients get one copy each, the requester gets the
   error in reply to its message, queued or at once, and nobody gets anything else.
   */
  lemma PostedIs(may: Policy, policy: Answers, fds: set<Conn>, sender: Conn, owner: Conn, rs: seq<Conn>, m: Message,
                 p: Progress, q: Progress, fate: A.Fate, k: nat, e: ErrorName, c: Conn)
    requires m.Message? && NoDuplicates(rs) && owner !in rs
    requires Resumed(may, policy, fds, sender, owner, rs, m, p, q, fate, k, e) && c in p.w.sent
    ensures var copy := c in Recipients(policy, fds, sender, Some(owner), rs, m)[..k];
            var told := fate != A.HandedOn && !fate.now && c == sender && may(sender, DriverError(e, m.serial));
            For(q.log, c) == For(p.log, c) + (if copy then [m] else []) + (if told then [DriverError(e, m.serial)] else [])
    ensures q.w.sent.Keys == p.w.sent.Keys
    ensures q.w.sent[c] == p.w.sent[c] + if fate != A.HandedOn && fate.now && c == sender && c in p.w.connected then [DriverError(NoMemory, m.serial)] else []
  {
    hide For, Copies, Listeners, Delivered, NoDuplicates, Recipients;
    var tos := Recipients(policy, fds, sender, Some(owner), rs, m);
    EachOnce(policy, fds, sender, owner, rs, m, k);
    D.CopiesFor(tos[..k], m, c);
    ForAppend(p.log + Copies(tos[..k], m), ErrorPosts(may, sender, m, fate, e), c);
    ForAppend(p.log, Copies(tos[..k], m), c);
    ForOne(sender, DriverError(e, m.serial), c);
    DeliveredOne(p.w.sent, p.w.connected, sender, DriverError(NoMemory, m.serial));
  }

  lemma EachOnce(policy: Answers, fds: set<Conn>, sender: Conn, owner: Conn, rs: seq<Conn>, m: Message, k: nat)
    requires NoDuplicates(rs) && owner !in rs && k <= |Recipients(policy, fds, sender, Some(owner), rs, m)|
    ensures NoDuplicates(Recipients(policy, fds, sender, Some(owner), rs, m)[..k])
  {
    hide Willing, Listeners;
    D.ListenersAre(policy, fds, sender, Some(owner), m, rs);
    D.AddressedFirst(Some(owner), Listeners(policy, fds, sender, Some(owner), m, rs));
  }

  lemma ForOne(to: Conn, m: Message, c: Conn)
    ensures For([Post(to, m)], c) == (if c == to then [m] else []) && For([], c) == []
  {
    assert [Post(to, m)][..0] == [];
  }

  // ---- One message ----

  /** The preallocated error goes out at once, with the transaction of p open. */
  method SendAtOnce(b: BusConnections, ghost p: Progress, sender: Conn, m: Message) returns (ghost q: Progress)
    requires On(b, p) && sender in b.staged && sender in b.oomReady && m.Message?
    modifies b`sent, b`oomReady
    ensures On(b, q) && q == p.(w := p.w.(sent := Delivered(p.w.sent, p.w.connected, OomLog(sender, m))))
    ensures b.oomReady == old(b.oomReady) - {sender}
  {
    hide I.Inv, W.Inv, Happened, Delivered, Posted;
    b.SendOomError(sender, m.serial);
    PostedSent(p.w, p.t, p.log, b.sent);
    SentKeepsInv(p.w, b.sent) by { DeliveredKeys(p.w.sent, p.w.connected, OomLog(sender, m)); }
    q := p.(w := p.w.(sent := b.sent));
  }

  /** What follows a failed dispatch: an error reply in the same transaction, or else the preallocated error. */
  method TellError(b: BusConnections, ghost p: Progress, t: TxnId, sender: Conn, m: Message, e: ErrorName)
    returns (now: Option<bool>, ghost q: Progress)
    requires On(b, p) && p.t == t && sender in b.staged && m.Message?
    modifies b`staged, b`listed, b`sent, b`oomReady
    ensures On(b, q) && q == p.(w := q.w, log := q.log) && b.staged.Keys == old(b.staged.Keys)
    ensures now.None? ==> sender !in old(b.oomReady)
    ensures b.enough ==> now == Some(false)
    ensures now == Some(false) ==> q == p.(log := p.log + ErrorLog(b.driverMaySend, sender, e, m)) && b.oomReady == old(b.oomReady)
    ensures now == Some(true) ==>
              && sender in old(b.oomReady) && b.oomReady == old(b.oomReady) - {sender}
              && q == p.(w := p.w.(sent := Delivered(p.w.sent, p.w.connected, OomLog(sender, m))))
  {
    hide On, Delivered;
    var ok := EnqueueError(b, p, t, sender, DriverError(e, m.serial));
    if ok {
      assert p.log + [] == p.log;
      q := p.(log := p.log + ErrorLog(b.driverMaySend, sender, e, m));
      return Some(false), q;
    }
    if sender !in b.oomReady {
      return None, p;   // the assertion of bus_connection_send_oom_error fails
    }
    q := SendAtOnce(b, p, sender, m);
    now := Some(true);
  }

  /**
   Resume the dispatch of m, now that there is an owner.  If it is not ok, the daemon has reached
   the assertion that a preallocated error is there.
   */
  method Resume(b: BusConnections, ghost p: Progress, t: TxnId, policy: Answers, fds: set<Conn>, sender: Conn, owner: Conn,
                rs: seq<Conn>, m: Message)
    returns (ok: bool, ghost fate: A.Fate, ghost q: Progress, ghost k: nat, ghost e: ErrorName, ghost es: seq<R.Event>)
    requires On(b, p) && p.t == t && sender in b.staged && owner in b.staged && m.Message?
    requires forall c | c in rs :: c in b.staged && c != owner
    modifies b`staged, b`listed, b`sent, b`oomReady, b`pending, b`hooks, b`hookOwner, b`nextId, b`timer
    ensures On(b, q) && q.t == t && b.staged.Keys == old(b.staged.Keys)
    ensures !ok ==> sender !in old(b.oomReady)
    ensures b.enough ==> ok && !AtOnce(fate) && (SendObjection(old(b.Replies()), policy, fds, sender, owner, m).None? ==> fate.HandedOn?)
    ensures ok ==>
              && Resumed(b.driverMaySend, policy, fds, sender, owner, rs, m, p, q, fate, k, e)
              && (!fate.HandedOn? ==> IsError(old(b.Replies()), policy, fds, sender, owner, m, k, e))
              && q.es == p.es + es && Edited(old(b.Replies()), policy, fds, sender, owner, m, fate, e, es)
              && (AtOnce(fate) ==> sender in old(b.oomReady))
              && b.oomReady == if AtOnce(fate) then old(b.oomReady) - {sender} else old(b.oomReady)
  {
    hide On, Delivered, Copies, Listeners, SendObjection, Edits, SendAnyway;
    ok, fate, e := true, A.HandedOn, NoMemory;
    var v;
    v, q, es, k := DispatchMatches(b, p, t, policy, fds, sender, Some(owner), rs, m);
    ghost var tos := Recipients(policy, fds, sender, Some(owner), rs, m);
    ghost var posted := p.log + Copies(tos[..k], m);
    assert posted + [] == posted && |tos| > 0;
    if v.Allowed? {
      return;
    }
    e := v.error;
    var now;
    now, q := TellError(b, q, t, sender, m, v.error);
    ok := now.Some?;
    if ok {
      fate := if k == 0 then A.Denied(now.value) else A.HandedOnAndDenied(now.value);
    }
  }

  predicate AtOnce(fate: A.Fate) { !fate.HandedOn? && fate.now }

  // ---- All that waited ----

  predicate Due(connected: set<Conn>, r: A.Request) { r.auto && r.conn.Some? && r.conn.value in connected }

  /** One turn of the loop, which takes p to q; an error is that of the table r as the turn found it. */
  ghost predicate Turn(may: Policy, policy: Answers, fds: set<Conn>, owner: Conn, connected: set<Conn>, w: Waiting, fate: A.Fate, p: Progress, q: Progress) {
    w.message.Message? &&
    if Due(connected, w.request) then
      exists k, e, r, es ::
        && Happened(p.r, p.es, r) && q.es == p.es + es && Edited(r, policy, fds, w.request.conn.value, owner, w.message, fate, e, es)
        && Resumed(may, policy, fds, w.request.conn.value, owner, w.listeners, w.message, p, q, fate, k, e)
        && (!fate.HandedOn? ==> IsError(r, policy, fds, w.request.conn.value, owner, w.message, k, e))
    else q == p
  }

  ghost predicate AllTurns(may: Policy, policy: Answers, fds: set<Conn>, owner: Conn, connected: set<Conn>, ws: seq<Waiting>,
                           fates: map<nat, A.Fate>, ps: seq<Progress>) {
    && |ps| == |ws| + 1
    && forall i | 0 <= i < |ws| ::
         && ws[i].request.id in fates
         && Turn(may, policy, fds, owner, connected, ws[i], fates[ws[i].request.id], ps[i], ps[i + 1])
  }

  function Requests(ws: seq<Waiting>): (rs: seq<A.Request>)
    ensures |rs| == |ws| && forall i :: 0 <= i < |ws| ==> rs[i] == ws[i].request
  {
    seq(|ws|, i requires 0 <= i < |ws| => ws[i].request)
  }

  /** The entries of a pending activation that wait for dispatch, as the bus knows them. */
  predicate Waitable(staged: set<Conn>, owner: Conn, w: Waiting) {
    && w.message.Message? && w.request.conn.Some? && w.request.conn.value in staged
    && forall c | c in w.listeners :: c in staged && c != owner
  }

  predicate InOrder(ws: seq<Waiting>) { forall i, j :: 0 <= i < j < |ws| ==> ws[i].request.id < ws[j].request.id }

  /**
   The whole loop.  The fates that it comes to are such that nobody is told at once without a
   preallocated error, or else the daemon has reached the assertion.  s is the state of the
   activation code, which sees the same connections.
   */
  method ResumeAll(b: BusConnections, ghost p: Progress, t: TxnId, policy: Answers, fds: set<Conn>, owner: Conn, ws: seq<Waiting>,
                   ghost s: A.State) returns (ok: bool, ghost fates: map<nat, A.Fate>, ghost ps: seq<Progress>)
    requires On(b, p) && p.t == t && owner in b.staged && InOrder(ws) && forall i | 0 <= i < |ws| :: Waitable(b.staged.Keys, owner, ws[i])
    requires s.connected == b.connected && s.ready == b.oomReady
    modifies b`staged, b`listed, b`sent, b`oomReady, b`pending, b`hooks, b`hookOwner, b`nextId, b`timer
    ensures ok ==> AllTurns(b.driverMaySend, policy, fds, owner, b.connected, ws, fates, ps) && ps[0] == p && On(b, ps[|ws|])
    ensures ok ==> A.ErrorsAtHand(s, Requests(ws), fates, s.ready) && b.oomReady == A.ReadyAfter(s, Requests(ws), fates, s.ready)
    ensures b.enough ==> ok && b.oomReady == old(b.oomReady)
  {
    hide On, Turn, A.ErrorsAtHand, A.ReadyAfter, A.ToldNow;
    ok, fates, ps := true, map[], [p];
    NothingDue(s);
    var i := 0;
    while i < |ws|
      invariant i <= |ws| && ok && |ps| == i + 1 && ps[0] == p && On(b, ps[i]) && ps[i].t == t && b.staged.Keys == old(b.staged.Keys)
      invariant AllTurns(b.driverMaySend, policy, fds, owner, b.connected, ws[..i], fates, ps)
      invariant A.ErrorsAtHand(s, Requests(ws[..i]), fates, s.ready) && b.oomReady == A.ReadyAfter(s, Requests(ws[..i]), fates, s.ready)
      invariant b.enough ==> b.oomReady == old(b.oomReady)
    {
      ghost var fate, q;
      assert Waitable(b.staged.Keys, owner, ws[i]);
      ok, fate, q := TakeTurn(b, ps[i], t, policy, fds, owner, ws[i], s);
      if !ok {
        return;
      }
      ReadyNext(s, Requests(ws[..i]), ws[i].request, fates, fate, s.ready);
      assert Requests(ws[..i + 1]) == Requests(ws[..i]) + [ws[i].request];
      fates, ps := fates[ws[i].request.id := fate], ps + [q];
      i := i + 1;
    }
    assert ws[..i] == ws;
  }

  method TakeTurn(b: BusConnections, ghost p: Progress, t: TxnId, policy: Answers, fds: set<Conn>, owner: Conn, w: Waiting, ghost s: A.State)
    returns (ok: bool, ghost fate: A.Fate, ghost q: Progress)
    requires On(b, p) && p.t == t && owner in b.staged && Waitable(b.staged.Keys, owner, w) && s.connected == b.connected
    modifies b`staged, b`listed, b`sent, b`oomReady, b`pending, b`hooks, b`hookOwner, b`nextId, b`timer
    ensures On(b, q) && q.t == t && b.staged.Keys == old(b.staged.Keys)
    ensures ok ==>
              && Turn(b.driverMaySend, policy, fds, owner, b.connected, w, fate, p, q)
              && (A.ToldNow(s, w.request, fate) ==> w.request.conn.value in old(b.oomReady))
              && b.oomReady == if A.ToldNow(s, w.request, fate) then old(b.oomReady) - {w.request.conn.value} else old(b.oomReady)
    ensures b.enough ==> ok && b.oomReady == old(b.oomReady)
  {
    hide On, Resumed, IsError, Happened, Edited;
    ok, fate, q := true, A.HandedOn, p;
    var r := w.request;
    if r.auto && r.conn.value in b.connected {
      ghost var k, e, es;
      OnHappened(b, p);
      ok, fate, q, k, e, es := Resume(b, p, t, policy, fds, r.conn.value, owner, w.listeners, w.message);
    }
  }

  lemma OnHappened(b: BusConnections, p: Progress)
    requires On(b, p)
    ensures Happened(p.r, p.es, b.Replies())
  {
  }

  lemma NothingDue(s: A.State)
    ensures A.ErrorsAtHand(s, Requests([]), map[], s.ready) && A.ReadyAfter(s, Requests([]), map[], s.ready) == s.ready
  {
  }

  lemma {:induction false} OtherFates(s: A.State, rs: seq<A.Request>, fates: map<nat, A.Fate>, id: nat, fate: A.Fate, ready: set<Conn>)
    requires forall x | x in rs :: x.id != id
    ensures A.ErrorsAtHand(s, rs, fates[id := fate], ready) == A.ErrorsAtHand(s, rs, fates, ready)
    ensures A.ReadyAfter(s, rs, fates[id := fate], ready) == A.ReadyAfter(s, rs, fates, ready)
  {
    if rs != [] {
      OtherFates(s, rs[1..], fates, id, fate, ready);
      if rs[0].conn.Some? { OtherFates(s, rs[1..], fates, id, fate, ready - {rs[0].conn.value}); }
    }
  }

  lemma {:induction false} ReadyAppend(s: A.State, rs: seq<A.Request>, r: A.Request, fates: map<nat, A.Fate>, ready: set<Conn>)
    ensures var now, after := A.ToldNow(s, r, A.FateOf(fates, r)), A.ReadyAfter(s, rs, fates, ready);
            && (A.ErrorsAtHand(s, rs + [r], fates, ready) <==> A.ErrorsAtHand(s, rs, fates, ready) && (now ==> r.conn.Some? && r.conn.value in after))
            && A.ReadyAfter(s, rs + [r], fates, ready) == if now && r.conn.Some? then after - {r.conn.value} else after
  {
    if rs == [] {
      assert rs + [r] == [r] && [r][1..] == [];
    } else {
      assert (rs + [r])[1..] == rs[1..] + [r] && (rs + [r])[0] == rs[0];
      ReadyAppend(s, rs[1..], r, fates, ready);
      if rs[0].conn.Some? { ReadyAppend(s, rs[1..], r, fates, ready - {rs[0].conn.value}); }
    }
  }

  lemma ReadyNext(s: A.State, rs: seq<A.Request>, r: A.Request, fates: map<nat, A.Fate>, fate: A.Fate, ready: set<Conn>)
    requires A.ErrorsAtHand(s, rs, fates, ready) && r.conn.Some? && forall x | x in rs :: x.id != r.id
    requires A.ToldNow(s, r, fate) ==> r.conn.value in A.ReadyAfter(s, rs, fates, ready)
    ensures var fates', after := fates[r.id := fate], A.ReadyAfter(s, rs, fates, ready);
            && A.ErrorsAtHand(s, rs + [r], fates', ready)
            && A.ReadyAfter(s, rs + [r], fates', ready) == if A.ToldNow(s, r, fate) then after - {r.conn.value} else after
  {
    OtherFates(s, rs, fates, r.id, fate, ready);
    ReadyAppend(s, rs, r, fates[r.id := fate], ready);
  }

  // ---- What the new owner gets ----

  /** The messages of clients, without the errors of the daemon. */
  function Mail(ms: seq<Message>): seq<Message> {
    if ms == [] then [] else (if ms[0].Message? then [ms[0]] else []) + Mail(ms[1..])
  }

  /** The messages held back for auto-start by connections that are still there, but for those that are denied, in order of arrival. */
  function HeldBack(connected: set<Conn>, ws: seq<Waiting>, fates: map<nat, A.Fate>): seq<Message> {
    if ws == [] then []
    else
      var n := |ws| - 1;
      var w := ws[n];
      HeldBack(connected, ws[..n], fates) +
      if w.request.auto && w.request.conn.Some? && w.request.conn.value in connected && w.request.id in fates && !fates[w.request.id].Denied?
      then [w.message] else []
  }

  lemma {:induction false} MailAppend(a: seq<Message>, b: seq<Message>)
    ensures Mail(a + b) == Mail(a) + Mail(b)
  {
    if a == [] {
      assert a + b == b;
    } else {
      assert (a + b)[1..] == a[1..] + b && (a + b)[0] == a[0];
      MailAppend(a[1..], b);
      Regroup(if a[0].Message? then [a[0]] else [], Mail(a[1..]), Mail(b));
    }
  }

  lemma TurnMail(may: Policy, policy: Answers, fds: set<Conn>, owner: Conn, connected: set<Conn>, w: Waiting, fate: A.Fate, p: Progress, q: Progress)
    requires Turn(may, policy, fds, owner, connected, w, fate, p, q) && NoDuplicates(w.listeners) && owner !in w.listeners
    ensures var due := w.request.auto && w.request.conn.Some? && w.request.conn.value in connected;
            Mail(For(q.log, owner)) == Mail(For(p.log, owner)) + if due && !fate.Denied? then [w.message] else []
  {
    hide Resumed, Edited, Happened, IsError, For, Mail;
    var was := For(p.log, owner);
    if Due(connected, w.request) {
      var sender, m := w.request.conn.value, w.message;
      var k, e, r, es :| Happened(p.r, p.es, r) && q.es == p.es + es && Edited(r, policy, fds, sender, owner, m, fate, e, es)
                         && Resumed(may, policy, fds, sender, owner, w.listeners, m, p, q, fate, k, e)
                         && (!fate.HandedOn? ==> IsError(r, policy, fds, sender, owner, m, k, e));
      HandedOnIff(may, policy, fds, sender, owner, w.listeners, m, p, q, fate, k, e);
      MailOfOne(may, sender, m, fate, e, owner, was);
    }
  }

  lemma MailOfOne(may: Policy, sender: Conn, m: Message, fate: A.Fate, e: ErrorName, owner: Conn, was: seq<Message>)
    requires m.Message?
    ensures var copy := if fate.Denied? then [] else [m];
            Mail(was + copy + For(ErrorPosts(may, sender, m, fate, e), owner)) == Mail(was) + copy
  {
    var copy := if fate.Denied? then [] else [m];
    var errors := For(ErrorPosts(may, sender, m, fate, e), owner);
    ForOne(sender, DriverError(e, m.serial), owner);
    assert errors == [] || errors == [DriverError(e, m.serial)];
    MailAppend(was + copy, errors);
    MailAppend(was, copy);
    assert errors != [] ==> errors[1..] == [];
    assert copy != [] ==> copy[1..] == [];
  }

  /** The new owner is posted exactly the messages that were held back for it, in order of arrival. */
  lemma {:induction false} OwnerGets(may: Policy, policy: Answers, fds: set<Conn>, owner: Conn, connected: set<Conn>, ws: seq<Waiting>,
                                     fates: map<nat, A.Fate>, ps: seq<Progress>)
    requires AllTurns(may, policy, fds, owner, connected, ws, fates, ps)
    requires forall i | 0 <= i < |ws| :: NoDuplicates(ws[i].listeners) && owner !in ws[i].listeners
    ensures Mail(For(ps[|ws|].log, owner)) == Mail(For(ps[0].log, owner)) + HeldBack(connected, ws, fates)
  {
    hide Turn, Mail, For, NoDuplicates;
    if ws != [] {
      var n := |ws| - 1;
      assert forall i | 0 <= i < n :: ws[..n][i] == ws[i] && ps[..n + 1][i] == ps[i];
      OwnerGets(may, policy, fds, owner, connected, ws[..n], fates, ps[..n + 1]);
      TurnMail(may, policy, fds, owner, connected, ws[n], fates[ws[n].request.id], ps[n], ps[n + 1]);
      var w := ws[n];
      var last := if w.request.auto && w.request.conn.Some? && w.request.conn.value in connected && !fates[w.request.id].Denied? then [w.message] else [];
      Regroup(Mail(For(ps[0].log, owner)), HeldBack(connected, ws[..n], fates), last);
    }
  }
}
