/**
 What a dispatched message comes to, in plain words: what everybody receives, why it is refused,
 and which expectations it uses up or sets up.
*/
module DispatchMeaning {
  import opened BusTypes
  import opened W = Transactions
  import R = ReplyTable
  import I = ReplyInvariants
  import opened ReplyTheorems
  import opened ReplyDeadlines
  import opened Connections
  import opened Dispatch
  import opened DispatchTheorems

  // ---- What everybody receives ----

  /** A message that goes through is received once by its recipient, and once by each listener that may have it and can take it. */
  lemma DeliveredIs(may: Policy, policy: Answers, fds: set<Conn>, active: set<Conn>, sender: Conn, dest: Destination, rs: seq<Conn>, m: Message,
                    w: Wire, t: R.Table, w': Wire, t': R.Table, log: seq<Post>, es: seq<R.Event>, c: Conn)
    requires m.Message? && Concluded(may, policy, fds, active, sender, dest, rs, m, w, t, Executed(None), w', t', log, es) && c in w.sent
    requires NoDuplicates(rs) && sender in active && forall d | d in rs :: dest != OwnedBy(d)
    ensures var to := if dest.OwnedBy? then Some(dest.owner) else None;
            var gets := dest == OwnedBy(c)
                        || (c in rs && !m.kind.UnknownType? && policy(sender, to, c, m, false) == None && (m.hasFds ==> c in fds));
            w'.sent[c] == w.sent[c] + if gets && c in w.connected then [m] else []
    ensures w'.staged == w.staged && w'.listed == w.listed && w'.connected == w.connected
    ensures !dest.Unowned?
  {
    EachRecipientOnce(policy, fds, active, sender, dest, rs, m, c);
    hide MessageLog, AllEdits, For, R.Run, R.Runnable;
    assert w'.sent[c] == w.sent[c] + if c in w.connected then For(log, c) else [] by { DeliveredAt(w.sent, w.connected, log, c); }
  }

  lemma DeliveredAt(sent: map<Conn, seq<Message>>, connected: set<Conn>, log: seq<Post>, c: Conn)
    requires c in sent
    ensures c in Delivered(sent, connected, log)
    ensures Delivered(sent, connected, log)[c] == sent[c] + if c in connected then For(log, c) else []
  {
    hide For;
  }

  /** A refused message is received by nobody; its sender is told why, in reply to it, unless the policy keeps even that from it. */
  lemma RefusedIsTold(may: Policy, policy: Answers, fds: set<Conn>, active: set<Conn>, sender: Conn, dest: Destination, rs: seq<Conn>, m: Message,
                      w: Wire, t: R.Table, e: ErrorName, w': Wire, t': R.Table, log: seq<Post>, es: seq<R.Event>, c: Conn)
    requires m.Message? && Concluded(may, policy, fds, active, sender, dest, rs, m, w, t, Executed(Some(e)), w', t', log, es) && c in w.sent
    ensures w'.sent[c] == w.sent[c] + if c == sender && c in w.connected && may(sender, DriverError(e, m.serial)) then [DriverError(e, m.serial)] else []
    ensures w'.staged == w.staged && w'.listed == w.listed && w'.connected == w.connected
  {
    DeliveredOne(w.sent, w.connected, sender, DriverError(e, m.serial));
    NothingDelivered(w.sent, w.connected);
    hide R.Run, R.Runnable, Delivered;
  }

  /** Whoever has not said Hello is disconnected, and nothing is delivered or changed for it. */
  lemma InactiveIsClosed(may: Policy, policy: Answers, fds: set<Conn>, active: set<Conn>, sender: Conn, dest: Destination, rs: seq<Conn>, m: Message,
                         w: Wire, t: R.Table, error: Option<ErrorName>, w': Wire, t': R.Table, log: seq<Post>, es: seq<R.Event>)
    requires m.Message? && sender !in active && t.hooks == []
    requires Concluded(may, policy, fds, active, sender, dest, rs, m, w, t, Executed(error), w', t', log, es)
    ensures error == None && w' == w.(connected := w.connected - {sender})
    ensures t'.pending == t.pending && t'.recorded == t.recorded && t'.consumed == t.consumed
  {
    NothingDelivered(w.sent, w.connected - {sender});
    assert es == [] && log == [];
  }

  // ---- Why it is refused ----

  /** p is what m, sent by sender to c, answers. */
  predicate Answered(p: R.PendingReply, sender: Conn, c: Conn, m: Message) {
    m.Message? && m.replySerial != 0 && p.caller == c && p.replier == Some(sender) && p.serial == m.replySerial
  }

  ghost predicate AnswersSomething(t: R.Table, sender: Conn, c: Conn, m: Message) { exists p :: p in t.pending && Answered(p, sender, c, m) }

  predicate WantsReply(m: Message) { m.Message? && m.kind == MethodCall && !m.noReply }

  /** p is the call m itself, which is still unanswered. */
  predicate SameCallAs(p: R.PendingReply, sender: Conn, c: Conn, m: Message) {
    m.Message? && p.caller == sender && p.replier == Some(c) && p.serial == m.serial
  }

  lemma AnsweredIff(t: R.Table, sender: Conn, c: Conn, m: Message)
    requires m.Message?
    ensures IsRequested(t, sender, Some(c), c, m) <==> AnswersSomething(t, sender, c, m)
  {
    hide R.Find;
    RequestedIff(t, c, sender, m.replySerial);
    if AnswersSomething(t, sender, c, m) {
      var p :| p in t.pending && Answered(p, sender, c, m);
    }
    if IsRequested(t, sender, Some(c), c, m) {
      var p :| p in t.pending && p.caller == c && p.replier == Some(sender) && p.serial == m.replySerial;
      assert Answered(p, sender, c, m);
    }
  }

  /** What is left of the table once m has answered what it answers. */
  lemma LeftOver(t: R.Table, sender: Conn, c: Conn, m: Message)
    requires m.Message? && I.Inv(t)
    ensures var rest := AfterReply(t, sender, Some(c), c, m);
            && I.DistinctIds(rest)
            && forall p :: p in rest <==> p in t.pending && !Answered(p, sender, c, m)
  {
    hide R.Find, I.Inv, I.DistinctIds;
    AnsweredIff(t, sender, c, m);
    OldOnes(t);
    var rest := AfterReply(t, sender, Some(c), c, m);
    if IsRequested(t, sender, Some(c), c, m) {
      TakenOut(t, c, sender, m.replySerial);
      forall p | p in t.pending ensures p in rest <==> !Answered(p, sender, c, m) { ConsumedIs(t, c, sender, m.replySerial, p); }
      CutDistinct(t.pending, R.Find(t.pending, c, sender, m.replySerial));
    } else {
      forall p | p in t.pending ensures !Answered(p, sender, c, m) { }
    }
  }

  lemma CutDistinct(s: seq<R.PendingReply>, i: nat)
    requires I.DistinctIds(s) && i < |s|
    ensures I.DistinctIds(s[..i] + s[i + 1..]) && forall p | p in s[..i] + s[i + 1..] :: p in s
  {
  }

  /**
   The error of a message to c, the first of these that applies: its type is unknown; the policy,
   which is told whether the message answers a call, objects; it is a call like one that is still
   unanswered; its sender waits for too many replies; or c cannot take its descriptors.
   */
  ghost function Why(t: R.Table, policy: Answers, fds: set<Conn>, sender: Conn, c: Conn, m: Message): Option<ErrorName>
    requires m.Message?
  {
    var answer := policy(sender, Some(c), c, m, AnswersSomething(t, sender, c, m));
    if m.kind == UnknownType then Some(AccessDenied)
    else if answer != None then answer
    else if WantsReply(m) && exists p :: p in t.pending && SameCallAs(p, sender, c, m) && !Answered(p, sender, c, m) then Some(AccessDenied)
    else if WantsReply(m) && |set p | p in t.pending && p.caller == sender && !Answered(p, sender, c, m)| >= t.limit then Some(LimitsExceeded)
    else if m.hasFds && c !in fds then Some(NotSupported)
    else None
  }

  lemma CallRefusedIff(t: R.Table, sender: Conn, c: Conn, m: Message)
    requires m.Message? && I.Inv(t)
    ensures CallObjection(AfterReply(t, sender, Some(c), c, m), t.limit, sender, Some(c), c, m) ==
            if WantsReply(m) && exists p :: p in t.pending && SameCallAs(p, sender, c, m) && !Answered(p, sender, c, m) then Some(AccessDenied)
            else if WantsReply(m) && |set p | p in t.pending && p.caller == sender && !Answered(p, sender, c, m)| >= t.limit then Some(LimitsExceeded)
            else None
  {
    LeftOver(t, sender, c, m);
    hide R.Find, R.CountFor, I.Inv, I.DistinctIds, AfterReply;
    var rest := AfterReply(t, sender, Some(c), c, m);
    var u := t.(pending := rest);
    RequestedIff(u, sender, c, m.serial);
    I.CountIsCardinality(rest, sender);
    assert I.OfCaller(I.Items(rest), sender) == set p | p in t.pending && p.caller == sender && !Answered(p, sender, c, m);
    if p :| p in t.pending && SameCallAs(p, sender, c, m) && !Answered(p, sender, c, m) { assert p in rest; }
    if R.Find(rest, sender, c, m.serial) < |rest| {
      var p :| p in rest && p.caller == sender && p.replier == Some(c) && p.serial == m.serial;
      assert SameCallAs(p, sender, c, m);
    }
  }

  lemma WhyIs(t: R.Table, policy: Answers, fds: set<Conn>, sender: Conn, c: Conn, m: Message)
    requires m.Message? && I.Inv(t)
    ensures SendObjection(t, policy, fds, sender, c, m) == Why(t, policy, fds, sender, c, m)
  {
    hide I.Inv, IsRequested, AfterReply, CallObjection, AnswersSomething;
    AnsweredIff(t, sender, c, m);
    CallRefusedIff(t, sender, c, m);
  }

  /** When a dispatch is executed, whether it succeeds and with which error is determined, memory apart. */
  lemma RefusedBecause(may: Policy, policy: Answers, fds: set<Conn>, active: set<Conn>, sender: Conn, dest: Destination, rs: seq<Conn>, m: Message,
                       w: Wire, t: R.Table, error: Option<ErrorName>, w': Wire, t': R.Table, log: seq<Post>, es: seq<R.Event>)
    requires m.Message? && I.Inv(t) && sender in active
    requires Concluded(may, policy, fds, active, sender, dest, rs, m, w, t, Executed(error), w', t', log, es)
    ensures dest == Broadcast ==> error == None && m.kind == Signal
    ensures dest == Unowned ==> error == Some(NameHasNoOwner)
    ensures dest.OwnedBy? ==> error == Why(t, policy, fds, sender, dest.owner, m)
  {
    hide I.Inv, R.Run, R.Runnable, Delivered, SendObjection, Why;
    if dest.OwnedBy? { WhyIs(t, policy, fds, sender, dest.owner, m); }
  }

  // ---- What becomes of the expectations ----

  /** The expectation that m sets up. */
  function NewExpectation(t: R.Table, sender: Conn, c: Conn, m: Message): R.PendingReply
    requires m.Message?
  {
    R.PendingReply(t.nextId, sender, Some(c), m.serial, t.clock)
  }

  /** After the given edits: what was answered is gone, what was called is there. */
  lemma EditsDo(t: R.Table, sender: Conn, c: Conn, m: Message, es: seq<R.Event>, replied: bool, called: bool, p: R.PendingReply)
    requires m.Message? && I.Inv(t) && R.Runnable(t, es)
    requires es == (if replied then ReplyEdits(t, sender, Some(c), c, m) else []) + (if called then CallEdits(sender, Some(c), c, m) else [])
    ensures p in R.Run(t, es).pending <==>
            || (p in t.pending && !(replied && Answered(p, sender, c, m)))
            || (called && WantsReply(m) && p == NewExpectation(t, sender, c, m))
  {
    hide I.Inv, R.Find, R.Apply, R.Enabled, Answered, IsRequested;
    var first := if replied then ReplyEdits(t, sender, Some(c), c, m) else [];
    var second := if called then CallEdits(sender, Some(c), c, m) else [];
    assert |first| <= 1 && |second| <= 1;
    var r1 := AfterFirst(t, first, second);
    FirstDoes(t, sender, c, m, replied, r1, p);
    SecondDoes(r1, sender, c, m, second, p);
  }

  lemma FirstDoes(t: R.Table, sender: Conn, c: Conn, m: Message, replied: bool, r1: R.Table, p: R.PendingReply)
    requires m.Message? && I.Inv(t)
    requires var first := if replied then ReplyEdits(t, sender, Some(c), c, m) else []; R.Runnable(t, first) && r1 == R.Run(t, first)
    ensures p in r1.pending <==> p in t.pending && !(replied && Answered(p, sender, c, m))
    ensures r1.nextId == t.nextId && r1.clock == t.clock
  {
    hide R.Find, I.Inv;
    AnsweredIff(t, sender, c, m);
    if replied && IsRequested(t, sender, Some(c), c, m) {
      HappenedOne(t, R.Consume(c, sender, m.replySerial));
      TakenOut(t, c, sender, m.replySerial);
      OldOnes(t);
      CutDistinct(t.pending, R.Find(t.pending, c, sender, m.replySerial));
      if p in t.pending { ConsumedIs(t, c, sender, m.replySerial, p); }
    } else if p in t.pending && Answered(p, sender, c, m) {
      assert AnswersSomething(t, sender, c, m);
    }
  }

  lemma SecondDoes(r1: R.Table, sender: Conn, c: Conn, m: Message, second: seq<R.Event>, p: R.PendingReply)
    requires m.Message? && R.Runnable(r1, second) && (second == [] || second == CallEdits(sender, Some(c), c, m))
    ensures p in R.Run(r1, second).pending <==>
            p in r1.pending || (second != [] && p == R.PendingReply(r1.nextId, sender, Some(c), m.serial, r1.clock))
    ensures CallEdits(sender, Some(c), c, m) != [] <==> WantsReply(m)
  {
    if second != [] {
      assert second[1..] == [] && R.Run(r1, second) == R.Run(R.Apply(r1, second[0]), []);
      RecordedIs(r1, sender, c, m.serial);
    }
  }

  /**
   What a message to c does to the table.  Delivered, it uses up what it answers and sets up an
   expectation if it wants a reply.  Refused, it still uses up what it answers, unless its type is
   unknown; and it still sets one up if it is refused for its descriptors.
   */
  lemma TableAfter(may: Policy, policy: Answers, fds: set<Conn>, active: set<Conn>, sender: Conn, c: Conn, rs: seq<Conn>, m: Message,
                   w: Wire, t: R.Table, error: Option<ErrorName>, w': Wire, t': R.Table, log: seq<Post>, es: seq<R.Event>, p: R.PendingReply)
    requires m.Message? && I.Inv(t) && t.hooks == [] && sender in active
    requires Concluded(may, policy, fds, active, sender, OwnedBy(c), rs, m, w, t, Executed(error), w', t', log, es)
    ensures var late := Why(t, policy, {c}, sender, c, m) == None;   // nothing but descriptors could be in the way
            p in t'.pending <==>
            || (p in t.pending && !(Answered(p, sender, c, m) && m.kind != UnknownType))
            || (late && WantsReply(m) && p == NewExpectation(t, sender, c, m))
  {
    hide I.Inv, R.Run, R.Runnable, Delivered, Why, SendObjection, Objection;
    WhyIs(t, policy, {c}, sender, c, m);
    NoObjection(t, policy, fds, sender, c, m);
    var late := Objection(t, policy, sender, Some(c), c, m).None?;
    var replied, called := m.kind != UnknownType, late;
    var first := if replied then ReplyEdits(t, sender, Some(c), c, m) else [];
    assert first + [] == first;
    EditsDo(t, sender, c, m, es, replied, called, p);
    CommitKeeps(R.Run(t, es));
  }

  lemma CommitKeeps(t: R.Table)
    ensures R.Apply(t, R.Commit).pending == t.pending
  {
  }

  lemma NoObjection(t: R.Table, policy: Answers, fds: set<Conn>, sender: Conn, c: Conn, m: Message)
    requires m.Message?
    ensures SendObjection(t, policy, {c}, sender, c, m) == Objection(t, policy, sender, Some(c), c, m)
    ensures Objection(t, policy, sender, Some(c), c, m).None? ==> m.kind != UnknownType
    ensures SendObjection(t, policy, fds, sender, c, m).None? ==> Objection(t, policy, sender, Some(c), c, m).None?
  {
    hide CallObjection, AfterReply, IsRequested;
  }

  /** Messages to nobody in particular leave the expectations alone. */
  lemma BroadcastKeepsTable(may: Policy, policy: Answers, fds: set<Conn>, active: set<Conn>, sender: Conn, dest: Destination, rs: seq<Conn>, m: Message,
                            w: Wire, t: R.Table, error: Option<ErrorName>, w': Wire, t': R.Table, log: seq<Post>, es: seq<R.Event>)
    requires m.Message? && t.hooks == [] && !dest.OwnedBy?
    requires Concluded(may, policy, fds, active, sender, dest, rs, m, w, t, Executed(error), w', t', log, es)
    ensures t'.pending == t.pending && t'.recorded == t.recorded && t'.consumed == t.consumed && t'.notices == t.notices
  {
    assert es == [];
  }

  /**
   A call and its answer: once a call that wants a reply has been delivered, a message from its
   recipient back to its sender that names its serial is a requested reply, which the policy is
   told; and when that one has been delivered, nothing is left to answer.
   */
  lemma CallAndReply(may: Policy, policy: Answers, fds: set<Conn>, active: set<Conn>, a: Conn, b: Conn, rs: seq<Conn>, call: Message, rs2: seq<Conn>, reply: Message,
                     w: Wire, t: R.Table, w1: Wire, t1: R.Table, log: seq<Post>, es: seq<R.Event>,
                     v: Wire, t2: R.Table, log2: seq<Post>, es2: seq<R.Event>)
    requires WantsReply(call) && call.serial != 0 && reply.Message? && reply.replySerial == call.serial && !WantsReply(reply)
    requires I.Inv(t) && t.hooks == [] && I.Inv(t1) && t1.hooks == [] && a in active && b in active
    requires Concluded(may, policy, fds, active, a, OwnedBy(b), rs, call, w, t, Executed(None), w1, t1, log, es)
    requires Concluded(may, policy, fds, active, b, OwnedBy(a), rs2, reply, w1, t1, Executed(None), v, t2, log2, es2)
    ensures policy(b, Some(a), a, reply, true) == None
    ensures NewExpectation(t, a, b, call) in t1.pending && NewExpectation(t, a, b, call) !in t2.pending
    ensures !AnswersSomething(t2, b, a, reply)
  {
    var o := NewExpectation(t, a, b, call);
    RefusedBecause(may, policy, fds, active, a, OwnedBy(b), rs, call, w, t, None, w1, t1, log, es);
    WhyNot(t, policy, fds, a, b, call);
    TableAfter(may, policy, fds, active, a, b, rs, call, w, t, None, w1, t1, log, es, o);
    RefusedBecause(may, policy, fds, active, b, OwnedBy(a), rs2, reply, w1, t1, None, v, t2, log2, es2);
    hide Concluded, I.Inv;
    assert Answered(o, b, a, reply);
    assert AnswersSomething(t1, b, a, reply);
    forall p ensures p in t2.pending ==> !Answered(p, b, a, reply) {
      TableAfter(may, policy, fds, active, b, a, rs2, reply, w1, t1, None, v, t2, log2, es2, p);
    }
  }

  lemma WhyNot(t: R.Table, policy: Answers, fds: set<Conn>, sender: Conn, c: Conn, m: Message)
    requires m.Message? && Why(t, policy, fds, sender, c, m) == None
    ensures Why(t, policy, {c}, sender, c, m) == None
  {
  }
}
