/** What the outcome of bus_dispatch means for the connections and for expected replies. */
module DispatchTheorems {
  import opened BusTypes
  import opened W = Transactions
  import R = ReplyTable
  import I = ReplyInvariants
  import opened ReplyTheorems
  import opened Connections
  import opened Dispatch

  // ---- Who gets the message ----

  lemma {:induction false} CopiesFor(cs: seq<Conn>, m: Message, c: Conn)
    requires NoDuplicates(cs)
    ensures For(Copies(cs, m), c) == if c in cs then [m] else []
  {
    if cs != [] {
      var n := |cs| - 1;
      CopiesFor(cs[..n], m, c);
      assert cs[n] !in cs[..n];
      assert c in cs <==> c in cs[..n] || c == cs[n];
      assert Copies(cs, m)[..|Copies(cs[..n], m)|] == Copies(cs[..n], m);
    }
  }

  lemma {:induction false} ListenersAre(policy: Answers, fds: set<Conn>, sender: Conn, a: Option<Conn>, m: Message, rs: seq<Conn>)
    requires NoDuplicates(rs)
    ensures var ls := Listeners(policy, fds, sender, a, m, rs);
            && NoDuplicates(ls)
            && forall c :: c in ls <==> c in rs && Willing(policy, fds, sender, a, m, c)
  {
    if rs != [] {
      hide Willing;
      var n := |rs| - 1;
      ListenersAre(policy, fds, sender, a, m, rs[..n]);
      assert rs[n] !in rs[..n];
      assert forall c :: c in rs <==> c in rs[..n] || c == rs[n];
    }
  }

  /**
   A message that goes through reaches its addressed recipient and every willing listener
   exactly once, and nobody else.
   */
  lemma EachRecipientOnce(policy: Answers, fds: set<Conn>, active: set<Conn>, sender: Conn, dest: Destination, rs: seq<Conn>, m: Message, c: Conn)
    requires NoDuplicates(rs) && forall d | d in rs :: Owner(dest) != Some(d)
    ensures For(MessageLog(policy, fds, active, sender, dest, rs, m), c) ==
            if sender in active && (Owner(dest) == Some(c) || (c in rs && Willing(policy, fds, sender, Owner(dest), m, c))) then [m] else []
  {
    hide Copies, For, Listeners, Willing;
    ListenersAre(policy, fds, sender, Owner(dest), m, rs);
    var ls := Listeners(policy, fds, sender, Owner(dest), m, rs);
    if sender in active {
      AddressedFirst(Owner(dest), ls);
      CopiesFor(Addressed(Owner(dest)) + ls, m, c);
    } else {
      assert For([], c) == [] by { NothingFor(c); }
    }
  }

  lemma AddressedFirst(a: Option<Conn>, ls: seq<Conn>)
    requires NoDuplicates(ls) && forall c | c in ls :: a != Some(c)
    ensures NoDuplicates(Addressed(a) + ls)
    ensures forall c :: c in Addressed(a) + ls <==> a == Some(c) || c in ls
  {
  }

  lemma NothingFor(c: Conn)
    ensures For([], c) == []
  {
  }

  /** A cancelled dispatch is invisible, except that the sender is told once that there is no memory. */
  lemma CancelledIsInvisible(may: Policy, policy: Answers, fds: set<Conn>, active: set<Conn>, sender: Conn, dest: Destination, rs: seq<Conn>, m: Message,
                             w: Wire, t: R.Table, w': Wire, t': R.Table, log: seq<Post>, es: seq<R.Event>, c: Conn)
    requires m.Message? && Concluded(may, policy, fds, active, sender, dest, rs, m, w, t, Cancelled, w', t', log, es) && c in w.sent
    ensures w'.staged == w.staged && w'.listed == w.listed && w'.connected == w.connected
    ensures w'.sent[c] == w.sent[c] + if c == sender && c in w.connected then [DriverError(NoMemory, m.serial)] else []
    ensures Restored(t, t')
  {
    DeliveredOne(w.sent, w.connected, sender, DriverError(NoMemory, m.serial));
  }

  // ---- Expected replies ----

  lemma FindNone(s: seq<R.PendingReply>, caller: Conn, replier: Conn, serial: nat)
    requires forall p | p in s :: !R.Matches(p, caller, replier, serial)
    ensures R.Find(s, caller, replier, serial) == |s|
  {
  }

  lemma ConsumedIsGone(t: R.Table, caller: Conn, replier: Conn, serial: nat)
    requires I.Inv(t) && R.Enabled(t, R.Consume(caller, replier, serial))
    ensures R.Find(R.ApplyConsume(t, caller, replier, serial).pending, caller, replier, serial) == |t.pending| - 1
  {
    var i := R.Find(t.pending, caller, replier, serial);
    var rest := t.pending[..i] + t.pending[i + 1..];
    assert I.Legal(I.Items(t.pending), t.limit);
    forall j | 0 <= j < |t.pending| && j != i ensures !R.Matches(t.pending[j], caller, replier, serial) {
      var p, q := t.pending[i], t.pending[j];
      assert p in I.Items(t.pending) && q in I.Items(t.pending) && p.id != q.id;
      assert !I.SameCall(p, q);
    }
    FindNone(rest, caller, replier, serial);
  }

  /** A call to oneself, which expects a reply and carries its own serial as reply serial. */
  predicate RepliesToItself(sender: Conn, owner: Conn, m: Message) {
    m.Message? && m.kind.MethodCall? && !m.noReply && sender == owner && m.serial == m.replySerial && m.replySerial != 0
  }

  /**
   One call licenses one requested reply: once a message went through, the same message does not
   count as a requested reply again, except for a call that licenses itself.
   */
  lemma RequestedOnlyOnceIff(may: Policy, policy: Answers, fds: set<Conn>, active: set<Conn>, sender: Conn, owner: Conn, rs: seq<Conn>, m: Message,
                             w: Wire, t: R.Table, w': Wire, t': R.Table, log: seq<Post>, es: seq<R.Event>)
    requires m.Message? && I.Inv(t) && sender in active
    requires Concluded(may, policy, fds, active, sender, OwnedBy(owner), rs, m, w, t, Executed(None), w', t', log, es)
    ensures IsRequested(t', sender, Some(owner), owner, m) <==> RepliesToItself(sender, owner, m)
    ensures |t'.pending| == |t.pending| - (if IsRequested(t, sender, Some(owner), owner, m) then 1 else 0)
                            + (if m.kind.MethodCall? && !m.noReply then 1 else 0)
  {
    hide Delivered, I.Inv;
    var first, second := ReplyEdits(t, sender, Some(owner), owner, m), CallEdits(sender, Some(owner), owner, m);
    assert es == first + second;
    var r1 := AfterFirst(t, first, second);
    if IsRequested(t, sender, Some(owner), owner, m) {
      HappenedOne(t, R.Consume(owner, sender, m.replySerial));
      ConsumedIsGone(t, owner, sender, m.replySerial);
    }
    if second != [] {
      assert second[1..] == [] && R.Run(r1, second) == R.Run(R.Apply(r1, second[0]), []);
      if m.replySerial != 0 { RecordFinds(r1, sender, owner, m.serial, owner, sender, m.replySerial); }
    }
  }

  lemma AfterFirst(t: R.Table, first: seq<R.Event>, second: seq<R.Event>) returns (r: R.Table)
    requires R.Runnable(t, first + second) && |first| <= 1
    ensures R.Runnable(t, first) && r == R.Run(t, first) && R.Runnable(r, second) && R.Run(r, second) == R.Run(t, first + second)
  {
    r := t;
    if first == [] {
      assert first + second == second;
    } else {
      assert (first + second)[1..] == second && (first + second)[0] == first[0] && first[1..] == [];
      r := R.Apply(t, first[0]);
    }
  }

  lemma RecordFinds(t: R.Table, caller: Conn, replier: Conn, serial: nat, c: Conn, r: Conn, k: nat)
    requires R.Find(t.pending, c, r, k) == |t.pending|
    ensures var t' := R.ApplyRecord(t, caller, replier, serial);
            R.Find(t'.pending, c, r, k) < |t'.pending| <==> c == caller && r == replier && k == serial
  {
    assert R.ApplyRecord(t, caller, replier, serial).pending[1..] == t.pending;
  }

  /**
   A message that is refused edits the table all the same if it is a requested reply, or a call
   that is only found to carry descriptors its recipient cannot take.
   */
  predicate EditsThoughRefused(t: R.Table, policy: Answers, active: set<Conn>, sender: Conn, dest: Destination, m: Message) {
    && sender in active && dest.OwnedBy? && m.Message? && !m.kind.UnknownType?
    && var c := dest.owner;
       || IsRequested(t, sender, Some(c), c, m)
       || (m.kind.MethodCall? && !m.noReply && Objection(t, policy, sender, Some(c), c, m).None?)
  }

  lemma RefusalKeepsTableIff(may: Policy, policy: Answers, fds: set<Conn>, active: set<Conn>, sender: Conn, dest: Destination, rs: seq<Conn>, m: Message,
                             w: Wire, t: R.Table, e: ErrorName, w': Wire, t': R.Table, log: seq<Post>, es: seq<R.Event>)
    requires m.Message? && I.Inv(t) && t.hooks == []
    requires Concluded(may, policy, fds, active, sender, dest, rs, m, w, t, Executed(Some(e)), w', t', log, es)
    ensures t'.pending == t.pending <==> !EditsThoughRefused(t, policy, active, sender, dest, m)
  {
    hide I.Inv, Delivered, R.Find;
    if EditsThoughRefused(t, policy, active, sender, dest, m) {
      var c := dest.owner;
      assert es == EditsAnyway(t, sender, Some(c), c, m) || es == Edits(t, sender, Some(c), c, m);
      EditsShow(t, sender, c, m, es);
    } else {
      assert es == [];
    }
  }

  /** No edits of one message cancel each other out. */
  lemma EditsShow(t: R.Table, sender: Conn, c: Conn, m: Message, es: seq<R.Event>)
    requires I.Inv(t) && R.Runnable(t, es) && es != []
    requires es == ReplyEdits(t, sender, Some(c), c, m) || es == Edits(t, sender, Some(c), c, m)
    ensures R.Run(t, es).pending != t.pending
  {
    var consume, record := R.Consume(c, sender, m.replySerial), R.Record(sender, c, m.serial);
    var first := R.Apply(t, es[0]);
    if |es| == 1 {
      assert es[1..] == [] && |first.pending| != |t.pending|;
    } else {
      assert es == [consume, record] && es[1..] == [record] && [record][1..] == [];
      assert R.Run(t, es) == R.Run(first, [record]) == R.Apply(first, record);
      assert R.Apply(first, record).pending[0].id == t.nextId;
      I.FreshId(t);
    }
  }

  /** For instance, the reply of 2 to 1 is refused, and uses up the expectation all the same. */
  lemma RefusedReplyConsumes(may: Policy, policy: Answers)
    returns (w: Wire, t: R.Table, w': Wire, t': R.Table, log: seq<Post>, es: seq<R.Event>)
    requires policy(2, Some(1), 1, Message(MethodReturn, 5, 7, false, false), true) == Some(AccessDenied)
    ensures Runnable(EMPTY, [Connect(1), Connect(2)]) && w == Run(EMPTY, [Connect(1), Connect(2)]) && W.Inv(w) && {1, 2} <= w.connected
    ensures I.Inv(t) && t.hooks == [] && |t.pending| == 1 && t'.pending == []
    ensures Concluded(may, policy, {}, {2}, 2, OwnedBy(1), [], Message(MethodReturn, 5, 7, false, false),
                      w, t, Executed(Some(AccessDenied)), w', t', log, es)
  {
    w := TwoConnected();
    hide I.Inv, W.Inv, Delivered, R.Find, Run, Runnable;
    t := OneExpectation();
    var m, e := Message(MethodReturn, 5, 7, false, false), R.Consume(1, 2, 7);
    HappenedOne(t, e);
    t', es := R.Apply(R.Apply(t, e), R.Commit), [e];
    log := ErrorLog(may, 2, AccessDenied, m);
    w' := w.(sent := Delivered(w.sent, w.connected, log));
    assert AllEdits(t, {2}, 2, OwnedBy(1), m) == [e];
  }

  lemma TwoConnected() returns (w: Wire)
    ensures Runnable(EMPTY, [Connect(1), Connect(2)]) && w == Run(EMPTY, [Connect(1), Connect(2)]) && W.Inv(w) && {1, 2} <= w.connected
  {
    var es := [Connect(1), Connect(2)];
    var w1 := Apply(EMPTY, es[0]);
    w := Apply(w1, es[1]);
    assert es[1..] == [es[1]] && es[1..][1..] == [];
    assert Run(w, []) == w && Run(w1, es[1..]) == Run(w, []) && Run(EMPTY, es) == Run(w1, es[1..]);
    W.EveryRunKeepsInv(EMPTY, es);
  }

  lemma OneExpectation() returns (t: R.Table)
    ensures I.Inv(t) && t.hooks == [] && |t.pending| == 1 && R.Find(t.pending, 1, 2, 7) == 0
  {
    t := R.Apply(R.ApplyRecord(R.Initial(1, 0, 1), 1, 2, 7), R.Commit);
    StartsLegal();
  }

  lemma StartsLegal()
    ensures var t1 := R.ApplyRecord(R.Initial(1, 0, 1), 1, 2, 7); I.Inv(R.Apply(t1, R.Commit))
  {
    var t0 := R.Initial(1, 0, 1);
    assert forall c :: I.OfCaller({}, c) == {};
    assert I.Inv(t0);
    I.RecordKeepsInv(t0, 1, 2, 7);
    I.CommitKeepsInv(R.ApplyRecord(t0, 1, 2, 7));
  }
}
