/**
 Staging of outgoing messages (bus/connection.c, "Transactions").

 Every connection keeps one list of staged messages, newest first, shared by all
 open transactions; every transaction keeps a list of the connections it has staged
 something on.  `Wire` is that state, `Event` names the calls that change it, and
 the lemmas are about every sequence of calls by any number of open transactions.
*/
module Transactions {
  import opened BusTypes

  datatype MessageToSend = MessageToSend(txn: TxnId, msg: Message)

  /** Newest first, as BusConnectionData.transaction_messages. */
  type Queue = seq<MessageToSend>

  datatype Wire = Wire(
    connected: set<Conn>,            // transports that are still open
    staged: map<Conn, Queue>,        // its keys are the connections known to the daemon
    sent: map<Conn, seq<Message>>,   // handed to each connection so far, oldest first
    listed: map<TxnId, seq<Conn>>)   // its keys are the open transactions

  /** Entries of q that belong to other transactions than t. */
  function Without(q: Queue, t: TxnId): Queue {
    if q == [] then []
    else if q[0].txn == t then Without(q[1..], t)
    else [q[0]] + Without(q[1..], t)
  }

  /** Messages that t has staged on q, in the order in which they were staged. */
  function InSendOrder(q: Queue, t: TxnId): seq<Message> {
    if q == [] then []
    else InSendOrder(q[1..], t) + (if q[0].txn == t then [q[0].msg] else [])
  }

  predicate Holds(q: Queue, t: TxnId) {
    exists i :: 0 <= i < |q| && q[i].txn == t
  }

  function RemoveFirst<T(==)>(s: seq<T>, x: T): (r: seq<T>)
    ensures x !in s ==> r == s
  {
    if s == [] then [] else if s[0] == x then s[1..] else [s[0]] + RemoveFirst(s[1..], x)
  }

  datatype Event =
    | Connect(c: Conn)
    | Close(c: Conn)                       // the transport goes away
    | Remove(c: Conn)                      // bus_connection_remove_transactions and the end of c
    | Begin(t: TxnId)
    | Send(t: TxnId, c: Conn, msg: Message)
    | Cancel(t: TxnId)
    | Execute(t: TxnId)

  predicate Enabled(w: Wire, e: Event) {
    match e
    case Connect(c) => c !in w.staged
    case Close(c) => c in w.staged
    case Remove(c) => c in w.staged
    case Begin(t) => t !in w.listed
    case Send(t, c, _) => t in w.listed && c in w.staged
    case Cancel(t) => t in w.listed
    case Execute(t) => t in w.listed
  }

  function Sent(w: Wire, c: Conn): seq<Message> {
    if c in w.sent then w.sent[c] else []
  }

  function ApplySend(w: Wire, t: TxnId, c: Conn, m: Message): Wire
    requires t in w.listed && c in w.staged
  {
    if c !in w.connected then w   // silently ignore disconnected connections
    else
      var q := w.staged[c];
      w.(staged := w.staged[c := [MessageToSend(t, m)] + q],
      listed := if Holds(q, t) then w.listed else w.listed[t := [c] + w.listed[t]])
  }

  function ListedIn(w: Wire, t: TxnId): set<Conn>
    requires t in w.listed
  {
    Elements(w.listed[t])
  }

  function Elements(s: seq<Conn>): set<Conn> { set c | c in s }

  lemma ElementsTail(s: seq<Conn>)
    requires s != [] && NoDuplicates(s)
    ensures NoDuplicates(s[1..]) && s[0] in Elements(s) && Elements(s[1..]) == Elements(s) - {s[0]}
  {
  }

  /** What is staged once the connections cs have dropped what t staged on them. */
  function Dropped(w: Wire, t: TxnId, cs: set<Conn>): map<Conn, Queue> {
    map c | c in w.staged :: if c in cs then Without(w.staged[c], t) else w.staged[c]
  }

  /** What is sent once the connections cs have been handed what t staged on them, oldest first. */
  function HandedOver(w: Wire, t: TxnId, cs: set<Conn>): map<Conn, seq<Message>> {
    map c | c in w.sent :: if c in cs && c in w.staged then w.sent[c] + InSendOrder(w.staged[c], t) else w.sent[c]
  }

  /** Only the connections that t lists are visited. */
  function ApplyCancel(w: Wire, t: TxnId): Wire
    requires t in w.listed
  {
    w.(staged := Dropped(w, t, ListedIn(w, t)), listed := w.listed - {t})
  }

  function ApplyExecute(w: Wire, t: TxnId): Wire
    requires t in w.listed
  {
    ApplyCancel(w, t).(sent := HandedOver(w, t, ListedIn(w, t)))
  }

  lemma OneMore(w: Wire, t: TxnId, cs: set<Conn>, c: Conn)
    requires c in w.staged && c in w.sent && c !in cs
    ensures Dropped(w, t, cs)[c := Without(Dropped(w, t, cs)[c], t)] == Dropped(w, t, cs + {c})
    ensures Dropped(w, t, cs)[c] == w.staged[c] && HandedOver(w, t, cs)[c] == w.sent[c]
    ensures HandedOver(w, t, cs)[c := HandedOver(w, t, cs)[c] + InSendOrder(w.staged[c], t)] == HandedOver(w, t, cs + {c})
  {
  }

  /** Every transaction with something staged on c forgets c. */
  function ApplyRemove(w: Wire, c: Conn): Wire
    requires c in w.staged
  {
    w.(connected := w.connected - {c},
    staged := w.staged - {c},
    listed := Forgotten(w.listed, w.staged[c], c))
  }

  /** The listings once every transaction found in q has struck c off its list. */
  function Forgotten(listed: map<TxnId, seq<Conn>>, q: Queue, c: Conn): map<TxnId, seq<Conn>> {
    map t | t in listed :: if Holds(q, t) then RemoveFirst(listed[t], c) else listed[t]
  }

  lemma ForgottenKeys(listed: map<TxnId, seq<Conn>>, q: Queue, c: Conn)
    ensures Forgotten(listed, q, c).Keys == listed.Keys && Forgotten(listed, q[..0], c) == listed
  {
  }

  lemma ForgetOneMore(listed: map<TxnId, seq<Conn>>, q: Queue, m: MessageToSend, c: Conn)
    requires m.txn in listed && NoDuplicates(listed[m.txn])
    ensures var f := Forgotten(listed, q, c);
            f[m.txn := RemoveFirst(f[m.txn], c)] == Forgotten(listed, q + [m], c)
  {
    RemoveFirstUnique(listed[m.txn], c);
    assert forall t :: Holds(q + [m], t) <==> Holds(q, t) || t == m.txn by {
      assert (q + [m])[|q|] == m;
      assert forall i :: 0 <= i < |q| ==> (q + [m])[i] == q[i];
    }
  }

  function Apply(w: Wire, e: Event): Wire
    requires Enabled(w, e)
  {
    match e
    case Connect(c) => w.(connected := w.connected + {c}, staged := w.staged[c := []], sent := w.sent[c := Sent(w, c)])
    case Close(c) => w.(connected := w.connected - {c})
    case Remove(c) => ApplyRemove(w, c)
    case Begin(t) => w.(listed := w.listed[t := []])
    case Send(t, c, m) => ApplySend(w, t, c, m)
    case Cancel(t) => ApplyCancel(w, t)
    case Execute(t) => ApplyExecute(w, t)
  }

  predicate Runnable(w: Wire, es: seq<Event>)
    decreases |es|
  {
    es == [] || (Enabled(w, es[0]) && Runnable(Apply(w, es[0]), es[1..]))
  }

  function Run(w: Wire, es: seq<Event>): Wire
    requires Runnable(w, es)
    decreases |es|
  {
    if es == [] then w else Run(Apply(w, es[0]), es[1..])
  }

  const EMPTY := Wire({}, map[], map[], map[])

  // ---- The listing invariant ----

  /** c is listed in t exactly once if t has something staged on c, and not at all otherwise. */
  ghost predicate ListedExactly(w: Wire, t: TxnId)
    requires t in w.listed
  {
    && NoDuplicates(w.listed[t])
    && (forall c :: c in w.listed[t] <==> c in w.staged && Holds(w.staged[c], t))
  }

  ghost predicate Inv(w: Wire) {
    && (forall t | t in w.listed :: ListedExactly(w, t))
    && (forall c, m | c in w.staged && m in w.staged[c] :: m.txn in w.listed)
    && w.connected <= w.staged.Keys <= w.sent.Keys
  }

  lemma ListingOf(w: Wire, t: TxnId)
    requires Inv(w) && t in w.listed
    ensures NoDuplicates(w.listed[t]) && forall c | c in w.listed[t] :: c in w.staged && c in w.sent
  {
    assert ListedExactly(w, t);
  }

  lemma {:induction false} WithoutMembers(q: Queue, t: TxnId)
    ensures forall m :: m in Without(q, t) <==> m in q && m.txn != t
  {
    if q != [] {
      WithoutMembers(q[1..], t);
      assert forall m :: m in q <==> m == q[0] || m in q[1..];
    }
  }

  lemma {:induction false} NothingToSend(q: Queue, t: TxnId)
    requires !Holds(q, t)
    ensures InSendOrder(q, t) == []
  {
    if q != [] {
      assert q[0].txn != t;
      assert forall i :: 0 <= i < |q[1..]| ==> q[1..][i] == q[i + 1];
      NothingToSend(q[1..], t);
    }
  }

  lemma {:induction false} WithoutOther(q: Queue, t: TxnId, u: TxnId)
    requires u != t
    ensures InSendOrder(Without(q, t), u) == InSendOrder(q, u)
    ensures Holds(Without(q, t), u) <==> Holds(q, u)
    ensures InSendOrder(Without(q, t), t) == []
  {
    if q != [] {
      WithoutOther(q[1..], t, u);
      HoldsUnfold(q, u);
      if q[0].txn != t { HoldsUnfold(Without(q, t), u); assert Without(q, t)[1..] == Without(q[1..], t); }
    }
  }

  lemma HoldsUnfold(q: Queue, t: TxnId)
    requires q != []
    ensures Holds(q, t) <==> q[0].txn == t || Holds(q[1..], t)
  {
    if i :| 0 <= i < |q[1..]| && q[1..][i].txn == t { assert q[i + 1].txn == t; }
    if i :| 0 < i < |q| && q[i].txn == t { assert q[1..][i - 1].txn == t; }
  }

  lemma {:induction false} WithoutAbsent(q: Queue, t: TxnId)
    requires !Holds(q, t)
    ensures Without(q, t) == q
  {
    if q != [] {
      assert q[0].txn != t;
      HoldsUnfold(q, t);
      WithoutAbsent(q[1..], t);
    }
  }

  lemma {:induction false} RemoveFirstUnique<T>(s: seq<T>, x: T)
    requires NoDuplicates(s)
    ensures NoDuplicates(RemoveFirst(s, x))
    ensures forall y :: y in RemoveFirst(s, x) <==> y in s && y != x
  {
    if s != [] {
      assert NoDuplicates(s[1..]);
      RemoveFirstUnique(s[1..], x);
      assert s[0] !in s[1..];
    }
  }

  lemma SendKeepsInv(w: Wire, t: TxnId, c: Conn, m: Message)
    requires Inv(w) && t in w.listed && c in w.staged
    ensures Inv(ApplySend(w, t, c, m))
  {
    if c in w.connected {
      var w' := ApplySend(w, t, c, m);
      var q, q' := w.staged[c], w'.staged[c];
      assert q'[0].txn == t;
      assert forall u :: u != t ==> (Holds(q', u) <==> Holds(q, u)) by {
        forall u | u != t ensures Holds(q', u) <==> Holds(q, u) {
          if i :| 0 <= i < |q| && q[i].txn == u { assert q'[i + 1].txn == u; }
        }
      }
      assert ListedExactly(w, t);
      forall u | u in w'.listed ensures ListedExactly(w', u) {
        assert ListedExactly(w, u);
      }
    }
  }

  /** Dropping on the listed connections is dropping everywhere. */
  lemma CancelReachesAll(w: Wire, t: TxnId)
    requires Inv(w) && t in w.listed
    ensures forall c | c in w.staged :: ApplyCancel(w, t).staged[c] == Without(w.staged[c], t)
  {
    assert ListedExactly(w, t);
    forall c | c in w.staged ensures ApplyCancel(w, t).staged[c] == Without(w.staged[c], t) {
      if c !in w.listed[t] { WithoutAbsent(w.staged[c], t); }
    }
  }

  lemma CancelKeepsInv(w: Wire, t: TxnId)
    requires Inv(w) && t in w.listed
    ensures Inv(ApplyCancel(w, t))
  {
    var w' := ApplyCancel(w, t);
    CancelReachesAll(w, t);
    forall u | u in w'.listed ensures ListedExactly(w', u) {
      assert ListedExactly(w, u);
      forall c | c in w.staged ensures Holds(w'.staged[c], u) <==> Holds(w.staged[c], u) {
        WithoutOther(w.staged[c], t, u);
      }
    }
    forall c, m | c in w'.staged && m in w'.staged[c] ensures m.txn in w'.listed {
      WithoutMembers(w.staged[c], t);
    }
  }

  lemma ExecuteKeepsInv(w: Wire, t: TxnId)
    requires Inv(w) && t in w.listed
    ensures Inv(ApplyExecute(w, t))
  {
    CancelKeepsInv(w, t);
    var k := ApplyCancel(w, t);
    forall u | u in k.listed ensures ListedExactly(ApplyExecute(w, t), u) { assert ListedExactly(k, u); }
  }

  lemma RemoveKeepsInv(w: Wire, c: Conn)
    requires Inv(w) && c in w.staged
    ensures Inv(ApplyRemove(w, c))
    ensures forall t | t in w.listed :: c !in ApplyRemove(w, c).listed[t]
  {
    var w' := ApplyRemove(w, c);
    forall t | t in w.listed ensures ListedExactly(w', t) && c !in w'.listed[t] {
      assert ListedExactly(w, t);
      RemoveFirstUnique(w.listed[t], c);
    }
  }

  lemma NoneHeld(w: Wire, t: TxnId, c: Conn)
    requires Inv(w) && c in w.staged && t !in w.listed
    ensures !Holds(w.staged[c], t)
  {
    assert forall i :: 0 <= i < |w.staged[c]| ==> w.staged[c][i] in w.staged[c];
  }

  lemma StepKeepsInv(w: Wire, e: Event)
    requires Inv(w) && Enabled(w, e)
    ensures Inv(Apply(w, e))
  {
    match e
    case Connect(c) =>
      forall t | t in w.listed ensures ListedExactly(Apply(w, e), t) { assert ListedExactly(w, t); }
    case Close(c) =>
      forall t | t in w.listed ensures ListedExactly(Apply(w, e), t) { assert ListedExactly(w, t); }
    case Remove(c) => RemoveKeepsInv(w, c);
    case Begin(t) =>
      forall u | u in Apply(w, e).listed ensures ListedExactly(Apply(w, e), u) {
        if u != t {
          assert ListedExactly(w, u);
        } else {
          forall c | c in w.staged ensures !Holds(w.staged[c], t) { NoneHeld(w, t, c); }
        }
      }
    case Send(t, c, m) => SendKeepsInv(w, t, c, m);
    case Cancel(t) => CancelKeepsInv(w, t);
    case Execute(t) => ExecuteKeepsInv(w, t);
  }

  /** Every interleaving of calls keeps the listing invariant. */
  lemma {:induction false} EveryRunKeepsInv(w: Wire, es: seq<Event>)
    requires Inv(w) && Runnable(w, es)
    ensures Inv(Run(w, es))
    decreases |es|
  {
    if es != [] {
      StepKeepsInv(w, es[0]);
      EveryRunKeepsInv(Apply(w, es[0]), es[1..]);
    }
  }

  // ---- What a transaction delivers ----

  /**
   What t owes to c after the events es, read off the events alone: the messages of
   the Send(t, c, _) events in their order, forgotten when t begins or ends or c goes.
   `before` is what t already owed.
   */
  function Owed(before: seq<Message>, open: bool, es: seq<Event>, t: TxnId, c: Conn): seq<Message>
    decreases |es|
  {
    if es == [] then before
    else
      var reset := match es[0] {
        case Connect(d) => d == c
        case Close(_) => false
        case Remove(d) => d == c
        case Begin(u) => u == t
        case Send(_, _, _) => false
        case Cancel(u) => u == t
        case Execute(u) => u == t
      };
      var open' := if es[0] == Connect(c) then true else if es[0] == Close(c) || es[0] == Remove(c) then false else open;
      var now := if reset then [] else if es[0].Send? && es[0].t == t && es[0].c == c && open then before + [es[0].msg] else before;
      Owed(now, open', es[1..], t, c)
  }

  /** What t has staged on c, oldest first; nothing when c is unknown. */
  function StagedFor(w: Wire, t: TxnId, c: Conn): seq<Message> {
    if c in w.staged then InSendOrder(w.staged[c], t) else []
  }

  lemma {:induction false} HoldsIfStaged(q: Queue, t: TxnId)
    ensures Holds(q, t) <==> InSendOrder(q, t) != []
  {
    if q != [] {
      assert forall m :: m in q <==> m == q[0] || m in q[1..];
      HoldsIfStaged(q[1..], t);
    }
  }

  /**
   Whatever transactions are open and however their calls interleave: a transaction lists a
   connection exactly once if that connection holds messages of it, and otherwise not.
   */
  lemma ListingInEveryRun(es: seq<Event>, t: TxnId, c: Conn)
    requires Runnable(EMPTY, es) && t in Run(EMPTY, es).listed
    ensures var w := Run(EMPTY, es);
            multiset(w.listed[t])[c] == if StagedFor(w, t, c) != [] then 1 else 0
  {
    var w := Run(EMPTY, es);
    EveryRunKeepsInv(EMPTY, es);
    assert ListedExactly(w, t);
    OnceIfDistinct(w.listed[t], c);
    if c in w.staged { HoldsIfStaged(w.staged[c], t); }
  }

  lemma StepStages(w: Wire, e: Event, t: TxnId, c: Conn)
    requires Inv(w) && Enabled(w, e)
    ensures StagedFor(Apply(w, e), t, c) == Owed(StagedFor(w, t, c), c in w.connected, [e], t, c)
    ensures e == Connect(c) || e == Close(c) || e == Remove(c) || (c in Apply(w, e).connected <==> c in w.connected)
  {
    assert [e][1..] == [];
    match e
    case Send(u, d, m) =>
      if d == c && c in w.connected {
        assert ([MessageToSend(u, m)] + w.staged[c])[1..] == w.staged[c];
      }
    case Begin(u) =>
      if u == t && c in w.staged {
        NoneHeld(w, t, c);
        NothingToSend(w.staged[c], t);
      }
    case Cancel(u) => EndStages(w, u, t, c);
    case Execute(u) => EndStages(w, u, t, c);
    case _ =>
  }

  lemma EndStages(w: Wire, u: TxnId, t: TxnId, c: Conn)
    requires Inv(w) && u in w.listed
    ensures StagedFor(ApplyCancel(w, u), t, c) == if t == u then [] else StagedFor(w, t, c)
  {
    CancelReachesAll(w, u);
    if c in w.staged {
      WithoutOther(w.staged[c], u, if t == u then u + 1 else t);
    }
  }

  lemma {:induction false} OwedUnfold(before: seq<Message>, open: bool, es: seq<Event>, t: TxnId, c: Conn)
    requires es != []
    ensures
      var open' := if es[0] == Connect(c) then true else if es[0] == Close(c) || es[0] == Remove(c) then false else open;
      Owed(before, open, es, t, c) == Owed(Owed(before, open, [es[0]], t, c), open', es[1..], t, c)
  {
    assert [es[0]][1..] == [];
  }

  /** After any run, what t has staged on c is exactly what the run's Send events owe c. */
  lemma {:induction false} StagedIsOwed(w: Wire, es: seq<Event>, t: TxnId, c: Conn)
    requires Inv(w) && Runnable(w, es)
    ensures StagedFor(Run(w, es), t, c) == Owed(StagedFor(w, t, c), c in w.connected, es, t, c)
    decreases |es|
  {
    if es != [] {
      StepKeepsInv(w, es[0]);
      StepStages(w, es[0], t, c);
      OwedUnfold(StagedFor(w, t, c), c in w.connected, es, t, c);
      StagedIsOwed(Apply(w, es[0]), es[1..], t, c);
    }
  }

  /**
   Executing t at the end of any run hands every connection exactly the messages that
   the run sent it in t, in the order of the calls, and touches no other transaction.
   */
  lemma {:induction false} ExecuteDelivers(es: seq<Event>, t: TxnId, c: Conn)
    requires Runnable(EMPTY, es) && t in Run(EMPTY, es).listed
    ensures var w := Run(EMPTY, es);
            var w' := ApplyExecute(w, t);
            && Sent(w', c) == Sent(w, c) + Owed([], false, es, t, c)
            && StagedFor(w', t, c) == []
            && forall u :: u != t ==> StagedFor(w', u, c) == StagedFor(w, u, c) && (u in w.listed ==> w'.listed[u] == w.listed[u])
  {
    var w := Run(EMPTY, es);
    EveryRunKeepsInv(EMPTY, es);
    StagedIsOwed(EMPTY, es, t, c);
    assert ListedExactly(w, t);
    EndStages(w, t, t, c);
    if c in w.staged && c !in w.listed[t] { NothingToSend(w.staged[c], t); }
    forall u | u != t ensures StagedFor(ApplyExecute(w, t), u, c) == StagedFor(w, u, c) {
      EndStages(w, t, u, c);
    }
  }

  /** Cancelling delivers nothing and leaves every list as if t had never sent anything. */
  lemma CancelDeliversNothing(es: seq<Event>, t: TxnId, c: Conn)
    requires Runnable(EMPTY, es) && t in Run(EMPTY, es).listed
    ensures var w := Run(EMPTY, es);
            var w' := ApplyCancel(w, t);
            && w'.sent == w.sent
            && (c in w.staged ==> w'.staged[c] == Without(w.staged[c], t))
            && forall u :: u != t && u in w.listed ==> w'.listed[u] == w.listed[u]
  {
    EveryRunKeepsInv(EMPTY, es);
    CancelReachesAll(Run(EMPTY, es), t);
  }

  // ---- A transaction from its beginning to its end ----

  datatype Post = Post(to: Conn, msg: Message)

  ghost predicate Deliverable(w: Wire, log: seq<Post>) { forall p | p in log :: p.to in w.staged }

  /** The state in which t, begun in w, has sent the messages of log, one after the other. */
  ghost function Posted(w: Wire, t: TxnId, log: seq<Post>): (s: Wire)
    requires t !in w.listed && Deliverable(w, log)
    ensures t in s.listed && s.staged.Keys == w.staged.Keys && s.listed.Keys == w.listed.Keys + {t}
    ensures s.connected == w.connected && s.sent == w.sent
  {
    if log == [] then Apply(w, Begin(t))
    else
      var n := |log| - 1;
      assert forall p | p in log[..n] :: p in log;
      ApplySend(Posted(w, t, log[..n]), t, log[n].to, log[n].msg)
  }

  /** The messages of log for c, in the order in which they were sent. */
  function For(log: seq<Post>, c: Conn): seq<Message> {
    if log == [] then []
    else For(log[..|log| - 1], c) + if log[|log| - 1].to == c then [log[|log| - 1].msg] else []
  }

  function Delivered(sent: map<Conn, seq<Message>>, connected: set<Conn>, log: seq<Post>): map<Conn, seq<Message>> {
    map c | c in sent :: if c in connected then sent[c] + For(log, c) else sent[c]
  }

  lemma {:induction false} ForAppend(log: seq<Post>, more: seq<Post>, c: Conn)
    ensures For(log + more, c) == For(log, c) + For(more, c)
    decreases |more|
  {
    if more == [] {
      assert log + more == log;
    } else {
      var n := |more| - 1;
      assert (log + more)[..|log| + n] == log + more[..n];
      ForAppend(log, more[..n], c);
    }
  }

  lemma DeliveredAppend(sent: map<Conn, seq<Message>>, connected: set<Conn>, log: seq<Post>, more: seq<Post>)
    ensures Delivered(Delivered(sent, connected, log), connected, more) == Delivered(sent, connected, log + more)
  {
    forall c | c in sent
      ensures Delivered(Delivered(sent, connected, log), connected, more)[c] == Delivered(sent, connected, log + more)[c]
    {
      DeliveredAppendAt(sent[c], log, more, c);
    }
  }

  lemma DeliveredAppendAt(before: seq<Message>, log: seq<Post>, more: seq<Post>, c: Conn)
    ensures before + For(log, c) + For(more, c) == before + For(log + more, c)
  {
    hide For;
    ForAppend(log, more, c);
  }

  lemma NothingDelivered(sent: map<Conn, seq<Message>>, connected: set<Conn>)
    ensures Delivered(sent, connected, []) == sent
  {
    forall c | c in sent ensures Delivered(sent, connected, [])[c] == sent[c] { assert For([], c) == []; }
  }

  lemma DeliveredOne(sent: map<Conn, seq<Message>>, connected: set<Conn>, c: Conn, m: Message)
    ensures Delivered(sent, connected, [Post(c, m)]) == if c in connected && c in sent then sent[c := sent[c] + [m]] else sent
  {
    assert [Post(c, m)][..0] == [];
    forall d | d in sent ensures Delivered(sent, connected, [Post(c, m)])[d] == if d == c && c in connected then sent[c] + [m] else sent[d] {
      assert For([Post(c, m)], d) == if d == c then [m] else [];
    }
  }

  lemma SentKeepsInv(w: Wire, sent: map<Conn, seq<Message>>)
    requires Inv(w) && sent.Keys == w.sent.Keys
    ensures Inv(w.(sent := sent))
  {
    forall t | t in w.listed ensures ListedExactly(w.(sent := sent), t) { assert ListedExactly(w, t); }
  }

  /** What t has staged can be told apart from what was there before. */
  lemma {:induction false} PostedShape(w: Wire, t: TxnId, log: seq<Post>, c: Conn)
    requires Inv(w) && t !in w.listed && Deliverable(w, log) && c in w.staged
    ensures var s := Posted(w, t, log);
            && Without(s.staged[c], t) == w.staged[c]
            && InSendOrder(s.staged[c], t) == (if c in w.connected then For(log, c) else [])
  {
    if log == [] {
      NoneHeld(w, t, c);
      WithoutAbsent(w.staged[c], t);
      NothingToSend(w.staged[c], t);
    } else {
      var n := |log| - 1;
      assert forall p | p in log[..n] :: p in log;
      PostedShape(w, t, log[..n], c);
      SendShape(Posted(w, t, log[..n]), t, log[n].to, log[n].msg, c);
      hide Inv, ApplySend, Without, InSendOrder;
    }
  }

  /** One more message of t, on the connection it is sent to. */
  lemma SendShape(w: Wire, t: TxnId, to: Conn, m: Message, c: Conn)
    requires t in w.listed && to in w.staged && c in w.staged
    ensures var q, q' := w.staged[c], ApplySend(w, t, to, m).staged[c];
            && Without(q', t) == Without(q, t)
            && InSendOrder(q', t) == if to == c && c in w.connected then InSendOrder(q, t) + [m] else InSendOrder(q, t)
  {
    hide Holds;
    var q := w.staged[c];
    assert ([MessageToSend(t, m)] + q)[1..] == q && ([MessageToSend(t, m)] + q)[0] == MessageToSend(t, m);
  }

  lemma {:induction false} PostedInv(w: Wire, t: TxnId, log: seq<Post>)
    requires Inv(w) && t !in w.listed && Deliverable(w, log)
    ensures Inv(Posted(w, t, log)) && Posted(w, t, log).listed - {t} == w.listed
  {
    if log == [] {
      StepKeepsInv(w, Begin(t));
    } else {
      hide Inv, Holds, ListedExactly;
      var n := |log| - 1;
      assert forall p | p in log[..n] :: p in log;
      PostedInv(w, t, log[..n]);
      SendKeepsInv(Posted(w, t, log[..n]), t, log[n].to, log[n].msg);
    }
  }

  /** Cancelling a transaction leaves no trace of it; nothing is delivered. */
  lemma CancelPosted(w: Wire, t: TxnId, log: seq<Post>)
    requires Inv(w) && t !in w.listed && Deliverable(w, log)
    ensures ApplyCancel(Posted(w, t, log), t) == w
  {
    hide Without, InSendOrder, For, Holds, Posted;
    var s := Posted(w, t, log);
    PostedInv(w, t, log);
    CancelReachesAll(s, t);
    forall c | c in w.staged ensures ApplyCancel(s, t).staged[c] == w.staged[c] { PostedShape(w, t, log, c); }
    assert ApplyCancel(s, t).staged == w.staged;
  }

  /** Executing it delivers all that it sent, and leaves no other trace. */
  lemma ExecutePosted(w: Wire, t: TxnId, log: seq<Post>)
    requires Inv(w) && t !in w.listed && Deliverable(w, log)
    ensures ApplyExecute(Posted(w, t, log), t) == w.(sent := Delivered(w.sent, w.connected, log))
  {
    var s := Posted(w, t, log);
    CancelPosted(w, t, log);
    PostedInv(w, t, log);
    assert ListedExactly(s, t);
    forall c | c in w.sent ensures HandedOver(s, t, ListedIn(s, t))[c] == Delivered(w.sent, w.connected, log)[c] {
      if c in w.staged {
        PostedShape(w, t, log, c);
        if c !in s.listed[t] { NothingToSend(s.staged[c], t); }
      }
    }
  }

  lemma SendSent(w: Wire, t: TxnId, c: Conn, m: Message, sent: map<Conn, seq<Message>>)
    requires t in w.listed && c in w.staged
    ensures ApplySend(w.(sent := sent), t, c, m) == ApplySend(w, t, c, m).(sent := sent)
  {
    hide Holds;
  }

  /** What has been sent before makes no difference to what is staged. */
  lemma {:induction false} PostedSent(w: Wire, t: TxnId, log: seq<Post>, sent: map<Conn, seq<Message>>)
    requires t !in w.listed && Deliverable(w, log)
    ensures Deliverable(w.(sent := sent), log) && Posted(w.(sent := sent), t, log) == Posted(w, t, log).(sent := sent)
  {
    hide ApplySend;
    if log != [] {
      var n := |log| - 1;
      assert forall p | p in log[..n] :: p in log;
      PostedSent(w, t, log[..n], sent);
      SendSent(Posted(w, t, log[..n]), t, log[n].to, log[n].msg, sent);
    }
  }
}
