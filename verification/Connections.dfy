/**
 BusConnections (bus/connection.c) with its expire list (bus/expirelist.c): the code that
 edits the staged messages and the reply table in place.  Any allocation may fail; such a
 choice is written `*`.
*/
module Connections {
  import opened BusTypes
  import opened W = Transactions
  import R = ReplyTable
  import I = ReplyInvariants
  import opened ReplyTheorems

  lemma {:induction false} WithoutAppend(q: Queue, m: MessageToSend, t: TxnId)
    ensures Without(q + [m], t) == Without(q, t) + (if m.txn == t then [] else [m])
  {
    if q == [] {
      assert q + [m] == [m];
    } else {
      TailAppend(q, m);
      WithoutAppend(q[1..], m, t);
      Regroup([q[0]], Without(q[1..], t), if m.txn == t then [] else [m]);
    }
  }

  lemma {:induction false} DropAllAppend(s: seq<R.PendingReply>, p: R.PendingReply, c: Conn)
    ensures R.DropAll(s + [p], c) == R.DropAll(s, c) + (if p.caller == c then [] else [R.Orphan(p, c)])
  {
    if s == [] {
      assert s + [p] == [p];
    } else {
      TailAppend(s, p);
      DropAllAppend(s[1..], p, c);
      Regroup([R.Orphan(s[0], c)], R.DropAll(s[1..], c), if p.caller == c then [] else [R.Orphan(p, c)]);
    }
  }

  lemma {:induction false} SurvivorsAppend(s: seq<R.PendingReply>, p: R.PendingReply, ea: int, now: nat)
    ensures R.Survivors(s + [p], ea, now) == R.Survivors(s, ea, now) + (if R.Due(p, ea, now) then [] else [p])
  {
    hide R.Due;
    if s == [] {
      assert s + [p] == [p] && [p][1..] == [];
    } else {
      TailAppend(s, p);
      SurvivorsAppend(s[1..], p, ea, now);
      Regroup(if R.Due(s[0], ea, now) then [] else [s[0]], R.Survivors(s[1..], ea, now), if R.Due(p, ea, now) then [] else [p]);
    }
  }

  lemma {:induction false} ExpiredAppend(s: seq<R.PendingReply>, p: R.PendingReply, ea: int, now: nat)
    ensures R.Expired(s + [p], ea, now) == R.Expired(s, ea, now) + (if R.Due(p, ea, now) then [R.KeyOf(p)] else [])
  {
    hide R.Due;
    if s == [] {
      assert s + [p] == [p] && [p][1..] == [];
    } else {
      TailAppend(s, p);
      ExpiredAppend(s[1..], p, ea, now);
      Regroup(if R.Due(s[0], ea, now) then [R.KeyOf(s[0])] else [], R.Expired(s[1..], ea, now), if R.Due(p, ea, now) then [R.KeyOf(p)] else []);
    }
  }

  lemma {:induction false} MinWaitAppend(s: seq<R.PendingReply>, p: R.PendingReply, ea: int, now: nat)
    ensures R.MinWait(s + [p], ea, now)
         == if R.WaitMs(p, ea, now) < R.MinWait(s, ea, now) then R.WaitMs(p, ea, now) else R.MinWait(s, ea, now)
  {
    if s == [] {
      assert s + [p] == [p];
      assert [p][1..] == [];
    } else {
      assert (s + [p])[1..] == s[1..] + [p];
      MinWaitAppend(s[1..], p, ea, now);
    }
  }

  lemma {:induction false} CountForAppend(s: seq<R.PendingReply>, p: R.PendingReply, c: Conn)
    ensures R.CountFor(s + [p], c) == R.CountFor(s, c) + (if p.caller == c then 1 else 0)
  {
    if s == [] {
      assert s + [p] == [p];
      assert [p][1..] == [];
    } else {
      assert (s + [p])[1..] == s[1..] + [p];
      CountForAppend(s[1..], p, c);
    }
  }

  lemma MakesOrphanAppend(s: seq<R.PendingReply>, p: R.PendingReply, c: Conn)
    ensures R.MakesOrphan(s + [p], c) <==> R.MakesOrphan(s, c) || (p.caller != c && p.replier == Some(c))
  {
    assert (s + [p])[|s|] == p;
    assert forall i :: 0 <= i < |s| ==> (s + [p])[i] == s[i];
  }

  lemma NothingDropped(s: seq<R.PendingReply>, c: Conn)
    ensures R.DropAll(s[..0], c) == [] && !R.MakesOrphan(s[..0], c) && s[0..] == s
  {
  }

  /** One turn of the loop over the list. */
  lemma DropStep(s: seq<R.PendingReply>, n: nat, c: Conn)
    requires n < |s|
    ensures var d, d' := R.DropAll(s[..n], c), R.DropAll(s[..n + 1], c);
            var now := d + s[n..];
            && now[|d|] == s[n]
            && (s[n].caller == c ==> d' == d && now[..|d|] + now[|d| + 1..] == d' + s[n + 1..])
            && (s[n].caller != c ==> |d'| == |d| + 1 && now[|d| := R.Orphan(s[n], c)] == d' + s[n + 1..])
            && (R.MakesOrphan(s[..n + 1], c) <==> R.MakesOrphan(s[..n], c) || (s[n].caller != c && s[n].replier == Some(c)))
  {
    hide R.DropAll, R.MakesOrphan;
    assert s[..n + 1] == s[..n] + [s[n]];
    DropAllAppend(s[..n], s[n], c);
    MakesOrphanAppend(s[..n], s[n], c);
  }

  /** Only connections that the daemon still knows wait for replies. */
  ghost predicate Known(t: R.Table, known: set<Conn>) {
    && (forall p | p in t.pending :: p.caller in known)
    && (forall i | 0 <= i < |t.hooks| && t.hooks[i].Taken? :: t.hooks[i].item.caller in known)
  }

  lemma UndoKnown(t: R.Table, known: set<Conn>)
    requires I.Inv(t) && Known(t, known)
    ensures Known(R.Apply(t, R.Undo), known)
  {
    I.UndoHooksItems(t.hooks, t.pending, t.limit);
    forall p | p in R.UndoHooks(t.hooks, t.pending) ensures p.caller in known {
      assert p in I.Items(R.UndoHooks(t.hooks, t.pending));
      I.UnwoundOrigin(t.hooks, I.Items(t.pending), p);
    }
  }

  lemma ConsumeKnown(t: R.Table, known: set<Conn>, caller: Conn, replier: Conn, serial: nat)
    requires Known(t, known) && R.Enabled(t, R.Consume(caller, replier, serial))
    ensures Known(R.ApplyConsume(t, caller, replier, serial), known)
  {
    var t' := R.ApplyConsume(t, caller, replier, serial);
    forall i | 0 <= i < |t'.hooks| && t'.hooks[i].Taken? ensures t'.hooks[i].item.caller in known {
      if i > 0 { assert t'.hooks[i] == t.hooks[i - 1]; } else { assert t'.hooks[0].item in t.pending; }
    }
  }

  lemma DropKnown(t: R.Table, known: set<Conn>, c: Conn)
    requires I.Inv(t) && t.hooks == [] && Known(t, known)
    ensures Known(R.Apply(t, R.Drop(c)), known - {c})
  {
    I.DropAllItems(t.pending, c);
    forall p | p in R.DropAll(t.pending, c) ensures p.caller in known - {c} {
      assert p in I.Items(R.DropAll(t.pending, c));
    }
  }

  lemma StampsPast(t: R.Table)
    requires I.Inv(t)
    ensures forall p | p in t.pending :: p.stamp <= t.clock
  {
    forall p | p in t.pending ensures p.stamp <= t.clock { assert I.Covered(t, p); }
  }

  /** One turn of the expiry loop. */
  lemma PassStep(s: seq<R.PendingReply>, n: nat, ea: int, now: nat)
    requires n < |s|
    ensures var v, v' := R.Survivors(s[..n], ea, now), R.Survivors(s[..n + 1], ea, now);
            var list := v + s[n..];
            && list[|v|] == s[n]
            && (R.Due(s[n], ea, now) ==> v' == v && list[..|v|] + list[|v| + 1..] == v' + s[n + 1..])
            && (!R.Due(s[n], ea, now) ==> v' == v + [s[n]] && list == v' + s[n + 1..])
    ensures R.Expired(s[..n + 1], ea, now)
         == if R.Due(s[n], ea, now) then R.Expired(s[..n], ea, now) + [R.KeyOf(s[n])] else R.Expired(s[..n], ea, now)
  {
    hide R.Survivors, R.Expired, R.Due;
    assert s[..n + 1] == s[..n] + [s[n]];
    SurvivorsAppend(s[..n], s[n], ea, now);
    ExpiredAppend(s[..n], s[n], ea, now);
  }

  type Policy = (Conn, Message) -> bool

  /** The error for the caller of k, unless the policy of the daemon eats it. */
  function NoReplyTo(k: R.Key, may: Policy): seq<Post> {
    var m := DriverError(NoReply, k.serial);
    if may(k.caller, m) then [Post(k.caller, m)] else []
  }

  function NoReplies(ks: seq<R.Key>, may: Policy): seq<Post> {
    if ks == [] then [] else NoReplies(ks[..|ks| - 1], may) + NoReplyTo(ks[|ks| - 1], may)
  }

  /** What has been sent once the callers of ks have been told that no reply will come. */
  function Told(sent: map<Conn, seq<Message>>, connected: set<Conn>, may: Policy, ks: seq<R.Key>): map<Conn, seq<Message>> {
    Delivered(sent, connected, NoReplies(ks, may))
  }

  lemma ToldAppend(sent: map<Conn, seq<Message>>, connected: set<Conn>, may: Policy, ks: seq<R.Key>, k: R.Key)
    ensures Delivered(Told(sent, connected, may, ks), connected, NoReplyTo(k, may)) == Told(sent, connected, may, ks + [k])
  {
    assert (ks + [k])[..|ks|] == ks;
    DeliveredAppend(sent, connected, NoReplies(ks, may), NoReplyTo(k, may));
  }

  /** The errors that c finds in reply to its calls among ks, in order. */
  function NoReplyMessages(ks: seq<R.Key>, c: Conn, may: Policy): seq<Message> {
    if ks == [] then []
    else
      var n := |ks| - 1;
      NoReplyMessages(ks[..n], c, may) +
      if ks[n].caller == c && may(c, DriverError(NoReply, ks[n].serial)) then [DriverError(NoReply, ks[n].serial)] else []
  }

  lemma {:induction false} NoRepliesFor(ks: seq<R.Key>, c: Conn, may: Policy)
    ensures For(NoReplies(ks, may), c) == NoReplyMessages(ks, c, may)
  {
    if ks != [] {
      var n := |ks| - 1;
      NoRepliesFor(ks[..n], c, may);
      var last := NoReplyTo(ks[n], may);
      ForAppend(NoReplies(ks[..n], may), last, c);
      assert last != [] ==> last[..0] == [];
    }
  }

  /** Every caller is sent the error NoReply in reply to each of its calls among ks, and nobody is sent anything else. */
  lemma ToldIs(sent: map<Conn, seq<Message>>, connected: set<Conn>, may: Policy, ks: seq<R.Key>, c: Conn)
    requires c in sent
    ensures c in Told(sent, connected, may, ks)
    ensures Told(sent, connected, may, ks)[c] == sent[c] + if c in connected then NoReplyMessages(ks, c, may) else []
  {
    hide For, NoReplies, NoReplyMessages;
    NoRepliesFor(ks, c, may);
  }

  /** What a walk over the expire list reads and writes. */
  datatype Pass = Pass(pending: seq<R.PendingReply>, notices: seq<R.Key>, sent: map<Conn, seq<Message>>,
                       connected: set<Conn>, may: Policy, ea: int, now: nat)

  /** The walk that began in w0 has dealt with its first n expectations, and with no others. */
  ghost predicate PassDone(w0: Pass, n: nat, w: Pass)
    requires n <= |w0.pending|
  {
    var s := w0.pending[..n];
    && w.pending == R.Survivors(s, w0.ea, w0.now) + w0.pending[n..]
    && w.notices == w0.notices + R.Expired(s, w0.ea, w0.now)
    && w.sent == Told(w0.sent, w0.connected, w0.may, R.Expired(s, w0.ea, w0.now))
  }

  ghost function PassKept(w0: Pass, n: nat): nat
    requires n <= |w0.pending|
  {
    |R.Survivors(w0.pending[..n], w0.ea, w0.now)|
  }

  ghost function PassWait(w0: Pass, n: nat): int
    requires n <= |w0.pending|
  {
    if w0.ea > 0 then R.MinWait(R.Survivors(w0.pending[..n], w0.ea, w0.now), w0.ea, w0.now) else R.ONE_HOUR
  }

  lemma PassStarts(w0: Pass)
    ensures PassDone(w0, 0, w0) && PassKept(w0, 0) == 0 && PassWait(w0, 0) == R.ONE_HOUR
  {
    NothingDelivered(w0.sent, w0.connected);
  }

  lemma PassPosition(w0: Pass, n: nat, w: Pass)
    requires n <= |w0.pending| && PassDone(w0, n, w) && PassKept(w0, n) < |w.pending|
    ensures n < |w0.pending| && w.pending[PassKept(w0, n)] == w0.pending[n] && w0.pending[n] in w0.pending
  {
  }

  lemma PassEnds(w0: Pass, n: nat, w: Pass)
    requires n <= |w0.pending| && PassDone(w0, n, w) && PassKept(w0, n) >= |w.pending|
    ensures PassKept(w0, n) == |w.pending|
    ensures n == |w0.pending| && (w0.ea > 0 ==> PassWait(w0, n) == R.MinWait(w.pending, w0.ea, w0.now))
  {
    assert w0.pending[..|w0.pending|] == w0.pending;
  }

  lemma PassExpires(w0: Pass, n: nat, w: Pass, w': Pass)
    requires n < |w0.pending| && PassDone(w0, n, w) && R.Due(w0.pending[n], w0.ea, w0.now)
    requires var i := PassKept(w0, n); w'.pending == w.pending[..i] + w.pending[i + 1..]
    requires w'.notices == w.notices + [R.KeyOf(w0.pending[n])]
    requires w'.sent == Delivered(w.sent, w0.connected, NoReplyTo(R.KeyOf(w0.pending[n]), w0.may))
    ensures PassDone(w0, n + 1, w') && PassKept(w0, n + 1) == PassKept(w0, n) && PassWait(w0, n + 1) == PassWait(w0, n)
  {
    hide R.Survivors, R.Expired, R.MinWait, R.Due, Told, NoReplyTo, Delivered;
    PassStep(w0.pending, n, w0.ea, w0.now);
    var e, k := R.Expired(w0.pending[..n], w0.ea, w0.now), R.KeyOf(w0.pending[n]);
    assert w'.notices == w0.notices + (e + [k]);
    ToldAppend(w0.sent, w0.connected, w0.may, e, k);
  }

  lemma PassKeeps(w0: Pass, n: nat, w: Pass)
    requires n < |w0.pending| && PassDone(w0, n, w) && !R.Due(w0.pending[n], w0.ea, w0.now)
    ensures PassDone(w0, n + 1, w) && PassKept(w0, n + 1) == PassKept(w0, n) + 1
    ensures var x := R.WaitMs(w0.pending[n], w0.ea, w0.now);
            PassWait(w0, n + 1) == if w0.ea > 0 && x < PassWait(w0, n) then x else PassWait(w0, n)
  {
    hide R.Survivors, R.Expired, R.MinWait, R.Due, R.WaitMs, Told;
    PassStep(w0.pending, n, w0.ea, w0.now);
    MinWaitAppend(R.Survivors(w0.pending[..n], w0.ea, w0.now), w0.pending[n], w0.ea, w0.now);
  }

  /** A finished walk and the new timer are what the Expire event describes. */
  lemma PassIsExpire(t: R.Table, w0: Pass, fail: Option<nat>, w: Pass, t': R.Table, next: int, known: set<Conn>)
    requires w0.pending == t.pending && w0.notices == t.notices && w0.ea == t.expireAfter && w0.now == t.clock
    requires t.hooks == [] && Known(t, known) && R.Enabled(t, R.Expire(fail))
    requires PassDone(w0, if fail.Some? then fail.value else |t.pending|, w)
    requires fail.Some? ==> next == R.OOM_WAIT
    requires fail.None? ==> next == if w.pending != [] && t.expireAfter > 0 then R.MinWait(w.pending, t.expireAfter, t.clock) else -1
    requires t' == t.(pending := w.pending, notices := w.notices,
                      timer := if next >= 0 then R.At(t.clock + 1000 * next) else R.Off,
                      retryAt := if fail.Some? then t.clock + 1000 * R.OOM_WAIT else t.retryAt)
    ensures t' == R.ApplyExpire(t, fail) && t.notices <= t'.notices
    ensures w.sent == Told(w0.sent, w0.connected, w0.may, t'.notices[|t.notices|..])
    ensures Known(t', known)
  {
    hide R.Survivors, R.Expired, R.MinWait, R.Due, Told;
    var n := if fail.Some? then fail.value else |t.pending|;
    var e := R.Expired(t.pending[..n], t.expireAfter, t.clock);
    assert t'.notices[|t.notices|..] == e;
    SurvivorsKnown(t.pending[..n], t.expireAfter, t.clock);
    if fail.None? {
      assert t.pending[..n] == t.pending && t.pending[n..] == [];
      assert w.pending == R.Survivors(t.pending, t.expireAfter, t.clock);
      SurvivorsWait(t.pending, t.expireAfter, t.clock);
    }
  }

  lemma {:induction false} SurvivorsKnown(s: seq<R.PendingReply>, ea: int, now: nat)
    ensures forall p | p in R.Survivors(s, ea, now) :: p in s
  {
    if s != [] { SurvivorsKnown(s[1..], ea, now); }
  }

  lemma SurvivorsWait(s: seq<R.PendingReply>, ea: int, now: nat)
    ensures ea > 0 ==> R.MinWait(R.Survivors(s, ea, now), ea, now) >= 0
  {
  }


  lemma HasTakenAppend(hs: seq<R.Hook>, h: R.Hook)
    ensures R.HasTaken(hs + [h]) <==> R.HasTaken(hs) || h.Taken?
  {
    assert (hs + [h])[|hs|] == h;
    assert forall i :: 0 <= i < |hs| ==> (hs + [h])[i] == hs[i];
  }

  /** What is left to undo once the hook at n has run. */
  lemma OneHook(hs: seq<R.Hook>, n: nat, s: seq<R.PendingReply>)
    requires n < |hs|
    ensures hs[n..][0] == hs[n] && hs[n..][1..] == hs[n + 1..]
    ensures R.UndoHooks(hs[n..], s) == R.UndoHooks(hs[n + 1..], R.UndoHook(hs[n], s))
    ensures R.HasTaken(hs[..n + 1]) <==> R.HasTaken(hs[..n]) || hs[n].Taken?
  {
    hide R.UndoHook;
    assert hs[n..][1..] == hs[n + 1..] && hs[..n + 1] == hs[..n] + [hs[n]];
    HasTakenAppend(hs[..n], hs[n]);
  }

  lemma NoHooks(hs: seq<R.Hook>, s: seq<R.PendingReply>)
    ensures R.UndoHooks([], s) == s && hs[0..] == hs && !R.HasTaken(hs[..0])
  {
  }

  datatype ExpectResult = Granted | NotWanted | SameSerial | TooMany | OutOfMemory
  datatype Visited = Expired | Kept | Failed
  datatype CheckResult = Requested | NotRequested | CheckOutOfMemory

  /** connection_cancel_transaction */
  method DropMessages(q0: W.Queue, t: TxnId) returns (q: W.Queue)
    ensures q == Without(q0, t)
  {
    hide Without;
    NothingWithout(q0, t);
    q := q0;
    ghost var n := 0;
    var i := 0;
    while i < |q|
      invariant n <= |q0| && i == |Without(q0[..n], t)| && q == Without(q0[..n], t) + q0[n..]
      decreases |q0| - n
    {
      WithoutStep(q0, n, t);
      if q[i].txn == t {
        q := q[..i] + q[i + 1..];
        assert q == Without(q0[..n + 1], t) + q0[n + 1..];
      } else {
        assert q == Without(q0[..n + 1], t) + q0[n + 1..];
        i := i + 1;
      }
      n := n + 1;
    }
    assert q0[..n] == q0 && q0[n..] == [];
  }

  /** One turn of the loop. */
  lemma WithoutStep(q0: W.Queue, n: nat, t: TxnId)
    requires n < |q0|
    ensures var w, w' := Without(q0[..n], t), Without(q0[..n + 1], t);
            var list := w + q0[n..];
            && list[|w|] == q0[n]
            && (q0[n].txn == t ==> w' == w && list[..|w|] + list[|w| + 1..] == w' + q0[n + 1..])
            && (q0[n].txn != t ==> |w'| == |w| + 1 && list == w' + q0[n + 1..])
  {
    hide Without;
    assert q0[..n + 1] == q0[..n] + [q0[n]];
    WithoutAppend(q0[..n], q0[n], t);
  }

  lemma NothingWithout(q: W.Queue, t: TxnId)
    ensures Without(q[..0], t) == [] && q[0..] == q
  {
  }

  /** connection_execute_transaction */
  method HandOver(q0: W.Queue, before: seq<Message>, t: TxnId) returns (q: W.Queue, out: seq<Message>)
    ensures q == Without(q0, t)
    ensures out == before + InSendOrder(q0, t)
  {
    q, out := q0, before;
    var i := |q|;
    while i > 0   // oldest first
      invariant 0 <= i <= |q0|
      invariant q == q0[..i] + Without(q0[i..], t)
      invariant out == before + InSendOrder(q0[i..], t)
    {
      i := i - 1;
      assert q0[i..][1..] == q0[i + 1..];
      var m := q[i];
      if m.txn == t {
        q := q[..i] + q[i + 1..];
        out := out + [m.msg];
      }
    }
    assert q0[0..] == q0;
  }

  class BusConnections {
    // Messages
    var connected: set<Conn>
    var staged: map<Conn, Queue>
    var sent: map<Conn, seq<Message>>
    var listed: map<TxnId, seq<Conn>>
    var nextTxn: TxnId
    var oomReady: set<Conn>       // connections with a preallocated out-of-memory error

    // Expected replies
    const enough: bool            // no allocation fails
    const limit: nat
    const expireAfter: int
    var pending: seq<R.PendingReply>
    var hooks: seq<R.Hook>        // of the transaction hookOwner
    var hookOwner: TxnId
    var nextId: nat
    var clock: nat
    var timer: R.Timer

    /** Whether the recipient's policy lets a message of the daemon itself through. */
    const driverMaySend: Policy

    ghost var retryAt: int
    ghost var recorded: set<R.Key>
    ghost var consumed: set<R.Key>
    ghost var dropped: set<R.Key>
    ghost var notices: seq<R.Key>

    ghost function Wired(): Wire
      reads this
    {
      Wire(connected, staged, sent, listed)
    }

    ghost function Replies(): R.Table
      reads this
    {
      R.Table(limit, expireAfter, pending, hooks, nextId, clock, timer, retryAt, recorded, consumed, dropped, notices)
    }

    ghost predicate ValidWire()
      reads this
    {
      W.Inv(Wired()) && forall t | t in listed :: t < nextTxn
    }

    /** At most one open transaction at a time edits the reply table. */
    ghost predicate Valid()
      reads this
    {
      && ValidWire()
      && I.Inv(Replies())
      && (hooks != [] ==> hookOwner in listed)
      && Known(Replies(), staged.Keys)
    }

    constructor (enough: bool, limit: nat, expireAfter: int, now: nat, driverMaySend: Policy)
      requires now > 0
      ensures Valid() && Wired() == W.EMPTY && Replies() == R.Initial(limit, expireAfter, now)
      ensures this.enough == enough && this.driverMaySend == driverMaySend
    {
      this.enough, this.limit, this.expireAfter, this.driverMaySend := enough, limit, expireAfter, driverMaySend;
      connected, staged, sent, listed, nextTxn, oomReady := {}, map[], map[], map[], 0, {};
      pending, hooks, hookOwner, nextId, clock, timer := [], [], 0, 0, now, R.Off;
      retryAt, recorded, consumed, dropped, notices := 0, {}, {}, {}, [];
      new;
      assert forall c :: I.OfCaller({}, c) == {};
    }

    // ---- Transactions ----

    method NewTransaction() returns (r: Option<TxnId>)
      requires ValidWire()
      modifies `listed, `nextTxn
      ensures ValidWire()
      ensures r.None? ==> listed == old(listed) && !enough
      ensures r.Some? ==> r.value !in old(listed) && Wired() == W.Apply(old(Wired()), W.Begin(r.value)) && r.value in listed
    {
      var full := Exhausted(enough);
      if full {
        return None;
      }
      W.StepKeepsInv(Wired(), W.Begin(nextTxn));
      r := Some(nextTxn);
      listed := listed[nextTxn := []];
      nextTxn := nextTxn + 1;
    }

    method Send(t: TxnId, c: Conn, m: Message) returns (ok: bool)
      requires ValidWire() && t in listed && c in staged
      modifies `staged, `listed
      ensures ValidWire()
      ensures ok ==> Wired() == W.ApplySend(old(Wired()), t, c, m)
      ensures !ok ==> Wired() == old(Wired()) && !enough
      ensures listed.Keys == old(listed.Keys) && staged.Keys == old(staged.Keys)
    {
      if c !in connected {
        return true;   // silently ignore disconnected connections
      }
      var full := Exhausted(enough);
      if full {
        return false;
      }
      W.SendKeepsInv(Wired(), t, c, m);
      ghost var q := staged[c];
      staged := staged[c := [MessageToSend(t, m)] + staged[c]];

      // If it already holds a message of this transaction, the connection is already listed.
      var found := FindOnConnection(c, t);
      assert staged[c][1..] == q;
      if !found {
        full := Exhausted(enough);
        if full {
          staged := staged[c := staged[c][1..]];
          assert staged == old(staged);
          return false;
        }
        listed := listed[t := [c] + listed[t]];
      }
      return true;
    }

    method FindOnConnection(c: Conn, t: TxnId) returns (found: bool)
      requires c in staged && staged[c] != []
      ensures found <==> Holds(staged[c][1..], t)
    {
      var q := staged[c];
      var i := 1;
      while i < |q| && q[i].txn != t
        invariant 1 <= i <= |q|
        invariant forall j :: 1 <= j < i ==> q[j].txn != t
      {
        i := i + 1;
      }
      found := i < |q|;
      assert forall j :: 1 <= j < |q| ==> q[1..][j - 1] == q[j];
      if found { assert q[1..][i - 1].txn == t; }
    }

    method CancelOnConnection(c: Conn, t: TxnId)
      requires c in staged
      modifies `staged
      ensures staged == old(staged)[c := Without(old(staged)[c], t)]
    {
      var q := DropMessages(staged[c], t);
      staged := staged[c := q];
    }

    method ExecuteOnConnection(c: Conn, t: TxnId)
      requires c in staged && c in sent
      modifies `staged, `sent
      ensures staged == old(staged)[c := Without(old(staged)[c], t)]
      ensures sent == old(sent)[c := old(sent)[c] + InSendOrder(old(staged)[c], t)]
    {
      var q, out := HandOver(staged[c], sent[c], t);
      staged, sent := staged[c := q], sent[c := out];
    }

    /** Between two connections of a transaction that is being cancelled or executed. */
    ghost predicate PartlyDone(w: Wire, t: TxnId, done: set<Conn>)
      requires t in w.listed
      reads this
    {
      && t in listed && listed == w.listed[t := listed[t]] && NoDuplicates(listed[t])
      && W.Elements(listed[t]) == W.ListedIn(w, t) - done
      && done <= W.ListedIn(w, t) <= w.staged.Keys * w.sent.Keys
      && staged == W.Dropped(w, t, done)
    }

    method CancelNext(t: TxnId, ghost w: Wire, ghost done: set<Conn>) returns (c: Conn)
      requires t in w.listed && PartlyDone(w, t, done) && listed[t] != []
      modifies `staged, `listed
      ensures c !in done && PartlyDone(w, t, done + {c})
    {
      c := listed[t][0];
      W.ElementsTail(listed[t]);
      assert c in W.ListedIn(w, t) && c in w.staged.Keys * w.sent.Keys;
      W.OneMore(w, t, done, c);
      listed := listed[t := listed[t][1..]];
      CancelOnConnection(c, t);
    }

    method ExecuteNext(t: TxnId, ghost w: Wire, ghost done: set<Conn>) returns (c: Conn)
      requires t in w.listed && PartlyDone(w, t, done) && sent == W.HandedOver(w, t, done) && listed[t] != []
      modifies `staged, `sent, `listed
      ensures c !in done && PartlyDone(w, t, done + {c}) && sent == W.HandedOver(w, t, done + {c})
    {
      c := listed[t][0];
      W.ElementsTail(listed[t]);
      assert c in W.ListedIn(w, t) && c in w.staged.Keys * w.sent.Keys;
      W.OneMore(w, t, done, c);
      hide W.HandedOver, W.Dropped, W.Elements, W.ListedIn, Without, InSendOrder;
      listed := listed[t := listed[t][1..]];
      ExecuteOnConnection(c, t);
    }

    method CancelStaged(t: TxnId)
      requires t in listed && NoDuplicates(listed[t]) && forall c | c in listed[t] :: c in staged && c in sent
      modifies `staged, `listed
      ensures Wired() == W.ApplyCancel(old(Wired()), t)
    {
      ghost var w, done: set<Conn> := Wired(), {};
      assert W.Elements(listed[t]) == W.ListedIn(w, t) - done;
      assert PartlyDone(w, t, done);
      while listed[t] != []
        invariant PartlyDone(w, t, done)
        decreases W.ListedIn(w, t) - done
      {
        var c := CancelNext(t, w, done);
        done := done + {c};
      }
      assert done == W.ListedIn(w, t) by { assert W.Elements(listed[t]) == {}; }
      listed := listed - {t};
    }

    method ExecuteStaged(t: TxnId)
      requires t in listed && NoDuplicates(listed[t]) && forall c | c in listed[t] :: c in staged && c in sent
      modifies `staged, `sent, `listed
      ensures Wired() == W.ApplyExecute(old(Wired()), t)
    {
      ghost var w, done: set<Conn> := Wired(), {};
      assert W.Elements(listed[t]) == W.ListedIn(w, t) - done;
      assert PartlyDone(w, t, done);
      while listed[t] != []
        invariant PartlyDone(w, t, done) && sent == W.HandedOver(w, t, done)
        decreases W.ListedIn(w, t) - done
      {
        var c := ExecuteNext(t, w, done);
        done := done + {c};
      }
      assert done == W.ListedIn(w, t) by { assert W.Elements(listed[t]) == {}; }
      listed := listed - {t};
    }

    /** The messages first, then the hooks in the reverse of the order in which they were added. */
    method CancelAndFree(t: TxnId)
      requires Valid() && t in listed
      modifies `staged, `listed, `pending, `hooks, `timer
      ensures Valid()
      ensures Wired() == W.ApplyCancel(old(Wired()), t)
      ensures Replies() == if old(hookOwner == t) then R.Apply(old(Replies()), R.Undo) else old(Replies())
    {
      hide I.Inv, W.Inv;
      W.CancelKeepsInv(Wired(), t);
      W.ListingOf(Wired(), t);
      CancelStaged(t);
      if hookOwner == t {
        I.UndoKeepsInv(Replies());
        UndoKnown(Replies(), staged.Keys);
        RunHooks();
      }
    }

    method RunHooks()
      modifies `pending, `hooks, `timer
      ensures Replies() == R.Apply(old(Replies()), R.Undo)
    {
      hide R.UndoHooks, R.UndoHook, R.HasTaken;
      ghost var hs := hooks;
      ghost var n := 0;
      NoHooks(hs, pending);
      while hooks != []
        invariant n <= |hs| && hooks == hs[n..]
        invariant R.UndoHooks(hooks, pending) == R.UndoHooks(hs, old(pending))
        invariant timer == if R.HasTaken(hs[..n]) then R.Rearmed(old(timer), clock) else old(timer)
        decreases |hooks|
      {
        OneHook(hs, n, pending);
        RunHook(hooks[0]);
        hooks := hooks[1..];
        n := n + 1;
      }
      NoHooks(hs, pending);
      assert hs[..n] == hs && hs[n..] == [];
    }

    /** cancel_pending_reply and cancel_check_pending_reply */
    method RunHook(h: R.Hook)
      modifies `pending, `timer
      ensures pending == R.UndoHook(h, old(pending)) && timer == if h.Taken? then R.Rearmed(old(timer), clock) else old(timer)
    {
      match h {
        case Added(k) => pending := R.RemoveId(pending, k.id);
        case Taken(p) =>
          pending := [p] + pending;
          if timer.Off? {
            timer := R.At(clock);
          }
      }
    }

    method ExecuteAndFree(t: TxnId)
      requires Valid() && t in listed
      modifies `staged, `sent, `listed, `hooks, `recorded, `consumed
      ensures Valid()
      ensures Wired() == W.ApplyExecute(old(Wired()), t)
      ensures Replies() == if old(hookOwner == t) then R.Apply(old(Replies()), R.Commit) else old(Replies())
    {
      hide I.Inv, W.Inv, R.AddedKeys, R.TakenKeys, W.HandedOver;
      W.ExecuteKeepsInv(Wired(), t);
      W.ListingOf(Wired(), t);
      ExecuteStaged(t);
      if hookOwner == t {
        FreeHooks();
      }
    }

    /** The hooks are freed without being run, so that what they would undo is final. */
    method FreeHooks()
      requires I.Inv(Replies())
      modifies `hooks, `recorded, `consumed
      ensures Replies() == R.Apply(old(Replies()), R.Commit) && I.Inv(Replies())
    {
      I.CommitKeepsInv(Replies());
      hide I.Inv, R.AddedKeys, R.TakenKeys;
      recorded, consumed := recorded + R.AddedKeys(hooks), consumed + R.TakenKeys(hooks);
      hooks := [];
    }

    // ---- Expected replies ----

    method CountAndFind(caller: Conn, replier: Conn, serial: nat) returns (same: bool, count: nat)
      ensures same <==> R.Find(pending, caller, replier, serial) < |pending|
      ensures !same ==> count == R.CountFor(pending, caller)
    {
      count := 0;
      var i := 0;
      while i < |pending|
        invariant i <= |pending|
        invariant forall j :: 0 <= j < i ==> !R.Matches(pending[j], caller, replier, serial)
        invariant count == R.CountFor(pending[..i], caller)
      {
        if R.Matches(pending[i], caller, replier, serial) {
          return true, count;
        }
        CountForAppend(pending[..i], pending[i], caller);
        assert pending[..i + 1] == pending[..i] + [pending[i]];
        if pending[i].caller == caller {
          count := count + 1;
        }
        i := i + 1;
      }
      assert pending[..i] == pending;
      return false, count;
    }

    /** Record that a reply is allowed. */
    method ExpectReply(t: TxnId, caller: Conn, replier: Conn, call: Message) returns (r: ExpectResult)
      requires Valid() && t in listed && caller in staged && call.Message? && (hooks != [] ==> hookOwner == t)
      modifies `pending, `hooks, `hookOwner, `nextId, `timer
      ensures Valid() && (hooks != [] ==> hookOwner == t)
      ensures r.NotWanted? <==> call.noReply
      ensures r.SameSerial? <==> !call.noReply && R.Find(old(pending), caller, replier, call.serial) < |old(pending)|
      ensures r.TooMany? <==> !call.noReply && !r.SameSerial? && R.CountFor(old(pending), caller) >= limit
      ensures r.Granted? ==>
                && R.Enabled(old(Replies()), R.Record(caller, replier, call.serial))
                && Replies() == R.ApplyRecord(old(Replies()), caller, replier, call.serial)
      ensures r.OutOfMemory? ==> !enough
      ensures r.OutOfMemory? ==> Replies() == old(Replies()) || Replies() == R.Apply(old(Replies()), R.RecordFails)
      ensures !r.Granted? && !r.OutOfMemory? ==> Replies() == old(Replies())
    {
      hide I.Inv;
      if call.noReply {
        return NotWanted;
      }
      var same, count := CountAndFind(caller, replier, call.serial);
      if same {
        return SameSerial;
      }
      if count >= limit {
        return TooMany;
      }
      I.RearmKeepsInv(Replies());
      I.RecordKeepsInv(Replies(), caller, replier, call.serial);
      var ok := AddExpectation(t, caller, replier, call.serial);
      return if ok then Granted else OutOfMemory;
    }

    method AddExpectation(t: TxnId, caller: Conn, replier: Conn, serial: nat) returns (ok: bool)
      modifies `pending, `hooks, `hookOwner, `nextId, `timer
      ensures ok ==> hookOwner == t && Replies() == R.ApplyRecord(old(Replies()), caller, replier, serial)
      ensures !ok ==> !enough && hookOwner == old(hookOwner) && (Replies() == old(Replies()) || Replies() == R.Apply(old(Replies()), R.RecordFails))
    {
      var full := Exhausted(enough);
      if full {
        return false;
      }
      var p := R.PendingReply(nextId, caller, Some(replier), serial, clock);
      pending := [p] + pending;
      if timer.Off? {
        timer := R.At(clock);
      }
      full := Exhausted(enough);
      if full {
        pending := pending[1..];   // the timer stays armed
        return false;
      }
      hooks := [R.Added(R.KeyOf(p))] + hooks;
      hookOwner := t;
      nextId := nextId + 1;
      return true;
    }

    method FindExpectation(caller: Conn, replier: Conn, serial: nat) returns (i: nat)
      ensures i == R.Find(pending, caller, replier, serial)
    {
      i := 0;
      while i < |pending| && !R.Matches(pending[i], caller, replier, serial)
        invariant i <= |pending|
        invariant forall j :: 0 <= j < i ==> !R.Matches(pending[j], caller, replier, serial)
      {
        i := i + 1;
      }
    }

    /** Check whether a reply is allowed, and remove the expectation if so. */
    method CheckReply(t: TxnId, replier: Conn, caller: Conn, reply: Message) returns (r: CheckResult)
      requires Valid() && t in listed && reply.Message? && (hooks != [] ==> hookOwner == t)
      modifies `pending, `hooks, `hookOwner
      ensures Valid() && (hooks != [] ==> hookOwner == t)
      ensures r.NotRequested? <==> R.Find(old(pending), caller, replier, reply.replySerial) == |old(pending)|
      ensures r.Requested? ==> Replies() == R.ApplyConsume(old(Replies()), caller, replier, reply.replySerial)
      ensures !r.Requested? ==> Replies() == old(Replies())
      ensures r.CheckOutOfMemory? ==> !enough
    {
      hide I.Inv, W.Inv, R.Find, R.Matches;
      var i := FindExpectation(caller, replier, reply.replySerial);
      if i == |pending| {
        return NotRequested;
      }
      var full := Exhausted(enough);
      if full {
        return CheckOutOfMemory;
      }
      I.ConsumeKeepsInv(Replies(), caller, replier, reply.replySerial);
      ConsumeKnown(Replies(), staged.Keys, caller, replier, reply.replySerial);
      hooks := [R.Taken(pending[i])] + hooks;
      hookOwner := t;
      pending := pending[..i] + pending[i + 1..];
      return Requested;
    }

    method DropPendingReplies(c: Conn)
      requires Valid() && hooks == []
      modifies `pending, `timer, `dropped
      ensures Valid()
      ensures Replies() == R.Apply(old(Replies()), R.Drop(c))
    {
      hide I.Inv;
      DropKnown(Replies(), staged.Keys, c);
      DropReplies(c);
    }

    method DropReplies(c: Conn)
      requires I.Inv(Replies()) && hooks == []
      modifies `pending, `timer, `dropped
      ensures I.Inv(Replies())
      ensures Replies() == R.Apply(old(Replies()), R.Drop(c))
    {
      hide I.Inv;
      I.DropKeepsInv(Replies(), c);
      ghost var s := pending;
      DropLoop(c);
      dropped := dropped + (set p | p in s && p.caller == c :: R.KeyOf(p));
    }

    method DropLoop(c: Conn)
      modifies `pending, `timer
      ensures pending == R.DropAll(old(pending), c)
      ensures timer == if R.MakesOrphan(old(pending), c) then R.At(clock) else old(timer)
    {
      hide R.DropAll, R.MakesOrphan;
      ghost var s, n := pending, 0;
      NothingDropped(s, c);
      var i := 0;
      while i < |pending|
        invariant n <= |s| && i == |R.DropAll(s[..n], c)| && pending == R.DropAll(s[..n], c) + s[n..]
        invariant timer == if R.MakesOrphan(s[..n], c) then R.At(clock) else old(timer)
        decreases |s| - n
      {
        DropStep(s, n, c);
        var p := pending[i];
        if p.caller == c {
          pending := pending[..i] + pending[i + 1..];
        } else {
          if p.replier == Some(c) {
            pending := pending[i := p.(replier := None, stamp := 0)];
            timer := R.At(clock);   // recheck immediately
          }
          i := i + 1;
        }
        n := n + 1;
      }
      assert n == |s| && s[..n] == s;
    }

    // ---- Disconnection ----

    method ForgetListings(c: Conn)
      requires c in staged && forall m | m in staged[c] :: m.txn in listed && NoDuplicates(listed[m.txn])
      modifies `staged, `listed
      ensures staged == old(staged)[c := []]
      ensures listed == W.Forgotten(old(listed), old(staged)[c], c)
    {
      hide W.Forgotten, W.RemoveFirst, NoDuplicates;
      ghost var l, q, n := listed, staged[c], 0;
      W.ForgottenKeys(l, q, c);
      while staged[c] != []
        invariant c in staged && n <= |q| && staged == old(staged)[c := q[n..]]
        invariant listed == W.Forgotten(l, q[..n], c)
        decreases |q| - n
      {
        assert q[n] in q && q[..n + 1] == q[..n] + [q[n]] && q[n..][1..] == q[n + 1..];
        W.ForgottenKeys(l, q[..n], c);
        W.ForgetOneMore(l, q[..n], q[n], c);
        Overwrite(old(staged), c, q[n..], q[n + 1..]);
        ForgetFirst(c);
        n := n + 1;
      }
      assert q[..n] == q && q[n..] == [];
    }

    /** The transaction of the first message of c forgets c, and the message goes. */
    method ForgetFirst(c: Conn)
      requires c in staged && staged[c] != [] && staged[c][0].txn in listed
      modifies `staged, `listed
      ensures staged == old(staged)[c := old(staged)[c][1..]]
      ensures var t := old(staged)[c][0].txn; listed == old(listed)[t := W.RemoveFirst(old(listed)[t], c)]
    {
      var m := staged[c][0];
      listed := listed[m.txn := W.RemoveFirst(listed[m.txn], c)];
      staged := staged[c := staged[c][1..]];
    }

    /** bus_connection_disconnected, without the names and match rules of c. */
    method Disconnected(c: Conn)
      requires Valid() && hooks == [] && c in staged
      modifies `connected, `staged, `listed, `pending, `timer, `dropped
      ensures Valid()
      ensures Wired() == W.ApplyRemove(old(Wired()), c)
      ensures Replies() == R.Apply(old(Replies()), R.Drop(c))
      ensures c !in staged && (forall t | t in listed :: c !in listed[t])
      ensures forall p | p in pending :: p.caller != c && p.replier != Some(c)
    {
      hide I.Inv;
      W.RemoveKeepsInv(Wired(), c);
      DropKnown(Replies(), staged.Keys, c);
      NobodyNames(Replies(), c);
      ForgetOnWire(c);
      DropReplies(c);
    }

    method ForgetOnWire(c: Conn)
      requires ValidWire() && c in staged
      modifies `connected, `staged, `listed
      ensures Wired() == W.ApplyRemove(old(Wired()), c)
    {
      forall m | m in staged[c] ensures m.txn in listed && NoDuplicates(listed[m.txn]) {
        W.ListingOf(Wired(), m.txn);
      }
      ForgetListings(c);
      staged := staged - {c};
      connected := connected - {c};
      assert staged == old(staged) - {c};
    }

    // ---- Errors that need no memory ----

    /** Once this returns, the daemon can report the lack of memory to c. */
    method PreallocateOomError(c: Conn)
      modifies `oomReady
      ensures oomReady == old(oomReady) + {c}
    {
      oomReady := oomReady + {c};
    }

    /** Goes straight to the connection; no transaction is involved. */
    method SendOomError(c: Conn, serial: nat)
      requires c in oomReady && c in staged && W.Inv(Wired())
      modifies `sent, `oomReady
      ensures W.Inv(Wired()) && oomReady == old(oomReady) - {c}
      ensures sent == Delivered(old(sent), connected, [Post(c, DriverError(NoMemory, serial))])
    {
      var m := DriverError(NoMemory, serial);
      W.DeliveredOne(sent, connected, c, m);
      W.SentKeepsInv(Wired(), Delivered(sent, connected, [Post(c, m)]));
      if c in connected {
        sent := sent[c := sent[c] + [m]];
      }
      oomReady := oomReady - {c};
    }

    // ---- Expiry ----

    /** Policy may silently eat a message of the daemon. */
    method SendFromDriver(t: TxnId, c: Conn, m: Message) returns (ok: bool)
      requires ValidWire() && t in listed && c in staged
      modifies `staged, `listed
      ensures ValidWire()
      ensures ok ==> Wired() == if driverMaySend(c, m) then W.ApplySend(old(Wired()), t, c, m) else old(Wired())
      ensures !ok ==> Wired() == old(Wired()) && !enough
      ensures listed.Keys == old(listed.Keys) && staged.Keys == old(staged.Keys)
    {
      var full := Exhausted(enough);
      if full {
        return false;
      }
      if !driverMaySend(c, m) {
        return true;
      }
      ok := Send(t, c, m);
    }

    /** One error reply, in a transaction of its own. */
    method TellNoReply(k: R.Key) returns (ok: bool)
      requires ValidWire() && k.caller in staged
      modifies `staged, `listed, `sent, `nextTxn
      ensures ValidWire() && staged == old(staged) && listed == old(listed)
      ensures ok ==> sent == Delivered(old(sent), connected, NoReplyTo(k, driverMaySend))
      ensures !ok ==> sent == old(sent) && !enough
    {
      assert k.caller in sent;
      hide W.Inv, W.ApplyCancel, W.ApplyExecute, NoDuplicates;
      ghost var w := Wired();
      var t := NewTransaction();
      if t.None? {
        return false;
      }
      var m := DriverError(NoReply, k.serial);
      ok := SendFromDriver(t.value, k.caller, m);
      ghost var log := if ok then NoReplyTo(k, driverMaySend) else [];
      assert Wired() == W.Posted(w, t.value, log) by { assert log != [] ==> log[..0] == []; }
      W.CancelPosted(w, t.value, log);
      W.ExecutePosted(w, t.value, log);
      W.ListingOf(Wired(), t.value);
      if !ok {
        CancelStaged(t.value);
        assert Wired() == w;
        return;
      }
      W.ExecuteKeepsInv(Wired(), t.value);
      ExecuteStaged(t.value);
    }

    /** bus_pending_reply_expired, for the expectation at position i. */
    method ExpireAt(i: nat) returns (ok: bool)
      requires ValidWire() && i < |pending| && pending[i].caller in staged
      modifies `staged, `listed, `sent, `nextTxn, `pending, `notices
      ensures ValidWire() && staged == old(staged) && listed == old(listed)
      ensures ok ==>
                && pending == old(pending)[..i] + old(pending)[i + 1..]
                && notices == old(notices) + [R.KeyOf(old(pending)[i])]
                && sent == Delivered(old(sent), connected, NoReplyTo(R.KeyOf(old(pending)[i]), driverMaySend))
      ensures !ok ==> pending == old(pending) && notices == old(notices) && sent == old(sent) && !enough
    {
      hide W.Inv;
      ok := TellNoReply(R.KeyOf(pending[i]));
      if ok {
        notices := notices + [R.KeyOf(pending[i])];
        pending := pending[..i] + pending[i + 1..];
      }
    }

    /** One expectation of the walk: expire it if it is due, or else remember how long it has to wait. */
    method Visit(i: nat, minWait: int) returns (r: Visited, wait: int)
      requires ValidWire() && i < |pending| && pending[i].caller in staged && pending[i].stamp <= clock
      modifies `staged, `listed, `sent, `nextTxn, `pending, `notices
      ensures ValidWire() && staged == old(staged) && listed == old(listed)
      ensures (r.Kept? <==> !R.Due(old(pending)[i], expireAfter, clock)) && (r.Failed? ==> !enough)
      ensures r.Expired? ==>
                && pending == old(pending)[..i] + old(pending)[i + 1..]
                && notices == old(notices) + [R.KeyOf(old(pending)[i])]
                && sent == Delivered(old(sent), connected, NoReplyTo(R.KeyOf(old(pending)[i]), driverMaySend))
      ensures !r.Expired? ==> pending == old(pending) && notices == old(notices) && sent == old(sent)
      ensures wait == if r.Kept? && expireAfter > 0 && R.WaitMs(old(pending)[i], expireAfter, clock) < minWait
                      then R.WaitMs(old(pending)[i], expireAfter, clock) else minWait
    {
      hide W.Inv;
      wait := minWait;
      var elapsed := clock - pending[i].stamp;
      if pending[i].stamp == 0 || (expireAfter > 0 && elapsed >= 1000 * expireAfter) {
        var ok := ExpireAt(i);
        r := if ok then Expired else Failed;
      } else {
        r := Kept;
        if expireAfter > 0 {
          var toWait := 1000 * expireAfter - elapsed;
          if 1000 * minWait > toWait {
            wait := toWait / 1000;
          }
        }
      }
    }

    /** One turn of the walk that began in w0, at its n-th expectation, which is at position i now. */
    method WalkOn(ghost w0: Pass, ghost n: nat, i: nat, minWait: int) returns (r: Visited, wait: int)
      requires ValidWire() && w0.pending != [] && n < |w0.pending| && PassDone(w0, n, Walk())
      requires i == PassKept(w0, n) && i < |pending| && minWait == PassWait(w0, n)
      requires w0.ea == expireAfter && w0.now == clock && w0.connected == connected && w0.may == driverMaySend
      requires w0.pending[n].caller in staged && w0.pending[n].stamp <= clock
      modifies `staged, `listed, `sent, `nextTxn, `pending, `notices
      ensures ValidWire() && staged == old(staged) && listed == old(listed)
      ensures r.Failed? ==> R.Due(w0.pending[n], expireAfter, clock) && PassDone(w0, n, Walk()) && !enough
      ensures !r.Failed? ==> PassDone(w0, n + 1, Walk()) && wait == PassWait(w0, n + 1)
      ensures r.Expired? ==> PassKept(w0, n + 1) == i
      ensures r.Kept? ==> PassKept(w0, n + 1) == i + 1
    {
      hide W.Inv, R.MinWait, R.Survivors, R.Due, PassDone, PassKept, PassWait, R.WaitMs, NoReplyTo, Delivered;
      ghost var w := Walk();
      PassPosition(w0, n, w);
      r, wait := Visit(i, minWait);
      if r.Expired? {
        PassExpires(w0, n, w, Walk());
      } else if r.Kept? {
        PassKeeps(w0, n, w);
      }
    }

    /**
     do_expiration_with_monotonic_time: walk the list once, then say in how many milliseconds
     to walk it again, or -1.  `fail` is the position whose callback failed.
     */
    method DoExpiration() returns (next: int, ghost fail: Option<nat>)
      requires ValidWire() && forall p | p in pending :: p.caller in staged && p.stamp <= clock
      modifies `staged, `listed, `sent, `nextTxn, `pending, `notices
      ensures ValidWire() && staged == old(staged) && listed == old(listed)
      ensures fail.Some? ==> fail.value < |old(pending)| && R.Due(old(pending)[fail.value], expireAfter, clock) && next == R.OOM_WAIT && !enough
      ensures PassDone(old(Walk()), if fail.Some? then fail.value else |old(pending)|, Walk())
      ensures fail.None? ==> next == if pending != [] && expireAfter > 0 then R.MinWait(pending, expireAfter, clock) else -1
    {
      hide W.Inv, R.MinWait, R.Survivors, R.Due, PassDone, PassKept, PassWait, NoDuplicates, W.ListedExactly;
      ghost var w0, n := Walk(), 0;
      PassStarts(w0);
      var minWait, itemsToExpire := R.ONE_HOUR, false;
      var i := 0;   // the position in the list of the n-th expectation of the walk
      next, fail := -1, None;
      while i < |pending|
        invariant ValidWire() && staged == old(staged) && listed == old(listed) && n <= |w0.pending|
        invariant PassDone(w0, n, Walk()) && i == PassKept(w0, n)
        invariant itemsToExpire <==> i > 0 && expireAfter > 0
        invariant minWait == PassWait(w0, n)
        decreases |w0.pending| - n
      {
        PassPosition(w0, n, Walk());
        var r: Visited;
        r, minWait := WalkOn(w0, n, i, minWait);
        if r.Failed? {
          next, fail := R.OOM_WAIT, Some(n);
          return;
        }
        if r.Kept? {
          itemsToExpire := expireAfter > 0;
          i := i + 1;
        }
        n := n + 1;
      }
      PassEnds(w0, n, Walk());
      if itemsToExpire {
        next := minWait;
      }
    }

    ghost function Walk(): Pass
      reads this
    {
      Pass(pending, notices, sent, connected, driverMaySend, expireAfter, clock)
    }

    /** The timeout handler. */
    method ExpirePendingReplies() returns (ghost fail: Option<nat>)
      requires Valid() && hooks == []
      modifies `staged, `listed, `sent, `nextTxn, `pending, `notices, `timer, `retryAt
      ensures Valid() && staged == old(staged) && listed == old(listed)
      ensures R.Enabled(old(Replies()), R.Expire(fail)) && (enough ==> fail.None?)
      ensures Replies() == R.ApplyExpire(old(Replies()), fail)
      ensures sent == Told(old(sent), connected, driverMaySend, notices[|old(notices)|..])
      ensures forall c | c in old(sent) ::
                c in sent && sent[c] == old(sent)[c] + if c in connected then NoReplyMessages(notices[|old(notices)|..], c, driverMaySend) else []
    {
      hide W.Inv, I.Inv, R.ApplyExpire, PassDone, R.MinWait, Told, NoReplyMessages;
      ghost var t, w0 := Replies(), Walk();
      StampsPast(t);
      var next: int;
      next, fail := DoExpiration();
      if next >= 0 {
        timer := R.At(clock + 1000 * next);
      } else {
        timer := R.Off;
      }
      if fail.Some? { retryAt := clock + 1000 * R.OOM_WAIT; }
      PassIsExpire(t, w0, fail, Walk(), Replies(), next, staged.Keys);
      I.ExpireKeepsInv(t, fail);
      ghost var ks := notices[|w0.notices|..];
      forall c | c in w0.sent
        ensures c in sent && sent[c] == w0.sent[c] + if c in connected then NoReplyMessages(ks, c, driverMaySend) else []
      {
        ToldIs(w0.sent, connected, driverMaySend, ks, c);
      }
    }
  }
}
