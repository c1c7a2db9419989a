/** The promises of the reply table, for every run. */
module ReplyTheorems {
  import opened BusTypes
  import opened ReplyTable
  import opened ReplyInvariants

  // ---- Cancelling a transaction ----

  predicate InTransaction(es: seq<Event>) {
    forall i :: 0 <= i < |es| ==> es[i].Record? || es[i].RecordFails? || es[i].Consume? || es[i].Tick?
  }

  lemma {:induction false} BodyKeepsOrigin(t: Table, es: seq<Event>)
    requires Inv(t) && Runnable(t, es) && InTransaction(es)
    ensures var t' := Run(t, es);
            && Inv(t')
            && UnwoundSet(t'.hooks, Items(t'.pending)) == UnwoundSet(t.hooks, Items(t.pending))
            && t'.recorded == t.recorded && t'.consumed == t.consumed && t'.dropped == t.dropped && t'.notices == t.notices
            && t'.limit == t.limit
    decreases |es|
  {
    if es != [] {
      StepKeepsInv(t, es[0]);
      match es[0] {
        case Record(c, r, n) => RecordUndoable(t, c, r, n);
        case Consume(c, r, n) => ConsumeUndoable(t, c, r, n);
        case _ =>
      }
      BodyKeepsOrigin(Apply(t, es[0]), es[1..]);
    }
  }

  /** The same expectations, and the same entries in the books. */
  predicate Restored(t: Table, t': Table) {
    && multiset(t'.pending) == multiset(t.pending) && t'.hooks == []
    && t'.recorded == t.recorded && t'.consumed == t.consumed && t'.dropped == t.dropped && t'.notices == t.notices
  }

  /**
   Whatever a transaction has recorded and consumed, in any order, cancelling it puts the
   table back as a multiset, and no entry of the books has moved.
   */
  lemma CancelRestores(t: Table, es: seq<Event>)
    requires Inv(t) && t.hooks == [] && Runnable(t, es) && InTransaction(es)
    ensures Restored(t, Apply(Run(t, es), Undo))
  {
    BodyKeepsOrigin(t, es);
    var t1 := Run(t, es);
    UndoHooksItems(t1.hooks, t1.pending, t1.limit);
    SameItemsPermute(Apply(t1, Undo).pending, t.pending);
  }

  // ---- The order of the list ----

  /** The items that are older than the identity n. */
  function Older(s: seq<PendingReply>, n: nat): seq<PendingReply> {
    if s == [] then [] else if s[0].id < n then [s[0]] + Older(s[1..], n) else Older(s[1..], n)
  }

  function OlderTaken(hooks: seq<Hook>, n: nat): seq<PendingReply> {
    if hooks == [] then []
    else if hooks[0].Taken? then OlderTaken(hooks[1..], n) + Older([hooks[0].item], n)
    else OlderTaken(hooks[1..], n)
  }

  function Except(s: seq<PendingReply>, gone: seq<PendingReply>): seq<PendingReply> {
    if s == [] then [] else if s[0] in gone then Except(s[1..], gone) else [s[0]] + Except(s[1..], gone)
  }

  function UsedBy(t: Table, e: Event, n: nat): seq<PendingReply>
    requires Enabled(t, e)
  {
    if e.Consume? then Older([t.pending[Find(t.pending, e.caller, e.replier, e.serial)]], n) else []
  }

  /** The items older than n that es consumes, in that order. */
  function Used(t: Table, es: seq<Event>, n: nat): seq<PendingReply>
    requires Runnable(t, es)
    decreases |es|
  {
    if es == [] then [] else UsedBy(t, es[0], n) + Used(Apply(t, es[0]), es[1..], n)
  }

  predicate AddsFrom(hooks: seq<Hook>, n: nat) { forall i :: 0 <= i < |hooks| && hooks[i].Added? ==> hooks[i].key.id >= n }

  lemma {:induction false} OlderAppend(a: seq<PendingReply>, b: seq<PendingReply>, n: nat)
    ensures Older(a + b, n) == Older(a, n) + Older(b, n)
  {
    if a == [] {
      assert a + b == b;
    } else {
      OlderAppend(a[1..], b, n);
      assert (a + b)[1..] == a[1..] + b && (a + b)[0] == a[0];
    }
  }

  lemma {:induction false} RemoveYounger(s: seq<PendingReply>, id: nat, n: nat)
    requires id >= n
    ensures Older(RemoveId(s, id), n) == Older(s, n)
  {
    if s != [] && s[0].id != id {
      RemoveYounger(s[1..], id, n);
      OlderAppend([s[0]], RemoveId(s[1..], id), n);
      OlderAppend([s[0]], s[1..], n);
      assert s == [s[0]] + s[1..];
    }
  }

  lemma {:induction false} AllOlder(s: seq<PendingReply>, n: nat)
    requires forall p | p in s :: p.id < n
    ensures Older(s, n) == s
  {
    if s != [] { AllOlder(s[1..], n); }
  }

  /** Undoing puts what was taken in front, the first taken foremost. */
  lemma {:induction false} UndoOrder(hooks: seq<Hook>, s: seq<PendingReply>, n: nat)
    requires AddsFrom(hooks, n)
    ensures Older(UndoHooks(hooks, s), n) == OlderTaken(hooks, n) + Older(s, n)
    decreases |hooks|
  {
    if hooks != [] {
      var h, rest := hooks[0], hooks[1..];
      assert forall i | 0 <= i < |rest| :: rest[i] == hooks[i + 1];
      UndoOrder(rest, UndoHook(h, s), n);
      hide Older;
      match h {
        case Added(k) => RemoveYounger(s, k.id, n);
        case Taken(p) =>
          OlderAppend([p], s, n);
          assert OlderTaken(rest, n) + (Older([p], n) + Older(s, n)) == (OlderTaken(rest, n) + Older([p], n)) + Older(s, n);
      }
    }
  }

  lemma {:induction false} ExceptMore(s: seq<PendingReply>, a: seq<PendingReply>, b: seq<PendingReply>)
    ensures Except(Except(s, a), b) == Except(s, a + b)
  {
    if s != [] {
      ExceptMore(s[1..], a, b);
      if s[0] !in a {
        var rest := Except(s[1..], a);
        assert Except(s, a) == [s[0]] + rest && ([s[0]] + rest)[1..] == rest && ([s[0]] + rest)[0] == s[0];
      }
    }
  }

  lemma {:induction false} ExceptNone(s: seq<PendingReply>, gone: seq<PendingReply>)
    requires forall p | p in s :: p !in gone
    ensures Except(s, gone) == s
  {
    if s != [] { ExceptNone(s[1..], gone); }
  }

  lemma {:induction false} ExceptAppend(a: seq<PendingReply>, b: seq<PendingReply>, gone: seq<PendingReply>)
    ensures Except(a + b, gone) == Except(a, gone) + Except(b, gone)
  {
    if a == [] {
      assert a + b == b;
    } else {
      ExceptAppend(a[1..], b, gone);
      assert (a + b)[1..] == a[1..] + b && (a + b)[0] == a[0];
    }
  }

  lemma {:induction false} OlderIsPart(s: seq<PendingReply>, n: nat)
    ensures forall p | p in Older(s, n) :: p in s && p.id < n
  {
    if s != [] { OlderIsPart(s[1..], n); }
  }

  /** Cutting one item out. */
  lemma CutOlder(s: seq<PendingReply>, i: nat, n: nat)
    requires DistinctIds(s) && i < |s|
    ensures Older(s[..i] + s[i + 1..], n) == Except(Older(s, n), Older([s[i]], n))
  {
    hide Older, Except, DistinctIds;
    SplitAt(s, i);
    CutBetween(s[..i], s[i], s[i + 1..], n);
  }

  lemma SplitAt(s: seq<PendingReply>, i: nat)
    requires DistinctIds(s) && i < |s|
    ensures s == s[..i] + ([s[i]] + s[i + 1..]) && s[i] !in s[..i] && s[i] !in s[i + 1..]
  {
    var a, b := s[..i], s[i + 1..];
    forall k | 0 <= k < |a| ensures a[k] != s[i] { assert s[k].id != s[i].id; }
    forall k | 0 <= k < |b| ensures b[k] != s[i] { assert s[i].id != s[i + 1 + k].id; }
  }

  lemma CutBetween(a: seq<PendingReply>, x: PendingReply, b: seq<PendingReply>, n: nat)
    requires x !in a && x !in b
    ensures Older(a + b, n) == Except(Older(a + ([x] + b), n), Older([x], n))
  {
    hide Older, Except;
    var A, X, B := Older(a, n), Older([x], n), Older(b, n);
    OlderAppend(a, [x] + b, n);
    OlderAppend([x], b, n);
    OlderAppend(a, b, n);
    OlderIsPart(a, n);
    OlderIsPart(b, n);
    OlderIsPart([x], n);
    ExceptAppend(A, X + B, X);
    ExceptAppend(X, B, X);
    ExceptNone(A, X);
    ExceptNone(B, X);
    AllGone(X, X);
  }

  /** What a transaction leaves of the items that were there before it. */
  lemma {:induction false} BodyOrder(t: Table, es: seq<Event>, n: nat)
    requires Inv(t) && Runnable(t, es) && InTransaction(es) && AddsFrom(t.hooks, n) && n <= t.nextId
    ensures var u := Run(t, es);
            && AddsFrom(u.hooks, n)
            && OlderTaken(u.hooks, n) == OlderTaken(t.hooks, n) + Used(t, es, n)
            && Older(u.pending, n) == Except(Older(t.pending, n), Used(t, es, n))
    decreases |es|
  {
    hide Inv, Apply, Enabled, Older, OlderTaken, Except, UsedBy;
    if es == [] {
      ExceptNone(Older(t.pending, n), []);
    } else {
      OldOnes(t);
      assert InTransaction([es[0]]) && InTransaction(es[1..]);
      var t1 := Apply(t, es[0]);
      StepKeepsInv(t, es[0]);
      StepOrder(t, es[0], n);
      BodyOrder(t1, es[1..], n);
      ExceptMore(Older(t.pending, n), UsedBy(t, es[0], n), Used(t1, es[1..], n));
      assert OlderTaken(t.hooks, n) + (UsedBy(t, es[0], n) + Used(t1, es[1..], n)) == OlderTaken(t.hooks, n) + UsedBy(t, es[0], n) + Used(t1, es[1..], n);
    }
  }

  lemma StepOrder(t: Table, e: Event, n: nat)
    requires DistinctIds(t.pending) && Enabled(t, e) && InTransaction([e]) && AddsFrom(t.hooks, n) && n <= t.nextId
    ensures var u := Apply(t, e);
            && AddsFrom(u.hooks, n) && n <= u.nextId
            && OlderTaken(u.hooks, n) == OlderTaken(t.hooks, n) + UsedBy(t, e, n)
            && Older(u.pending, n) == Except(Older(t.pending, n), UsedBy(t, e, n))
  {
    assert [e][0] == e;
    ExceptNone(Older(t.pending, n), []);
    var u := Apply(t, e);
    match e {
      case Record(_, _, _) =>
        assert u.pending[1..] == t.pending && u.hooks[1..] == t.hooks;
      case Consume(c, r, k) =>
        assert u.hooks[1..] == t.hooks;
        CutOlder(t.pending, Find(t.pending, c, r, k), n);
      case _ =>
    }
  }

  /**
   The order after cancelling any transaction: what it had consumed comes back in front, in the
   order in which it was consumed, and the rest follows as it was.
   */
  lemma CancelOrder(t: Table, es: seq<Event>)
    requires Inv(t) && t.hooks == [] && Runnable(t, es) && InTransaction(es)
    ensures Apply(Run(t, es), Undo).pending == Used(t, es, t.nextId) + Except(t.pending, Used(t, es, t.nextId))
  {
    hide Inv, Runnable, Run, Used, Older, Except, UndoHooks;
    var u, n := Run(t, es), t.nextId;
    var r := Apply(u, Undo).pending;
    BodyOrder(t, es, n);
    UndoOrder(u.hooks, u.pending, n);
    CancelRestores(t, es);
    OldOnes(t);
    AllOlder(t.pending, n);
    forall p | p in r ensures p.id < n { assert p in multiset(r) && p in multiset(t.pending); }
    AllOlder(r, n);
    assert [] + Used(t, es, n) == Used(t, es, n);
  }

  /** So the order is restored exactly if the transaction consumed from the front of the list, in the order of the list. */
  lemma CancelReordersIff(t: Table, es: seq<Event>)
    requires Inv(t) && t.hooks == [] && Runnable(t, es) && InTransaction(es)
    ensures Apply(Run(t, es), Undo).pending == t.pending <==> Used(t, es, t.nextId) <= t.pending
  {
    hide Inv, Runnable, Run, Used, Except, Apply;
    CancelOrder(t, es);
    OldOnes(t);
    if Used(t, es, t.nextId) <= t.pending { PrefixFirst(t.pending, Used(t, es, t.nextId)); }
  }

  lemma OldOnes(t: Table)
    requires Inv(t)
    ensures DistinctIds(t.pending) && forall p | p in t.pending :: p.id < t.nextId
  {
    FreshId(t);
  }

  lemma PrefixFirst(s: seq<PendingReply>, used: seq<PendingReply>)
    requires DistinctIds(s) && used <= s
    ensures used + Except(s, used) == s
  {
    hide Except;
    var k := |used|;
    var a, b := s[..k], s[k..];
    assert s == a + b && a == used;
    ExceptAppend(a, b, used);
    AllGone(a, used);
    forall i, j | 0 <= i < k && 0 <= j < |b| ensures used[i] != b[j] { assert s[i].id != s[k + j].id; }
    ExceptNone(b, used);
  }

  lemma {:induction false} AllGone(s: seq<PendingReply>, gone: seq<PendingReply>)
    requires forall p | p in s :: p in gone
    ensures Except(s, gone) == []
  {
    if s != [] { AllGone(s[1..], gone); }
  }

  // ---- Cancelling finds what it cancels ----

  /** cancel_pending_reply always finds the expectation it has to remove. */
  predicate CancelSafe(hooks: seq<Hook>, s: seq<PendingReply>) {
    hooks == [] ||
    ((hooks[0].Added? ==> HasId(s, hooks[0].key.id)) && CancelSafe(hooks[1..], UndoHook(hooks[0], s)))
  }

  predicate HasId(s: seq<PendingReply>, id: nat) { exists i :: 0 <= i < |s| && s[i].id == id }

  lemma {:induction false} UndoableIsSafe(hooks: seq<Hook>, s: seq<PendingReply>, limit: nat)
    requires DistinctIds(s) && Undoable(hooks, Items(s), limit)
    ensures CancelSafe(hooks, s)
    decreases |hooks|
  {
    if hooks != [] {
      UndoHookItems(hooks[0], s);
      if hooks[0].Added? {
        var p :| p in Items(s) && KeyOf(p) == hooks[0].key;
        var i :| 0 <= i < |s| && s[i] == p;
      }
      UndoableIsSafe(hooks[1..], UndoHook(hooks[0], s), limit);
    }
  }

  /** "pending reply did not exist to be cancelled" is unreachable in every run. */
  lemma CancelNeverAsserts(t: Table, es: seq<Event>)
    requires Inv(t) && Runnable(t, es)
    ensures CancelSafe(Run(t, es).hooks, Run(t, es).pending)
  {
    EveryRunKeepsInv(t, es);
    UndoableIsSafe(Run(t, es).hooks, Run(t, es).pending, Run(t, es).limit);
  }

  predicate TakenBefore(hooks: seq<Hook>, i: nat, id: nat)
    requires i <= |hooks|
  {
    exists j :: 0 <= j < i && hooks[j].Taken? && hooks[j].item.id == id
  }

  /** The hooks of one transaction, whatever else has happened to the table since. */
  predicate PlausibleHooks(hooks: seq<Hook>, s: seq<PendingReply>) {
    && DistinctIds(s)
    && (forall i, j :: 0 <= i < j < |hooks| && hooks[i].Added? && hooks[j].Added? ==> hooks[i].key.id != hooks[j].key.id)
    && (forall i, j :: 0 <= i < j < |hooks| && hooks[i].Taken? && hooks[j].Taken? ==> hooks[i].item.id != hooks[j].item.id)
    && (forall i :: 0 <= i < |hooks| && hooks[i].Taken? ==> !HasId(s, hooks[i].item.id))
    && (forall i, j :: 0 <= i < j < |hooks| && hooks[i].Added? && hooks[j].Taken? ==> hooks[i].key.id != hooks[j].item.id)
  }

  ghost predicate AllAddedPresent(hooks: seq<Hook>, s: seq<PendingReply>) {
    forall i :: 0 <= i < |hooks| && hooks[i].Added? ==> HasId(s, hooks[i].key.id) || TakenBefore(hooks, i, hooks[i].key.id)
  }

  /**
   When the table may have been edited by somebody else since the transaction began, the
   assertion stays unreached exactly if everything the transaction recorded is still in the
   table, or was consumed by the same transaction.
   */
  lemma {:induction false} CancelSafeIff(hooks: seq<Hook>, s: seq<PendingReply>)
    requires PlausibleHooks(hooks, s)
    ensures CancelSafe(hooks, s) <==> AllAddedPresent(hooks, s)
    decreases |hooks|
  {
    if hooks != [] {
      var s', hs := UndoHook(hooks[0], s), hooks[1..];
      assert forall i :: 0 <= i < |hs| ==> hs[i] == hooks[i + 1];
      if hooks[0].Added? && !HasId(s, hooks[0].key.id) {
        assert !TakenBefore(hooks, 0, hooks[0].key.id);
      } else {
        UndoHookIds(hooks[0], s, 0);
        forall i | 0 <= i < |hs| && hs[i].Taken? ensures !HasId(s', hs[i].item.id) {
          UndoHookIds(hooks[0], s, hs[i].item.id);
        }
        CancelSafeIff(hs, s');
        assert AllAddedPresent(hooks, s) <==> AllAddedPresent(hs, s') by { PresenceSteps(hooks, s); }
      }
    }
  }

  lemma RemoveIdIds(s: seq<PendingReply>, id: nat, other: nat)
    requires DistinctIds(s) && HasId(s, id)
    ensures DistinctIds(RemoveId(s, id))
    ensures HasId(RemoveId(s, id), other) <==> HasId(s, other) && other != id
  {
    var i :| 0 <= i < |s| && s[i].id == id;
    var r := RemoveId(s, id);
    RemoveIdItems(s, id, s[i]);
    if j :| 0 <= j < |r| && r[j].id == other {
      assert r[j] in Items(s) - {s[i]};
    }
    if j :| 0 <= j < |s| && s[j].id == other && other != id {
      assert s[j] in Items(r);
    }
  }

  lemma UndoHookIds(h: Hook, s: seq<PendingReply>, other: nat)
    requires DistinctIds(s)
    requires h.Added? ==> HasId(s, h.key.id)
    requires h.Taken? ==> !HasId(s, h.item.id)
    ensures DistinctIds(UndoHook(h, s))
    ensures HasId(UndoHook(h, s), other) <==> (if h.Added? then HasId(s, other) && other != h.key.id else HasId(s, other) || other == h.item.id)
  {
    hide HasId, DistinctIds;
    if h.Added? { RemoveIdIds(s, h.key.id, other); } else { PutInFront(h.item, s, other); }
  }

  lemma PutInFront(p: PendingReply, s: seq<PendingReply>, other: nat)
    requires DistinctIds(s) && !HasId(s, p.id)
    ensures DistinctIds([p] + s) && (HasId([p] + s, other) <==> HasId(s, other) || other == p.id)
  {
    var r := [p] + s;
    assert forall j | 1 <= j < |r| :: r[j] == s[j - 1] && r[j].id != p.id;
    if HasId(s, other) {
      var j :| 0 <= j < |s| && s[j].id == other;
      assert r[j + 1].id == other;
    }
    if other == p.id { assert r[0].id == other; }
    if HasId(r, other) && other != p.id {
      var j :| 0 <= j < |r| && r[j].id == other;
      assert s[j - 1].id == other;
    }
  }

  lemma PresenceSteps(hooks: seq<Hook>, s: seq<PendingReply>)
    requires hooks != [] && PlausibleHooks(hooks, s)
    requires hooks[0].Added? ==> HasId(s, hooks[0].key.id)
    ensures AllAddedPresent(hooks, s) <==> AllAddedPresent(hooks[1..], UndoHook(hooks[0], s))
  {
    var s', hs := UndoHook(hooks[0], s), hooks[1..];
    forall i | 0 <= i < |hs| && hs[i].Added?
      ensures (HasId(s', hs[i].key.id) || TakenBefore(hs, i, hs[i].key.id))
         <==> (HasId(s, hooks[i + 1].key.id) || TakenBefore(hooks, i + 1, hooks[i + 1].key.id))
    {
      var id := hs[i].key.id;
      UndoHookIds(hooks[0], s, id);
      assert hooks[i + 1] == hs[i];
      if j :| 0 <= j < i && hs[j].Taken? && hs[j].item.id == id { assert hooks[j + 1] == hs[j]; }
      if j :| 0 <= j < i + 1 && hooks[j].Taken? && hooks[j].item.id == id {
        if j > 0 { assert hs[j - 1] == hooks[j]; }
      }
    }
    forall i | 0 < i < |hooks| ensures hooks[i] == hs[i - 1] {}
  }

  /** Two transactions at once: the first records, the second consumes, the first is cancelled. */
  lemma InterleavedCancelAsserts()
    ensures exists t: Table :: Inv(t) && Enabled(t, Consume(1, 2, 7)) && t.hooks != []
                               && !CancelSafe(t.hooks, ApplyConsume(t, 1, 2, 7).pending)
  {
    var t0 := Initial(2, 1000, 1);
    StartsWell(2, 1000, 1);
    StepKeepsInv(t0, Record(1, 2, 7));
    var t := Apply(t0, Record(1, 2, 7));
    assert Find(t.pending, 1, 2, 7) == 0;
    assert ApplyConsume(t, 1, 2, 7).pending == [];
  }

  lemma StartsWell(limit: nat, expireAfter: int, now: nat)
    requires now > 0
    ensures Inv(Initial(limit, expireAfter, now))
  {
    assert forall c :: OfCaller({}, c) == {};
  }

  // ---- At most one expectation per live call, within the limit ----

  /** In every state of every run, and after any number of hooks of a cancel in progress. */
  lemma {:induction false} LegalMidCancel(t: Table, es: seq<Event>, n: nat)
    requires Inv(t) && Runnable(t, es) && n <= |Run(t, es).hooks|
    ensures Legal(Items(UndoHooks(Run(t, es).hooks[..n], Run(t, es).pending)), Run(t, es).limit)
  {
    EveryRunKeepsInv(t, es);
    var t' := Run(t, es);
    PrefixUndoable(t'.hooks, Items(t'.pending), t'.limit, n);
    UndoHooksItems(t'.hooks[..n], t'.pending, t'.limit);
  }

  lemma {:induction false} PrefixUndoable(hooks: seq<Hook>, S: set<PendingReply>, limit: nat, n: nat)
    requires Undoable(hooks, S, limit) && n <= |hooks|
    ensures Undoable(hooks[..n], S, limit)
    decreases n
  {
    if n > 0 {
      assert hooks[..n][0] == hooks[0] && hooks[..n][1..] == hooks[1..][..n - 1];
      PrefixUndoable(hooks[1..], UndoSet(hooks[0], S), limit, n - 1);
    }
  }

  // ---- Conservation ----

  function CountOf(S: set<Key>, caller: Conn, serial: nat): nat {
    |set k | k in S && k.caller == caller && k.serial == serial|
  }

  lemma CountOfDisjoint(A: set<Key>, B: set<Key>, caller: Conn, serial: nat)
    requires A !! B
    ensures CountOf(A + B, caller, serial) == CountOf(A, caller, serial) + CountOf(B, caller, serial)
  {
    var a := set k | k in A && k.caller == caller && k.serial == serial;
    var b := set k | k in B && k.caller == caller && k.serial == serial;
    assert (set k | k in A + B && k.caller == caller && k.serial == serial) == a + b;
  }

  /**
   Between transactions, the expectations ever committed for one caller and serial are those
   still pending plus those answered, expired and dropped; so no more replies are let through
   than calls were recorded.
   */
  lemma Conservation(t: Table, es: seq<Event>, caller: Conn, serial: nat)
    requires Inv(t) && Runnable(t, es) && Run(t, es).hooks == []
    ensures var u := Run(t, es);
            && CountOf(u.recorded, caller, serial)
               == CountOf(Keys(u.pending), caller, serial) + CountOf(u.consumed, caller, serial)
                  + CountOf(u.dropped, caller, serial) + CountOf((set k | k in u.notices), caller, serial)
            && CountOf(u.consumed, caller, serial) <= CountOf(u.recorded, caller, serial)
  {
    EveryRunKeepsInv(t, es);
    var u := Run(t, es);
    var expired := set k | k in u.notices;
    KeysAreKeySet(u.pending);
    var P := Keys(u.pending);
    assert u.recorded == P + u.consumed + u.dropped + expired;
    CountOfDisjoint(P, u.consumed, caller, serial);
    CountOfDisjoint(P + u.consumed, u.dropped, caller, serial);
    CountOfDisjoint(P + u.consumed + u.dropped, expired, caller, serial);
  }

  // ---- The timer ----

  predicate NoFailedPass(es: seq<Event>) { forall i :: 0 <= i < |es| ==> !(es[i].Expire? && es[i].fail.Some?) }

  lemma {:induction false} NoFailedPassNoRetry(t: Table, es: seq<Event>)
    requires Runnable(t, es) && NoFailedPass(es)
    ensures Run(t, es).retryAt == t.retryAt && Run(t, es).clock >= t.clock && Run(t, es).expireAfter == t.expireAfter
    decreases |es|
  {
    if es != [] {
      assert !(es[0].Expire? && es[0].fail.Some?);
      NoFailedPassNoRetry(Apply(t, es[0]), es[1..]);
    }
  }

  /**
   If no expiry pass has failed, then in every state the timer is armed no later than the
   earliest deadline, or has already come due; an orphaned expectation always has it due.
   */
  lemma TimerInTime(limit: nat, expireAfter: int, now: nat, es: seq<Event>, p: PendingReply)
    requires now > 0 && Runnable(Initial(limit, expireAfter, now), es) && NoFailedPass(es)
    requires p in Run(Initial(limit, expireAfter, now), es).pending
    ensures var t := Run(Initial(limit, expireAfter, now), es);
            && (p.stamp == 0 ==> t.timer.At? && t.timer.when <= t.clock)
            && (p.stamp > 0 && expireAfter > 0 ==> t.timer.At? && (t.timer.when <= p.stamp + 1000 * expireAfter || t.timer.when <= t.clock))
  {
    StartsWell(limit, expireAfter, now);
    EveryRunKeepsInv(Initial(limit, expireAfter, now), es);
    NoFailedPassNoRetry(Initial(limit, expireAfter, now), es);
    assert Covered(Run(Initial(limit, expireAfter, now), es), p);
  }

  /** Failed passes included, an expectation that can expire never waits on a disabled timer,
      and a failed pass delays it by at most the out-of-memory wait. */
  lemma TimerAlwaysArmed(t: Table, es: seq<Event>, p: PendingReply)
    requires Inv(t) && Runnable(t, es) && p in Run(t, es).pending
    requires p.stamp == 0 || Run(t, es).expireAfter > 0
    ensures var u := Run(t, es);
            var deadline := if p.stamp == 0 then 0 else p.stamp + 1000 * u.expireAfter;
            u.timer.At? && u.timer.when <= Max(deadline, u.clock + 1000 * OOM_WAIT)
  {
    EveryRunKeepsInv(t, es);
    assert Covered(Run(t, es), p);
  }

  // ---- A replier that disconnects ----

  /** Nobody in the table waits for c, or is waited for by c. */
  lemma NobodyNames(t: Table, c: Conn)
    requires Inv(t) && t.hooks == []
    ensures forall p | p in Apply(t, Drop(c)).pending :: p.caller != c && p.replier != Some(c)
  {
    DropAllItems(t.pending, c);
    forall p | p in Apply(t, Drop(c)).pending ensures p.caller != c && p.replier != Some(c) {
      assert p in Items(DropAll(t.pending, c));
    }
  }

  predicate NoDropOf(es: seq<Event>, c: Conn) { forall i :: 0 <= i < |es| ==> es[i] != Drop(c) }

  /** o waits for an expiry pass, or has had its notice. */
  ghost predicate Waiting(t: Table, o: PendingReply) {
    KeyOf(o) in t.recorded && (o in t.pending || KeyOf(o) in t.notices)
  }

  lemma {:induction false} UnwindKeeps(hooks: seq<Hook>, S: set<PendingReply>, limit: nat, o: PendingReply)
    requires Undoable(hooks, S, limit) && o in S && KeyOf(o) !in AddedKeys(hooks)
    ensures o in UnwoundSet(hooks, S)
    decreases |hooks|
  {
    if hooks != [] {
      if hooks[0].Added? {
        var p :| p in S && KeyOf(p) == hooks[0].key;
        assert o.id != hooks[0].key.id;
      }
      UnwindKeeps(hooks[1..], UndoSet(hooks[0], S), limit, o);
    }
  }

  lemma OrphanStep(t: Table, e: Event, o: PendingReply)
    requires Inv(t) && Enabled(t, e) && o.replier == None && o.stamp == 0 && e != Drop(o.caller) && Waiting(t, o)
    ensures Waiting(Apply(t, e), o)
  {
    var t' := Apply(t, e);
    if o in t.pending {
      match e
      case Consume(c, r, n) =>
        var i := Find(t.pending, c, r, n);
        CutItems(t.pending, i);
        assert o in Items(t.pending) - {t.pending[i]};
        assert o in Items(t'.pending);
      case Undo =>
        UndoHooksItems(t.hooks, t.pending, t.limit);
        UnwindKeeps(t.hooks, Items(t.pending), t.limit, o);
        assert o in Items(t'.pending);
      case Drop(d) =>
        DropAllItems(t.pending, d);
        assert Orphan(o, d) == o;
        assert o in Items(t'.pending);
      case Expire(fail) =>
        assert Due(o, t.expireAfter, t.clock);
        if fail.Some? {
          assert t.pending == t.pending[..fail.value] + t.pending[fail.value..];
        }
      case _ =>
    }
  }

  lemma {:induction false} OrphanRun(t: Table, es: seq<Event>, o: PendingReply)
    requires Inv(t) && Runnable(t, es) && o.replier == None && o.stamp == 0 && NoDropOf(es, o.caller) && Waiting(t, o)
    ensures Inv(Run(t, es)) && Waiting(Run(t, es), o)
    decreases |es|
  {
    if es != [] {
      assert es[0] != Drop(o.caller);
      OrphanStep(t, es[0], o);
      StepKeepsInv(t, es[0]);
      assert NoDropOf(es[1..], o.caller) by {
        forall i | 0 <= i < |es[1..]| ensures es[1..][i] != Drop(o.caller) { assert es[1..][i] == es[i + 1]; }
      }
      OrphanRun(Apply(t, es[0]), es[1..], o);
    }
  }

  /**
   A caller waiting on c when c disconnects gets exactly one NoReply for its serial by the
   next pass that succeeds, unless the caller itself is dropped first; until then no reply
   can use the expectation up.
   */
  lemma OrphanGetsOneNotice(t: Table, c: Conn, p: PendingReply, es: seq<Event>)
    requires Inv(t) && t.hooks == [] && p in t.pending && p.replier == Some(c) && p.caller != c
    requires Runnable(Apply(t, Drop(c)), es) && NoDropOf(es, p.caller)
    requires Run(Apply(t, Drop(c)), es).hooks == []
    ensures var u := Run(Apply(t, Drop(c)), es);
            var v := ApplyExpire(u, None);
            && KeyOf(p) !in u.consumed && KeyOf(p) !in v.consumed
            && multiset(v.notices)[KeyOf(p)] == 1
            && KeyOf(p) !in Keys(v.pending)
  {
    var t1 := Apply(t, Drop(c));
    DropKeepsInv(t, c);
    DropAllItems(t.pending, c);
    var o := Orphan(p, c);
    assert o in Items(t1.pending);
    assert KeyOf(p) in KeySet(Items(t.pending));
    assert KeyOf(o) == KeyOf(p);
    OrphanRun(t1, es, o);
    var u := Run(t1, es);
    var v := ApplyExpire(u, None);
    ExpireKeepsInv(u, None);
    OrphanStep(u, Expire(None), o);
    KeysAreKeySet(v.pending);
    KeysAreKeySet(u.pending);
    if o in u.pending {
      assert Due(o, u.expireAfter, u.clock);
      assert KeyOf(o) in Keys(u.pending);
    }
    assert KeyOf(o) in v.notices;
    OnceIfDistinct(v.notices, KeyOf(p));
    assert KeyOf(p) in (set k | k in v.notices);
    if KeyOf(o) in u.notices { assert KeyOf(o) in (set k | k in u.notices); }
  }
}
