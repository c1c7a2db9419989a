/**
 What holds of the reply table in every run: the hooks of the transaction in progress
 can always be undone, every expectation has exactly one fate, and the expiry timer is
 armed in time.
*/
module ReplyInvariants {
  import opened BusTypes
  import opened ReplyTable

  // ---- The list as a set ----

  function Items(s: seq<PendingReply>): set<PendingReply> { set p | p in s }

  predicate DistinctIds(s: seq<PendingReply>) {
    forall i, j :: 0 <= i < j < |s| ==> s[i].id != s[j].id
  }

  function OfCaller(S: set<PendingReply>, c: Conn): set<PendingReply> { set p | p in S && p.caller == c }

  predicate SameCall(p: PendingReply, q: PendingReply) {
    p.replier == q.replier && p.caller == q.caller && p.serial == q.serial
  }

  ghost predicate UniqueIds(S: set<PendingReply>) {
    forall p, q | p in S && q in S :: p.id == q.id ==> p == q
  }

  ghost predicate UniqueCalls(S: set<PendingReply>) {
    forall p, q | p in S && q in S :: p.replier.Some? && SameCall(p, q) ==> p == q
  }

  ghost predicate Within(S: set<PendingReply>, limit: nat) {
    forall c :: |OfCaller(S, c)| <= limit
  }

  /** No two expectations for one live call, and no caller above the limit. */
  ghost predicate Legal(S: set<PendingReply>, limit: nat) {
    UniqueIds(S) && UniqueCalls(S) && Within(S, limit)
  }

  ghost predicate CanUndo(h: Hook, S: set<PendingReply>) {
    match h
    case Added(k) => exists p :: p in S && KeyOf(p) == k
    case Taken(p) => forall q :: q in S ==> q.id != p.id
  }

  function UndoSet(h: Hook, S: set<PendingReply>): set<PendingReply> {
    match h
    case Added(k) => set p | p in S && p.id != k.id
    case Taken(p) => S + {p}
  }

  function UnwoundSet(hooks: seq<Hook>, S: set<PendingReply>): set<PendingReply> {
    if hooks == [] then S else UnwoundSet(hooks[1..], UndoSet(hooks[0], S))
  }

  /** Every state that cancelling passes through is legal, and every hook finds what it undoes. */
  ghost predicate Undoable(hooks: seq<Hook>, S: set<PendingReply>, limit: nat)
    decreases |hooks|
  {
    && Legal(S, limit)
    && (hooks == [] || (CanUndo(hooks[0], S) && Undoable(hooks[1..], UndoSet(hooks[0], S), limit)))
  }

  // ---- The books ----

  function KeySet(S: set<PendingReply>): set<Key> { set p | p in S :: KeyOf(p) }

  predicate HooksDistinct(hooks: seq<Hook>) {
    hooks == [] ||
    (HooksDistinct(hooks[1..]) &&
     match hooks[0]
     case Added(k) => k !in AddedKeys(hooks[1..])
     case Taken(p) => KeyOf(p) !in TakenKeys(hooks[1..]))
  }

  /**
   Every expectation ever recorded, including those of the transaction in progress, is
   in exactly one place: the table, a Taken hook, or one of the three final accounts.
   */
  ghost predicate Balanced(t: Table, S: set<PendingReply>, hooks: seq<Hook>) {
    var expired := set k | k in t.notices;
    && HooksDistinct(hooks)
    && t.recorded !! AddedKeys(hooks)
    && t.recorded + AddedKeys(hooks) == KeySet(S) + TakenKeys(hooks) + t.consumed + t.dropped + expired
    && KeySet(S) !! TakenKeys(hooks) !! t.consumed !! t.dropped !! expired
    && NoDuplicates(t.notices)
    && (forall k | k in t.recorded + AddedKeys(hooks) :: k.id < t.nextId)
  }

  // ---- The timer ----

  function Max(a: int, b: int): int { if a < b then b else a }

  /** If p will ever be due by itself, the timer fires no later than that (at once, if that
      has passed), or than the pending retry of a failed pass. */
  ghost predicate Covered(t: Table, p: PendingReply) {
    && p.stamp <= t.clock
    && (p.stamp == 0 ==> t.timer.At? && t.timer.when <= Max(t.clock, t.retryAt))
    && (p.stamp > 0 && t.expireAfter > 0 ==> t.timer.At? && t.timer.when <= Max(Max(p.stamp + 1000 * t.expireAfter, t.clock), t.retryAt))
  }

  ghost predicate TimerReady(t: Table) {
    && t.clock > 0
    && t.retryAt <= t.clock + 1000 * OOM_WAIT
    && (t.timer.At? && t.expireAfter > 0 ==> t.timer.when <= Max(t.clock + 1000 * t.expireAfter, t.retryAt))
    && (forall p | p in t.pending :: Covered(t, p))
    && (forall i | 0 <= i < |t.hooks| && t.hooks[i].Taken? :: Covered(t, t.hooks[i].item))
  }

  ghost predicate Inv(t: Table) {
    && DistinctIds(t.pending)
    && Undoable(t.hooks, Items(t.pending), t.limit)
    && Balanced(t, Items(t.pending), t.hooks)
    && TimerReady(t)
  }

  // ---- Lists and sets agree ----

  lemma {:induction false} CountIsCardinality(s: seq<PendingReply>, c: Conn)
    requires DistinctIds(s)
    ensures CountFor(s, c) == |OfCaller(Items(s), c)|
  {
    if s == [] {
      assert OfCaller(Items(s), c) == {};
    } else {
      CountIsCardinality(s[1..], c);
      var rest := OfCaller(Items(s[1..]), c);
      assert s[0] !in s[1..];
      if s[0].caller == c {
        assert OfCaller(Items(s), c) == rest + {s[0]};
      } else {
        assert OfCaller(Items(s), c) == rest;
      }
    }
  }

  lemma {:induction false} RemoveIdAt(s: seq<PendingReply>, id: nat, i: nat)
    requires i < |s| && s[i].id == id && forall j :: 0 <= j < i ==> s[j].id != id
    ensures RemoveId(s, id) == s[..i] + s[i + 1..]
  {
    if i > 0 {
      assert s[0].id != id;
      RemoveIdAt(s[1..], id, i - 1);
      assert s[..i] + s[i + 1..] == [s[0]] + (s[1..][..i - 1] + s[1..][i..]);
    }
  }

  lemma RemoveIdItems(s: seq<PendingReply>, id: nat, p: PendingReply)
    requires DistinctIds(s) && p in s && p.id == id
    ensures DistinctIds(RemoveId(s, id))
    ensures Items(RemoveId(s, id)) == Items(s) - {p}
  {
    var i :| 0 <= i < |s| && s[i] == p;
    RemoveIdAt(s, id, i);
    CutItems(s, i);
  }

  /** Cutting out one element of a list without repeated identities. */
  lemma CutItems(s: seq<PendingReply>, i: nat)
    requires DistinctIds(s) && i < |s|
    ensures DistinctIds(s[..i] + s[i + 1..])
    ensures Items(s[..i] + s[i + 1..]) == Items(s) - {s[i]}
  {
    var r := s[..i] + s[i + 1..];
    assert forall j :: 0 <= j < |r| ==> r[j] == s[if j < i then j else j + 1];
    forall j | 0 <= j < |s| && j != i ensures s[j] in r {
      assert s[j] == r[if j < i then j else j - 1];
    }
  }

  lemma {:induction false} DistinctIsMultiset(s: seq<PendingReply>, p: PendingReply)
    requires DistinctIds(s)
    ensures multiset(s)[p] == if p in s then 1 else 0
  {
    if s != [] {
      DistinctIsMultiset(s[1..], p);
      assert s == [s[0]] + s[1..];
      assert s[0] !in s[1..];
    }
  }

  /** Two lists with the same elements and no repeated identity are permutations of each other. */
  lemma SameItemsPermute(s: seq<PendingReply>, r: seq<PendingReply>)
    requires DistinctIds(s) && DistinctIds(r) && Items(s) == Items(r)
    ensures multiset(s) == multiset(r)
  {
    forall p ensures multiset(s)[p] == multiset(r)[p] {
      DistinctIsMultiset(s, p);
      DistinctIsMultiset(r, p);
      assert p in s <==> p in Items(s);
      assert p in r <==> p in Items(r);
    }
  }

  lemma UndoHookItems(h: Hook, s: seq<PendingReply>)
    requires DistinctIds(s) && CanUndo(h, Items(s))
    ensures DistinctIds(UndoHook(h, s))
    ensures Items(UndoHook(h, s)) == UndoSet(h, Items(s))
  {
    match h
    case Added(k) =>
      var p :| p in Items(s) && KeyOf(p) == k;
      RemoveIdItems(s, k.id, p);
      assert UndoSet(h, Items(s)) == Items(s) - {p} by {
        forall q | q in Items(s) && q.id == k.id ensures q == p {
          var i :| 0 <= i < |s| && s[i] == q;
          var j :| 0 <= j < |s| && s[j] == p;
        }
      }
    case Taken(p) =>
  }

  /** Running the hooks on the list does to its elements what UnwoundSet says. */
  lemma {:induction false} UndoHooksItems(hooks: seq<Hook>, s: seq<PendingReply>, limit: nat)
    requires DistinctIds(s) && Undoable(hooks, Items(s), limit)
    ensures DistinctIds(UndoHooks(hooks, s))
    ensures Items(UndoHooks(hooks, s)) == UnwoundSet(hooks, Items(s))
    ensures Legal(Items(UndoHooks(hooks, s)), limit)
    decreases |hooks|
  {
    if hooks != [] {
      UndoHookItems(hooks[0], s);
      UndoHooksItems(hooks[1..], UndoHook(hooks[0], s), limit);
    }
  }

  // ---- Legal sets ----

  lemma LegalSubset(S: set<PendingReply>, R: set<PendingReply>, limit: nat)
    requires Legal(S, limit) && R <= S
    ensures Legal(R, limit)
  {
    forall c ensures |OfCaller(R, c)| <= limit {
      SubsetSize(OfCaller(R, c), OfCaller(S, c));
    }
  }

  lemma WithinAdd(S: set<PendingReply>, p: PendingReply, limit: nat)
    requires Within(S, limit) && |OfCaller(S, p.caller)| < limit
    ensures Within(S + {p}, limit)
  {
    forall c ensures |OfCaller(S + {p}, c)| <= limit {
      if c == p.caller {
        assert OfCaller(S + {p}, c) == OfCaller(S, c) + {p};
      } else {
        assert OfCaller(S + {p}, c) == OfCaller(S, c);
      }
    }
  }

  lemma LegalAdd(S: set<PendingReply>, p: PendingReply, limit: nat)
    requires Legal(S, limit)
    requires forall q | q in S :: q.id != p.id
    requires forall q | q in S :: !SameCall(p, q)
    requires |OfCaller(S, p.caller)| < limit
    ensures Legal(S + {p}, limit)
  {
    WithinAdd(S, p, limit);
    assert UniqueIds(S + {p});
    assert UniqueCalls(S + {p});
  }

  // ---- Each event keeps the invariant ----

  lemma RecordUndoable(t: Table, caller: Conn, replier: Conn, serial: nat)
    requires Inv(t) && Enabled(t, Record(caller, replier, serial))
    ensures var t' := ApplyRecord(t, caller, replier, serial);
            && DistinctIds(t'.pending)
            && Undoable(t'.hooks, Items(t'.pending), t.limit)
            && UnwoundSet(t'.hooks, Items(t'.pending)) == UnwoundSet(t.hooks, Items(t.pending))
  {
    var t' := ApplyRecord(t, caller, replier, serial);
    var p, S := t'.pending[0], Items(t.pending);
    assert Items(t'.pending) == S + {p};
    FreshId(t);
    CountIsCardinality(t.pending, caller);
    LegalAdd(S, p, t.limit);
    assert UndoSet(t'.hooks[0], S + {p}) == S;
    assert t'.hooks[1..] == t.hooks;
    assert CanUndo(t'.hooks[0], S + {p});
  }

  lemma FreshId(t: Table)
    requires Balanced(t, Items(t.pending), t.hooks)
    ensures forall q | q in t.pending :: q.id < t.nextId
  {
    forall q | q in t.pending ensures q.id < t.nextId {
      assert KeyOf(q) in KeySet(Items(t.pending));
    }
  }

  lemma RecordBalanced(t: Table, caller: Conn, replier: Conn, serial: nat)
    requires Balanced(t, Items(t.pending), t.hooks)
    ensures var t' := ApplyRecord(t, caller, replier, serial); Balanced(t', Items(t'.pending), t'.hooks)
  {
    var t' := ApplyRecord(t, caller, replier, serial);
    var p, S := t'.pending[0], Items(t.pending);
    assert Items(t'.pending) == S + {p};
    assert t'.hooks[1..] == t.hooks;
    assert KeySet(S + {p}) == KeySet(S) + {KeyOf(p)};
    assert AddedKeys(t'.hooks) == AddedKeys(t.hooks) + {KeyOf(p)};
    assert TakenKeys(t'.hooks) == TakenKeys(t.hooks);
    assert KeyOf(p) !in t.recorded + AddedKeys(t.hooks);
  }

  lemma RecordTimer(t: Table, caller: Conn, replier: Conn, serial: nat)
    requires TimerReady(t)
    ensures TimerReady(ApplyRecord(t, caller, replier, serial))
  {
    var t' := ApplyRecord(t, caller, replier, serial);
    forall p | p in t'.pending ensures Covered(t', p) {
      assert p == t'.pending[0] || p in t.pending;
    }
    forall i | 0 <= i < |t'.hooks| && t'.hooks[i].Taken? ensures Covered(t', t'.hooks[i].item) {
      assert t'.hooks[i] == t.hooks[i - 1];
    }
  }

  lemma RecordKeepsInv(t: Table, caller: Conn, replier: Conn, serial: nat)
    requires Inv(t) && Enabled(t, Record(caller, replier, serial))
    ensures Inv(ApplyRecord(t, caller, replier, serial))
  {
    RecordUndoable(t, caller, replier, serial);
    RecordBalanced(t, caller, replier, serial);
    RecordTimer(t, caller, replier, serial);
  }

  lemma ConsumeUndoable(t: Table, caller: Conn, replier: Conn, serial: nat)
    requires Inv(t) && Enabled(t, Consume(caller, replier, serial))
    ensures var t' := ApplyConsume(t, caller, replier, serial);
            && DistinctIds(t'.pending)
            && Undoable(t'.hooks, Items(t'.pending), t.limit)
            && UnwoundSet(t'.hooks, Items(t'.pending)) == UnwoundSet(t.hooks, Items(t.pending))
  {
    var t' := ApplyConsume(t, caller, replier, serial);
    var i := Find(t.pending, caller, replier, serial);
    var p, S := t.pending[i], Items(t.pending);
    CutItems(t.pending, i);
    LegalSubset(S, S - {p}, t.limit);
    assert UndoSet(t'.hooks[0], S - {p}) == S;
    assert t'.hooks[1..] == t.hooks;
    assert CanUndo(t'.hooks[0], S - {p});
  }

  lemma ConsumeBalanced(t: Table, caller: Conn, replier: Conn, serial: nat)
    requires DistinctIds(t.pending) && Enabled(t, Consume(caller, replier, serial))
    requires UniqueIds(Items(t.pending)) && Balanced(t, Items(t.pending), t.hooks)
    ensures var t' := ApplyConsume(t, caller, replier, serial); Balanced(t', Items(t'.pending), t'.hooks)
  {
    var t' := ApplyConsume(t, caller, replier, serial);
    var i := Find(t.pending, caller, replier, serial);
    var p, S := t.pending[i], Items(t.pending);
    CutItems(t.pending, i);
    assert t'.hooks[1..] == t.hooks;
    KeySetMinus(S, p);
    assert AddedKeys(t'.hooks) == AddedKeys(t.hooks);
    assert TakenKeys(t'.hooks) == TakenKeys(t.hooks) + {KeyOf(p)};
  }

  lemma KeySetMinus(S: set<PendingReply>, p: PendingReply)
    requires UniqueIds(S) && p in S
    ensures KeySet(S - {p}) == KeySet(S) - {KeyOf(p)}
    ensures KeyOf(p) in KeySet(S)
  {
    forall q | q in S && KeyOf(q) == KeyOf(p) ensures q == p { assert q.id == p.id; }
  }

  lemma ConsumeKeepsInv(t: Table, caller: Conn, replier: Conn, serial: nat)
    requires Inv(t) && Enabled(t, Consume(caller, replier, serial))
    ensures Inv(ApplyConsume(t, caller, replier, serial))
  {
    ConsumeUndoable(t, caller, replier, serial);
    ConsumeBalanced(t, caller, replier, serial);
    ConsumeTimer(t, caller, replier, serial);
  }

  lemma ConsumeTimer(t: Table, caller: Conn, replier: Conn, serial: nat)
    requires TimerReady(t) && Enabled(t, Consume(caller, replier, serial))
    ensures TimerReady(ApplyConsume(t, caller, replier, serial))
  {
    var t' := ApplyConsume(t, caller, replier, serial);
    forall p | p in t'.pending ensures Covered(t', p) { assert p in t.pending; }
    forall i | 0 <= i < |t'.hooks| && t'.hooks[i].Taken? ensures Covered(t', t'.hooks[i].item) {
      if i == 0 { assert t'.hooks[0].item in t.pending; } else { assert t'.hooks[i] == t.hooks[i - 1]; }
    }
  }

  lemma {:induction false} UnwindBalances(t: Table, S: set<PendingReply>, hooks: seq<Hook>)
    requires Undoable(hooks, S, t.limit) && Balanced(t, S, hooks)
    ensures Balanced(t, UnwoundSet(hooks, S), [])
    decreases |hooks|
  {
    if hooks != [] {
      var S' := UndoSet(hooks[0], S);
      match hooks[0] {
        case Added(k) =>
          var p :| p in S && KeyOf(p) == k;
          assert S' == S - {p};
          KeySetMinus(S, p);
        case Taken(p) =>
          assert KeySet(S') == KeySet(S) + {KeyOf(p)};
      }
      assert Balanced(t, S', hooks[1..]);
      UnwindBalances(t, S', hooks[1..]);
    }
  }

  lemma {:induction false} UnwoundOrigin(hooks: seq<Hook>, S: set<PendingReply>, p: PendingReply)
    requires p in UnwoundSet(hooks, S)
    ensures p in S || exists i :: 0 <= i < |hooks| && hooks[i] == Taken(p)
    decreases |hooks|
  {
    if hooks != [] {
      UnwoundOrigin(hooks[1..], UndoSet(hooks[0], S), p);
      if i :| 0 <= i < |hooks[1..]| && hooks[1..][i] == Taken(p) {
        assert hooks[i + 1] == Taken(p);
      } else if p !in S {
        assert hooks[0] == Taken(p);
      }
    }
  }

  lemma UndoKeepsInv(t: Table)
    requires Inv(t)
    ensures Inv(Apply(t, Undo))
  {
    var t' := Apply(t, Undo);
    UndoHooksItems(t.hooks, t.pending, t.limit);
    UnwindBalances(t, Items(t.pending), t.hooks);
    assert Balanced(t', Items(t'.pending), []);
    forall p | p in t'.pending ensures Covered(t', p) {
      assert p in Items(t'.pending);
      UnwoundOrigin(t.hooks, Items(t.pending), p);
    }
  }

  lemma CommitKeepsInv(t: Table)
    requires Inv(t)
    ensures Inv(Apply(t, Commit))
  {
  }

  lemma {:induction false} DropAllItems(s: seq<PendingReply>, c: Conn)
    requires DistinctIds(s)
    ensures DistinctIds(DropAll(s, c))
    ensures Items(DropAll(s, c)) == set p | p in s && p.caller != c :: Orphan(p, c)
  {
    if s != [] {
      DropAllItems(s[1..], c);
      assert forall p :: p in s <==> p == s[0] || p in s[1..];
      var d, d1 := DropAll(s, c), DropAll(s[1..], c);
      assert forall p :: p in d1 <==> p in Items(d1);
      if s[0].caller != c {
        assert d[1..] == d1;
        assert forall p :: p in d <==> p == d[0] || p in d1;
        forall i | 0 <= i < |d1| ensures d1[i].id != s[0].id {
          assert d1[i] in Items(d1);
          var q :| q in s[1..] && q.caller != c && d1[i] == Orphan(q, c);
        }
      }
    }
  }

  lemma DropBalanced(t: Table, c: Conn)
    requires Inv(t) && t.hooks == []
    ensures var t' := Apply(t, Drop(c)); Balanced(t', Items(t'.pending), [])
  {
    hide Undoable, TimerReady, DropAll, MakesOrphan, Balanced;
    DropAllItems(t.pending, c);
    DropKeys(t.pending, DropAll(t.pending, c), c);
    DropBooks(t, Items(t.pending), Apply(t, Drop(c)), Items(DropAll(t.pending, c)), set p | p in t.pending && p.caller == c :: KeyOf(p));
  }

  lemma DropKeys(s: seq<PendingReply>, s': seq<PendingReply>, c: Conn)
    requires DistinctIds(s) && Items(s') == set p | p in s && p.caller != c :: Orphan(p, c)
    ensures var gone := set p | p in s && p.caller == c :: KeyOf(p); gone <= KeySet(Items(s)) && KeySet(Items(s')) == KeySet(Items(s)) - gone
  {
    forall p | p in Items(s) && p.caller != c ensures KeyOf(p) in KeySet(Items(s')) {
      assert Orphan(p, c) in Items(s') && KeyOf(Orphan(p, c)) == KeyOf(p);
    }
  }

  /** What goes from the table goes into the account of dropped expectations. */
  lemma DropBooks(t: Table, S: set<PendingReply>, t': Table, S': set<PendingReply>, gone: set<Key>)
    requires Balanced(t, S, []) && gone <= KeySet(S) && KeySet(S') == KeySet(S) - gone
    requires t'.recorded == t.recorded && t'.consumed == t.consumed && t'.dropped == t.dropped + gone && t'.notices == t.notices && t'.nextId == t.nextId
    ensures Balanced(t', S', [])
  {
    hide KeySet;
  }

  lemma DropTimer(t: Table, c: Conn)
    requires DistinctIds(t.pending) && TimerReady(t) && t.hooks == []
    ensures TimerReady(Apply(t, Drop(c)))
  {
    var t' := Apply(t, Drop(c));
    DropAllItems(t.pending, c);
    forall p' | p' in t'.pending ensures Covered(t', p') {
      assert p' in Items(t'.pending);
      var p :| p in t.pending && p.caller != c && p' == Orphan(p, c);
      assert Covered(t, p);
      if p.replier == Some(c) {
        assert MakesOrphan(t.pending, c);
      }
    }
  }

  lemma DropKeepsInv(t: Table, c: Conn)
    requires Inv(t) && t.hooks == []
    ensures Inv(Apply(t, Drop(c)))
  {
    DropAllItems(t.pending, c);
    assert (set p | p in t.pending && p.caller != c :: Orphan(p, c))
        == (set p | p in Items(t.pending) && p.caller != c :: Orphan(p, c));
    OrphansLegal(Items(t.pending), c, t.limit);
    DropBalanced(t, c);
    DropTimer(t, c);
  }

  lemma OrphansLegal(S: set<PendingReply>, c: Conn, limit: nat)
    requires Legal(S, limit)
    ensures Legal(set p | p in S && p.caller != c :: Orphan(p, c), limit)
  {
    var S' := set p | p in S && p.caller != c :: Orphan(p, c);
    forall d ensures |OfCaller(S', d)| <= limit {
      OrphanCount(S, c, d);
    }
  }

  lemma OrphanCount(S: set<PendingReply>, c: Conn, d: Conn)
    requires forall p, q | p in S && q in S :: p.id == q.id ==> p == q
    ensures |OfCaller(set p | p in S && p.caller != c :: Orphan(p, c), d)| <= |OfCaller(S, d)|
  {
    var S' := set p | p in S && p.caller != c :: Orphan(p, c);
    if d == c {
      assert OfCaller(S', d) == {};
    } else {
      ImageCardinality(OfCaller(S, d), c);
      assert OfCaller(S', d) == set p | p in OfCaller(S, d) :: Orphan(p, c);
    }
  }

  lemma {:induction false} ImageCardinality(S: set<PendingReply>, c: Conn)
    ensures |set p | p in S :: Orphan(p, c)| <= |S|
    decreases |S|
  {
    var img := set p | p in S :: Orphan(p, c);
    if S == {} {
      assert img == {};
    } else {
      var p :| p in S;
      ImageCardinality(S - {p}, c);
      var img' := set q | q in S - {p} :: Orphan(q, c);
      assert img == img' + {Orphan(p, c)};
    }
  }

  lemma {:induction false} SurvivorsDistinct(s: seq<PendingReply>, ea: int, now: nat)
    requires DistinctIds(s)
    ensures DistinctIds(Survivors(s, ea, now))
  {
    if s != [] {
      SurvivorsDistinct(s[1..], ea, now);
      var r := Survivors(s[1..], ea, now);
      forall i | 0 <= i < |r| ensures r[i].id != s[0].id {
        assert r[i] in r;
      }
    }
  }

  lemma {:induction false} ExpiredDistinct(s: seq<PendingReply>, ea: int, now: nat)
    requires DistinctIds(s)
    ensures NoDuplicates(Expired(s, ea, now))
  {
    if s != [] {
      ExpiredDistinct(s[1..], ea, now);
      var e, e1 := Expired(s, ea, now), Expired(s[1..], ea, now);
      assert if Due(s[0], ea, now) then e == [KeyOf(s[0])] + e1 else e == e1;
      forall i | 0 <= i < |e1| ensures e1[i] != KeyOf(s[0]) {
        assert e1[i] in e1;
        var p :| p in s[1..] && KeyOf(p) == e1[i];
        assert p.id != s[0].id;
      }
    }
  }

  /** What a pass over the prefix s of the list keeps, with the rest untouched. */
  lemma PassItems(t: Table, s: seq<PendingReply>, rest: seq<PendingReply>)
    requires DistinctIds(t.pending) && t.pending == s + rest
    ensures var kept := Survivors(s, t.expireAfter, t.clock) + rest;
            && DistinctIds(kept)
            && Items(kept) <= Items(t.pending)
  {
    var v := Survivors(s, t.expireAfter, t.clock);
    var kept := v + rest;
    assert forall i :: 0 <= i < |s| ==> s[i] == t.pending[i];
    assert forall i :: 0 <= i < |rest| ==> rest[i] == t.pending[|s| + i];
    SurvivorsDistinct(s, t.expireAfter, t.clock);
    forall i, j | 0 <= i < j < |kept| ensures kept[i].id != kept[j].id {
      if i < |v| <= j {
        assert v[i] in v;
        var a :| 0 <= a < |s| && s[a] == v[i];
        assert t.pending[a].id != t.pending[|s| + (j - |v|)].id;
      }
    }
  }

  lemma PassKeys(t: Table, s: seq<PendingReply>, rest: seq<PendingReply>)
    requires DistinctIds(t.pending) && t.pending == s + rest
    ensures var kept := Survivors(s, t.expireAfter, t.clock) + rest;
            var outs := set k | k in Expired(s, t.expireAfter, t.clock);
            && Keys(kept) + outs == Keys(t.pending)
            && Keys(kept) !! outs
  {
    var ea, now := t.expireAfter, t.clock;
    var kept := Survivors(s, ea, now) + rest;
    var out := Expired(s, ea, now);
    var outs := set k | k in out;
    forall k | k in Keys(t.pending) ensures k in Keys(kept) + outs {
      var p :| p in t.pending && KeyOf(p) == k;
      if p in rest || !Due(p, ea, now) { assert p in kept; } else { assert p in s; assert k in out; }
    }
    forall k | k in outs ensures k in Keys(t.pending) && k !in Keys(kept) {
      var q :| q in s && Due(q, ea, now) && KeyOf(q) == k;
      assert q in t.pending;
      var a :| 0 <= a < |s| && s[a] == q;
      forall p | p in kept ensures KeyOf(p) != k {
        if p in rest {
          var b :| 0 <= b < |rest| && rest[b] == p;
          assert t.pending[a].id != t.pending[|s| + b].id;
        } else {
          assert p in s && !Due(p, ea, now);
          var b :| 0 <= b < |s| && s[b] == p;
          assert t.pending[a].id != t.pending[b].id;
        }
      }
    }
    forall k | k in Keys(kept) ensures k in Keys(t.pending) {
      var p :| p in kept && KeyOf(p) == k;
      assert p in t.pending;
    }
  }

  lemma KeysAreKeySet(s: seq<PendingReply>)
    ensures Keys(s) == KeySet(Items(s))
  {
  }

  lemma PassBalanced(t: Table, s: seq<PendingReply>, rest: seq<PendingReply>, t': Table)
    requires DistinctIds(t.pending) && t.hooks == [] && t.pending == s + rest && Balanced(t, Items(t.pending), [])
    requires t' == t.(pending := t'.pending, notices := t'.notices, timer := t'.timer, retryAt := t'.retryAt)
    requires t'.pending == Survivors(s, t.expireAfter, t.clock) + rest
    requires t'.notices == t.notices + Expired(s, t.expireAfter, t.clock)
    ensures Balanced(t', Items(t'.pending), [])
  {
    PassKeys(t, s, rest);
    KeysAreKeySet(t.pending);
    KeysAreKeySet(t'.pending);
    var out := Expired(s, t.expireAfter, t.clock);
    ExpiredDistinct(s, t.expireAfter, t.clock) by {
      assert forall i :: 0 <= i < |s| ==> s[i] == t.pending[i];
    }
    var before, outs, after := set k | k in t.notices, set k | k in out, set k | k in t'.notices;
    assert after == before + outs;
    forall i, j | 0 <= i < j < |t'.notices| ensures t'.notices[i] != t'.notices[j] {
      if i < |t.notices| <= j {
        assert t'.notices[j] in outs && t'.notices[i] in before;
      }
    }
  }

  lemma ExpireAllTimer(t: Table)
    requires TimerReady(t) && t.hooks == []
    ensures TimerReady(ApplyExpire(t, None))
  {
    var t' := ApplyExpire(t, None);
    var ea := t.expireAfter;
    forall p | p in t'.pending ensures Covered(t', p) {
      assert p in t.pending && !Due(p, ea, t.clock);
      assert Covered(t, p);
      if ea > 0 {
        assert MinWait(t'.pending, ea, t.clock) <= WaitMs(p, ea, t.clock);
      }
    }
    if t'.timer.At? {
      var p := t'.pending[0];
      assert p in t'.pending && Covered(t', p);
      assert MinWait(t'.pending, ea, t.clock) <= WaitMs(p, ea, t.clock) <= ea;
    }
  }

  lemma ExpireKeepsInv(t: Table, fail: Option<nat>)
    requires Inv(t) && Enabled(t, Expire(fail))
    ensures Inv(ApplyExpire(t, fail))
  {
    var t' := ApplyExpire(t, fail);
    var i := if fail.Some? then fail.value else |t.pending|;
    var s, rest := t.pending[..i], t.pending[i..];
    assert t.pending == s + rest;
    assert t'.pending == Survivors(s, t.expireAfter, t.clock) + rest && t'.notices == t.notices + Expired(s, t.expireAfter, t.clock) by {
      if fail.None? { assert s == t.pending && rest == []; }
    }
    PassItems(t, s, rest);
    LegalSubset(Items(t.pending), Items(t'.pending), t.limit);
    PassBalanced(t, s, rest, t');
    if fail.None? {
      ExpireAllTimer(t);
    } else {
      forall p | p in t'.pending ensures Covered(t', p) {
        assert p in Items(t'.pending);
        assert Covered(t, p);
      }
    }
  }

  lemma RearmKeepsInv(t: Table)
    requires Inv(t)
    ensures Inv(Apply(t, RecordFails))
  {
    forall p | p in t.pending ensures Covered(Apply(t, RecordFails), p) { assert Covered(t, p); }
  }

  lemma StepKeepsInv(t: Table, e: Event)
    requires Inv(t) && Enabled(t, e)
    ensures Inv(Apply(t, e))
  {
    hide Inv;
    match e
    case Record(caller, replier, serial) => RecordKeepsInv(t, caller, replier, serial);
    case Consume(caller, replier, serial) => ConsumeKeepsInv(t, caller, replier, serial);
    case RecordFails => RearmKeepsInv(t);
    case Commit => CommitKeepsInv(t);
    case Undo => UndoKeepsInv(t);
    case Drop(c) => DropKeepsInv(t, c);
    case Expire(fail) => ExpireKeepsInv(t, fail);
    case Tick(us) => TickKeepsInv(t, us);
  }

  lemma TickKeepsInv(t: Table, us: nat)
    requires Inv(t)
    ensures Inv(Apply(t, Tick(us)))
  {
    hide Undoable;
    var t' := Apply(t, Tick(us));
    forall p | p in t.pending ensures Covered(t', p) { assert Covered(t, p); }
    assert Balanced(t', Items(t'.pending), t'.hooks);
  }

  /** The invariant holds in every state of every run. */
  lemma {:induction false} EveryRunKeepsInv(t: Table, es: seq<Event>)
    requires Inv(t) && Runnable(t, es)
    ensures Inv(Run(t, es))
    decreases |es|
  {
    if es != [] {
      StepKeepsInv(t, es[0]);
      EveryRunKeepsInv(Apply(t, es[0]), es[1..]);
    }
  }
}
