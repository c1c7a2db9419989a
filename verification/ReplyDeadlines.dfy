/**
 When a caller is told that there will be no reply, and what each change of the table does to
 each expectation, in plain arithmetic and field by field.
*/
module ReplyDeadlines {
  import opened BusTypes
  import opened ReplyTable
  import opened ReplyInvariants
  import opened ReplyTheorems

  /** r is s with some items left out. */
  predicate PartInOrder<T(==)>(r: seq<T>, s: seq<T>) {
    r == [] || (s != [] && if r[0] == s[0] then PartInOrder(r[1..], s[1..]) else PartInOrder(r, s[1..]))
  }

  // ---- One pass ----

  /**
   A complete pass tells exactly those callers whose time is up, or whose replier is gone; all
   others wait on, in the same order.
   */
  lemma CompletePassIff(t: Table, p: PendingReply)
    requires Inv(t) && t.hooks == [] && p in t.pending
    ensures var t' := Apply(t, Expire(None));
            var due := p.stamp == 0 || (t.expireAfter > 0 && t.clock >= p.stamp + 1000 * t.expireAfter);
            && multiset(t'.notices)[Key(p.id, p.caller, p.serial)] == (if due then 1 else 0)
            && (p in t'.pending <==> !due)
            && PartInOrder(t'.pending, t.pending)
  {
    PassTold(t, None, |t.pending|, p);
    SurvivorsPart(t.pending, t.expireAfter, t.clock);
  }

  /** One that fails at position i has dealt with those before it, and left the rest alone. */
  lemma FailedPassIff(t: Table, i: nat, p: PendingReply)
    requires Inv(t) && t.hooks == [] && Enabled(t, Expire(Some(i))) && p in t.pending
    ensures var t' := Apply(t, Expire(Some(i)));
            var due := p.stamp == 0 || (t.expireAfter > 0 && t.clock >= p.stamp + 1000 * t.expireAfter);
            && (multiset(t'.notices)[Key(p.id, p.caller, p.serial)] == if due && p in t.pending[..i] then 1 else 0)
            && (p in t'.pending <==> !(due && p in t.pending[..i]))
            && t'.timer == At(t.clock + 500000)
  {
    PassTold(t, Some(i), i, p);
  }

  lemma PassTold(t: Table, fail: Option<nat>, i: nat, p: PendingReply)
    requires Inv(t) && t.hooks == [] && Enabled(t, Expire(fail)) && i == (if fail.Some? then fail.value else |t.pending|) && p in t.pending
    ensures var t' := Apply(t, Expire(fail));
            var told := p in t.pending[..i] && Due(p, t.expireAfter, t.clock);
            multiset(t'.notices)[KeyOf(p)] == (if told then 1 else 0) && (p in t'.pending <==> !told)
  {
    var s, rest := t.pending[..i], t.pending[i..];
    var t' := ApplyExpire(t, fail);
    assert t.pending == s + rest;
    assert t'.pending == Survivors(s, t.expireAfter, t.clock) + rest && t'.notices == t.notices + Expired(s, t.expireAfter, t.clock) by {
      if fail.None? { assert s == t.pending && rest == []; }
    }
    ExpireKeepsInv(t, fail);
    PassKeys(t, s, rest);
    NotYetTold(t, p);
    assert NoDuplicates(t'.notices);
    OnceIfDistinct(t'.notices, KeyOf(p));
    KeyTold(t, s, rest, p);
    SplitDistinct(t.pending, i, p);
  }

  lemma NotYetTold(t: Table, p: PendingReply)
    requires Inv(t) && t.hooks == [] && p in t.pending
    ensures KeyOf(p) !in t.notices
  {
    assert KeyOf(p) in KeySet(Items(t.pending)) && KeyOf(p) !in (set k | k in t.notices);
  }

  lemma KeyTold(t: Table, s: seq<PendingReply>, rest: seq<PendingReply>, p: PendingReply)
    requires DistinctIds(t.pending) && t.pending == s + rest && p in t.pending
    ensures KeyOf(p) in Expired(s, t.expireAfter, t.clock) <==> p in s && Due(p, t.expireAfter, t.clock)
  {
    hide Due;
    if KeyOf(p) in Expired(s, t.expireAfter, t.clock) {
      var q :| q in s && Due(q, t.expireAfter, t.clock) && KeyOf(q) == KeyOf(p);
      assert q in t.pending;
      SameId(t.pending, p, q);
    }
  }

  lemma SameId(s: seq<PendingReply>, p: PendingReply, q: PendingReply)
    requires DistinctIds(s) && p in s && q in s && p.id == q.id
    ensures p == q
  {
    var i :| 0 <= i < |s| && s[i] == p;
    var j :| 0 <= j < |s| && s[j] == q;
  }

  lemma SplitDistinct(s: seq<PendingReply>, i: nat, p: PendingReply)
    requires DistinctIds(s) && i <= |s| && p in s
    ensures p in s[..i] <==> p !in s[i..]
  {
    assert s == s[..i] + s[i..];
    if p in s[..i] {
      var a :| 0 <= a < i && s[..i][a] == p;
      forall b | 0 <= b < |s| - i ensures s[i..][b] != p { assert s[a].id != s[i + b].id; }
    }
  }

  lemma {:induction false} SurvivorsPart(s: seq<PendingReply>, ea: int, now: nat)
    ensures PartInOrder(Survivors(s, ea, now), s)
  {
    hide Due;
    if s != [] {
      SurvivorsPart(s[1..], ea, now);
      var r := Survivors(s[1..], ea, now);
      if Due(s[0], ea, now) {
        assert [] + r == r;
        PartWeaken(r, s);
      } else {
        assert ([s[0]] + r)[1..] == r;
      }
    }
  }

  lemma {:induction false} PartWeaken<T>(r: seq<T>, s: seq<T>)
    requires s != [] && PartInOrder(r, s[1..])
    ensures PartInOrder(r, s)
    decreases |s|, 0
  {
    if r != [] && r[0] == s[0] { PartTail(r, s[1..]); }
  }

  lemma {:induction false} PartTail<T>(r: seq<T>, s: seq<T>)
    requires r != [] && PartInOrder(r, s)
    ensures PartInOrder(r[1..], s)
    decreases |s|, 1
  {
    if r[0] == s[0] { PartWeaken(r[1..], s); } else { PartTail(r, s[1..]); PartWeaken(r[1..], s); }
  }

  /**
   The timer after a complete pass: off if nothing can expire by itself; otherwise within a
   millisecond before the earliest deadline, but never more than an hour away.
   */
  lemma PassTimer(t: Table)
    requires Inv(t) && t.hooks == []
    ensures var t' := Apply(t, Expire(None));
            if t'.pending == [] || t.expireAfter <= 0 then t'.timer == Off
            else
              && t'.timer.At? && t.clock <= t'.timer.when <= t.clock + 3600 * 1000000
              && (forall p | p in t'.pending :: t'.timer.when <= p.stamp + 1000 * t.expireAfter)
              && (t'.timer.when == t.clock + 3600 * 1000000
                  || exists p :: p in t'.pending && p.stamp + 1000 * t.expireAfter - 1000 < t'.timer.when)
  {
    var t', ea := Apply(t, Expire(None)), t.expireAfter;
    if t'.pending != [] && ea > 0 {
      var w := MinWait(t'.pending, ea, t.clock);
      forall p | p in t'.pending ensures 0 <= WaitMs(p, ea, t.clock) && t'.timer.when <= p.stamp + 1000 * ea {
        assert p in t.pending && !Due(p, ea, t.clock) && Covered(t, p);
        assert w <= WaitMs(p, ea, t.clock);
      }
      if w != ONE_HOUR {
        var p :| p in t'.pending && w == WaitMs(p, ea, t.clock);
        assert p.stamp + 1000 * ea - 1000 < t'.timer.when;
      }
    }
  }

  // ---- Never too soon ----

  /** Wherever the expectation id is, it is still the one of c, for a reply of r to this serial, from the time when. */
  ghost predicate Untouched(t: Table, o: PendingReply) {
    && o.id < t.nextId
    && (forall p | p in t.pending && p.id == o.id :: p == o)
    && (forall i | 0 <= i < |t.hooks| && t.hooks[i].Taken? && t.hooks[i].item.id == o.id :: t.hooks[i].item == o)
  }

  lemma {:induction false} UndoneFrom(hooks: seq<Hook>, s: seq<PendingReply>, p: PendingReply)
    requires p in UndoHooks(hooks, s)
    ensures p in s || exists i :: 0 <= i < |hooks| && hooks[i] == Taken(p)
    decreases |hooks|
  {
    if hooks != [] {
      UndoneFrom(hooks[1..], UndoHook(hooks[0], s), p);
      if i :| 0 <= i < |hooks[1..]| && hooks[1..][i] == Taken(p) {
        assert hooks[i + 1] == Taken(p);
      } else {
        match hooks[0] {
          case Added(k) => RemovedFrom(s, k.id, p);
          case Taken(q) => if p == q { assert hooks[0] == Taken(p); }
        }
      }
    }
  }

  lemma {:induction false} RemovedFrom(s: seq<PendingReply>, id: nat, p: PendingReply)
    requires p in RemoveId(s, id)
    ensures p in s
  {
    if s != [] && s[0].id != id && p != s[0] { RemovedFrom(s[1..], id, p); }
  }

  lemma {:induction false} DroppedFrom(s: seq<PendingReply>, c: Conn, p: PendingReply)
    requires p in DropAll(s, c)
    ensures exists q :: q in s && q.caller != c && p == Orphan(q, c)
  {
    if s[0].caller != c && p == Orphan(s[0], c) {
      assert s[0] in s;
    } else {
      DroppedFrom(s[1..], c, p);
      var q :| q in s[1..] && q.caller != c && p == Orphan(q, c);
      assert q in s;
    }
  }

  lemma StepUntouched(t: Table, e: Event, o: PendingReply)
    requires Enabled(t, e) && Untouched(t, o) && o.replier.Some? && e != Drop(o.replier.value)
    ensures Untouched(Apply(t, e), o)
  {
    var t' := Apply(t, e);
    match e {
      case Undo =>
        forall p | p in t'.pending && p.id == o.id ensures p == o {
          UndoneFrom(t.hooks, t.pending, p);
        }
      case Drop(c) =>
        forall p | p in t'.pending && p.id == o.id ensures p == o {
          DroppedFrom(t.pending, c, p);
        }
      case Expire(fail) =>
        forall p | p in t'.pending ensures p in t.pending { }
      case Consume(c, r, k) =>
        forall p | p in t'.pending ensures p in t.pending { }
      case _ =>
    }
  }

  /** A step gives notice only of expectations whose time is up. */
  lemma StepNotices(t: Table, e: Event, o: PendingReply)
    requires Inv(t) && Enabled(t, e) && Untouched(t, o) && o.stamp > 0 && KeyOf(o) in Apply(t, e).notices && KeyOf(o) !in t.notices
    ensures t.expireAfter > 0 && t.clock >= o.stamp + 1000 * t.expireAfter && Apply(t, e).clock == t.clock
  {
    hide Inv;
    assert e.Expire?;
    var i := if e.fail.Some? then e.fail.value else |t.pending|;
    var s := t.pending[..i];
    assert e.fail.None? ==> s == t.pending;
    assert KeyOf(o) in Expired(s, t.expireAfter, t.clock);
    var q :| q in s && Due(q, t.expireAfter, t.clock) && KeyOf(q) == KeyOf(o);
    assert q in t.pending;
  }

  lemma {:induction false} RunNotices(t: Table, es: seq<Event>, o: PendingReply)
    requires Inv(t) && Runnable(t, es) && Untouched(t, o) && o.stamp > 0 && KeyOf(o) !in t.notices
    requires o.replier.Some? && NoDropOf(es, o.replier.value)
    ensures var u := Run(t, es);
            KeyOf(o) in u.notices ==> u.expireAfter > 0 && u.clock >= o.stamp + 1000 * u.expireAfter
    decreases |es|
  {
    if es != [] {
      var t1 := Apply(t, es[0]);
      StepKeepsInv(t, es[0]);
      StepUntouched(t, es[0], o);
      if KeyOf(o) in t1.notices {
        StepNotices(t, es[0], o);
        OnlyLater(t1, es[1..]);
        StepRate(t, es[0]);
      } else {
        assert NoDropOf(es[1..], o.replier.value);
        RunNotices(t1, es[1..], o);
      }
    }
  }

  lemma StepRate(t: Table, e: Event)
    requires Enabled(t, e)
    ensures Apply(t, e).expireAfter == t.expireAfter && Apply(t, e).clock >= t.clock
  {
  }

  lemma {:induction false} OnlyLater(t: Table, es: seq<Event>)
    requires Runnable(t, es)
    ensures Run(t, es).clock >= t.clock && Run(t, es).expireAfter == t.expireAfter
    decreases |es|
  {
    if es != [] {
      StepRate(t, es[0]);
      OnlyLater(Apply(t, es[0]), es[1..]);
    }
  }

  /**
   From the moment a call is recorded, in every run in which its replier stays connected, its
   caller is told that there will be no reply only when the whole timeout has passed.
   */
  lemma NeverTooSoon(t: Table, caller: Conn, replier: Conn, serial: nat, es: seq<Event>)
    requires Inv(t) && Enabled(t, Record(caller, replier, serial)) && Runnable(Apply(t, Record(caller, replier, serial)), es)
    requires NoDropOf(es, replier)
    ensures var u := Run(Apply(t, Record(caller, replier, serial)), es);
            Key(t.nextId, caller, serial) in u.notices ==> u.expireAfter > 0 && u.clock >= t.clock + 1000 * u.expireAfter
  {
    var o := PendingReply(t.nextId, caller, Some(replier), serial, t.clock);
    var t1 := Apply(t, Record(caller, replier, serial));
    RecordKeepsInv(t, caller, replier, serial);
    FreshId(t);
    NewIsUntouched(t, o);
    if KeyOf(o) in t.notices {
      NoticesAreOld(t, KeyOf(o));
      assert false;
    }
    RunNotices(t1, es, o);
  }

  lemma NewIsUntouched(t: Table, o: PendingReply)
    requires Inv(t) && o == PendingReply(t.nextId, o.caller, o.replier, o.serial, t.clock) && o.replier.Some?
    ensures Untouched(ApplyRecord(t, o.caller, o.replier.value, o.serial), o)
  {
    var t1 := ApplyRecord(t, o.caller, o.replier.value, o.serial);
    FreshId(t);
    forall i | 0 <= i < |t1.hooks| && t1.hooks[i].Taken? ensures t1.hooks[i].item.id != o.id {
      assert t1.hooks[i] == t.hooks[i - 1];
      TakenIsOld(t, t.hooks, i - 1);
    }
  }

  lemma {:induction false} TakenIsOld(t: Table, hooks: seq<Hook>, i: nat)
    requires i < |hooks| && hooks[i].Taken? && Balanced(t, Items(t.pending), t.hooks) && TakenKeys(hooks) <= TakenKeys(t.hooks)
    ensures hooks[i].item.id < t.nextId
  {
    InTakenKeys(hooks, i);
    assert KeyOf(hooks[i].item) in t.recorded + AddedKeys(t.hooks);
  }

  lemma {:induction false} InTakenKeys(hooks: seq<Hook>, i: nat)
    requires i < |hooks| && hooks[i].Taken?
    ensures KeyOf(hooks[i].item) in TakenKeys(hooks)
  {
    if i > 0 { InTakenKeys(hooks[1..], i - 1); }
  }

  lemma NoticesAreOld(t: Table, k: Key)
    requires Inv(t) && k in t.notices
    ensures k.id < t.nextId
  {
    assert k in (set x | x in t.notices);
    assert k in t.recorded + AddedKeys(t.hooks);
  }

  // ---- What each change does ----

  /** A reply is requested exactly if its recipient waits for this sender to answer this serial. */
  lemma RequestedIff(t: Table, caller: Conn, replier: Conn, serial: nat)
    ensures Enabled(t, Consume(caller, replier, serial)) <==>
            exists p :: p in t.pending && p.caller == caller && p.replier == Some(replier) && p.serial == serial
  {
    var i := Find(t.pending, caller, replier, serial);
    if i < |t.pending| {
      assert t.pending[i] in t.pending;
    } else {
      assert forall p | p in t.pending :: !Matches(p, caller, replier, serial);
    }
  }

  /** It uses up exactly that expectation. */
  lemma ConsumedIs(t: Table, caller: Conn, replier: Conn, serial: nat, p: PendingReply)
    requires Inv(t) && Enabled(t, Consume(caller, replier, serial)) && p in t.pending
    ensures p in Apply(t, Consume(caller, replier, serial)).pending <==> !(p.caller == caller && p.replier == Some(replier) && p.serial == serial)
    ensures PartInOrder(Apply(t, Consume(caller, replier, serial)).pending, t.pending)
  {
    hide Find, Inv, PartInOrder, DistinctIds, Apply;
    TakenOut(t, caller, replier, serial);
    var s, i := t.pending, Find(t.pending, caller, replier, serial);
    var a, x, b := s[..i], s[i], s[i + 1..];
    OneCall(t, x, p);
    OldOnes(t);
    SplitAt(s, i);
    CutPart(a, x, b);
    CutOne(a, x, b, p);
  }

  lemma TakenOut(t: Table, caller: Conn, replier: Conn, serial: nat)
    requires Enabled(t, Consume(caller, replier, serial))
    ensures var i := Find(t.pending, caller, replier, serial);
            && Apply(t, Consume(caller, replier, serial)).pending == t.pending[..i] + t.pending[i + 1..]
            && i < |t.pending| && Matches(t.pending[i], caller, replier, serial)
  {
    hide Find;
  }

  lemma OneCall(t: Table, p: PendingReply, q: PendingReply)
    requires Inv(t) && p in t.pending && q in t.pending && p.replier.Some?
    ensures p.caller == q.caller && p.replier == q.replier && p.serial == q.serial ==> p == q
  {
    hide Balanced, TimerReady;
    assert Legal(Items(t.pending), t.limit) && p in Items(t.pending) && q in Items(t.pending);
    assert SameCall(p, q) ==> p == q;
  }

  lemma CutOne<T>(a: seq<T>, x: T, b: seq<T>, p: T)
    requires x !in a && x !in b && p in a + ([x] + b)
    ensures p in a + b <==> p != x
  {
  }

  lemma {:induction false} CutPart<T>(a: seq<T>, x: T, b: seq<T>)
    ensures PartInOrder(a + b, a + ([x] + b))
  {
    if a == [] {
      assert a + b == b && a + ([x] + b) == [x] + b && ([x] + b)[1..] == b;
      PartSelf(b);
      PartWeaken(b, [x] + b);
    } else {
      assert (a + b)[1..] == a[1..] + b && (a + ([x] + b))[1..] == a[1..] + ([x] + b);
      CutPart(a[1..], x, b);
    }
  }

  lemma {:induction false} PartSelf<T>(s: seq<T>)
    ensures PartInOrder(s, s)
  {
    if s != [] { PartSelf(s[1..]); }
  }

  /** A call can be recorded exactly if the same one is not pending, and its caller waits for fewer replies than allowed. */
  lemma RecordableIff(t: Table, caller: Conn, replier: Conn, serial: nat)
    requires DistinctIds(t.pending)
    ensures Enabled(t, Record(caller, replier, serial)) <==>
            && (forall p | p in t.pending :: !(p.caller == caller && p.replier == Some(replier) && p.serial == serial))
            && |set p | p in t.pending && p.caller == caller| < t.limit
  {
    RequestedIff(t, caller, replier, serial);
    CountIsCardinality(t.pending, caller);
    assert OfCaller(Items(t.pending), caller) == set p | p in t.pending && p.caller == caller;
  }

  /** It is then pending, in front of all others, and nothing else has changed but the timer. */
  lemma RecordedIs(t: Table, caller: Conn, replier: Conn, serial: nat)
    requires Enabled(t, Record(caller, replier, serial))
    ensures var t' := Apply(t, Record(caller, replier, serial));
            && t'.pending == [PendingReply(t.nextId, caller, Some(replier), serial, t.clock)] + t.pending
            && t'.nextId == t.nextId + 1 && t'.timer == (if t.timer == Off then At(t.clock) else t.timer)
  {
  }

  /** When c goes, its own calls are forgotten, those it should have answered are due at once, and all others stay as they are. */
  lemma DroppedIs(t: Table, c: Conn, p: PendingReply)
    requires Inv(t) && t.hooks == [] && p in t.pending
    ensures var t' := Apply(t, Drop(c));
            && (p.caller == c ==> forall q | q in t'.pending :: q.id != p.id)
            && (p.caller != c && p.replier == Some(c) ==> PendingReply(p.id, p.caller, None, p.serial, 0) in t'.pending && t'.timer == At(t.clock))
            && (p.caller != c && p.replier != Some(c) ==> p in t'.pending)
            && t'.notices == t.notices && |t'.pending| <= |t.pending|
  {
    var t' := Apply(t, Drop(c));
    DropAllItems(t.pending, c);
    if p.caller != c {
      assert Orphan(p, c) in Items(t'.pending);
      if p.replier == Some(c) { assert MakesOrphan(t.pending, c); }
    } else {
      forall q | q in t'.pending ensures q.id != p.id {
        DroppedFrom(t.pending, c, q);
        var o :| o in t.pending && o.caller != c && q == Orphan(o, c);
        if o.id == p.id { SameId(t.pending, o, p); assert false; }
      }
    }
    DropShrinks(t.pending, c);
  }

  lemma {:induction false} DropShrinks(s: seq<PendingReply>, c: Conn)
    ensures |DropAll(s, c)| <= |s|
  {
    if s != [] { DropShrinks(s[1..], c); }
  }
}
