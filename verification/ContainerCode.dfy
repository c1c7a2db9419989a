/** bus/containers.c as it changes its tables, and what it promises. */
module ContainerCode {
  import opened BusTypes
  import opened Containers

  // ---- Promises over every run ----

  lemma StartsWell(maxContainers: nat, perUser: int)
    ensures Inv(Initial(maxContainers, perUser), None) && Settled(Initial(maxContainers, perUser))
  {
    assert Registered(map[]) == {};
    forall u: Uid ensures RegisteredOf(map[], u) == {} {}
  }

  lemma CountsInEveryRun(maxContainers: nat, perUser: int, es: seq<Step>, u: Uid)
    requires Runnable(Initial(maxContainers, perUser), es)
    ensures var s := Run(Initial(maxContainers, perUser), es);
            && Count(s, u) == |RegisteredOf(s.inst, u)| && (Count(s, u) > 0 ==> Count(s, u) <= perUser)
            && |Registered(s.inst)| <= maxContainers
  {
    StartsWell(maxContainers, perUser);
    EveryRunKeepsInv(Initial(maxContainers, perUser), es);
  }

  /** And nothing lingers: in every state of every run, an instance is there because it is being set up, is listening, or has connections. */
  lemma NoneLingers(maxContainers: nat, perUser: int, es: seq<Step>, i: Iid)
    requires Runnable(Initial(maxContainers, perUser), es) && i in Run(Initial(maxContainers, perUser), es).inst
    ensures var s := Run(Initial(maxContainers, perUser), es);
            s.inst[i].local || s.inst[i].callback || exists c :: c in s.slots && s.slots[c] == i
  {
    StartsWell(maxContainers, perUser);
    EveryRunKeepsInv(Initial(maxContainers, perUser), es);
    var s := Run(Initial(maxContainers, perUser), es);
    SoundIt(s, i);
    if !s.inst[i].local && !s.inst[i].callback {
      assert SlotsOf(s.slots, i) != {};
      var c :| c in SlotsOf(s.slots, i);
    }
  }

  /** Every instance that was announced and is gone has been signalled once; no other instance has been signalled. */
  lemma RemovedExactlyOnce(maxContainers: nat, perUser: int, es: seq<Step>, i: Iid)
    requires Runnable(Initial(maxContainers, perUser), es)
    ensures var s := Run(Initial(maxContainers, perUser), es);
            multiset(s.removed)[i] == if i in s.announced && i !in s.inst then 1 else 0
  {
    StartsWell(maxContainers, perUser);
    EveryRunKeepsInv(Initial(maxContainers, perUser), es);
    var s := Run(Initial(maxContainers, perUser), es);
    OnceIfDistinct(s.removed, i);
  }

  /** Only three kinds of steps can free an instance, and only with its last reference. */
  lemma WhoFrees(s: State, e: Step, i: Iid)
    requires Enabled(s, e) && i in s.inst && i !in Apply(s, e).inst
    ensures (e == StopListening(i) && s.inst[i].callback) || e == Release(i) || (e.Detach? && s.slots[e.c] == i && Apply(s, e).slots == s.slots - {e.c})
    ensures s.inst[i].refs <= 1 && (!e.Detach? ==> Apply(s, e).slots == s.slots)
  {
  }

  /** An instance goes away only when nothing listens and nobody is connected. */
  lemma FreedOnlyWhenIdle(s: State, e: Step, i: Iid)
    requires Inv(s, None) && Enabled(s, e) && i in s.inst && i !in Apply(s, e).inst
    ensures SlotsOf(Apply(s, e).slots, i) == {} && s.inst[i].conns == []
    ensures s.inst[i].server ==> e == StopListening(i)
  {
    WhoFrees(s, e, i);
    SoundIt(s, i);
    hide Inv, Apply;
    if e.Detach? {
      LastOneOut(s, e.c, i);
      assert SlotsOf(s.slots - {e.c}, i) == SlotsOf(s.slots, i) - {e.c};
    } else {
      NoConns(s.inst[i].conns, SlotsOf(s.slots, i));
    }
  }

  lemma LastOneOut(s: State, c: Conn, i: Iid)
    requires i in s.inst && Sound(s.inst[i], i, s.slots) && Referenced(s.inst[i], i, s.slots, 0) && s.inst[i].refs <= 1
    requires c in s.slots && s.slots[c] == i && c !in s.inst[i].conns
    ensures s.inst[i].conns == [] && SlotsOf(s.slots, i) == {c}
  {
    assert c in SlotsOf(s.slots, i);
    assert |SlotsOf(s.slots, i) - {c}| == |SlotsOf(s.slots, i)| - 1;
    assert SlotsOf(s.slots, i) - {c} == {};
    NoConns(s.inst[i].conns, SlotsOf(s.slots, i) - {c});
  }

  // ---- Runs ----

  lemma {:induction false} RunConcat(s: State, es: seq<Step>, more: seq<Step>)
    requires Runnable(s, es) && Runnable(Run(s, es), more)
    ensures Runnable(s, es + more) && Run(s, es + more) == Run(Run(s, es), more)
    decreases |es|
  {
    if es == [] {
      assert es + more == more;
    } else {
      assert (es + more)[1..] == es[1..] + more;
      RunConcat(Apply(s, es[0]), es[1..], more);
    }
  }

  ghost predicate Led(s: State, es: seq<Step>, s': State) { Inv(s', None) && Settled(s') && Runnable(s, es) && Run(s, es) == s' }

  lemma NothingLed(s: State)
    requires Inv(s, None) && Settled(s)
    ensures Led(s, [], s)
  {
  }

  lemma LedWell(s: State, es: seq<Step>, s': State)
    requires Led(s, es, s')
    ensures Inv(s', None) && Settled(s')
  {
  }

  lemma LedOn(s: State, es: seq<Step>, s': State, more: seq<Step>, s'': State)
    requires Led(s, es, s') && Led(s', more, s'')
    ensures Led(s, es + more, s'')
  {
    RunConcat(s, es, more);
  }

  lemma LedOne(s: State, e: Step)
    requires Inv(s, None) && Settled(s) && Enabled(s, e)
    ensures Led(s, [e], Apply(s, e))
  {
    StepKeepsInv(s, e);
    StepSettles(s, e);
    assert [e][1..] == [];
  }

  lemma CanRelease(s: State, i: Iid)
    requires Inv(s, None) && i in s.inst && s.inst[i].local && ((s.inst[i].callback && s.inst[i].announced) || !s.inst[i].server)
    ensures Enabled(s, Release(i))
  {
    HasIt(s, i, None);
  }

  /** Who holds a reference to i, as far as the code relies on it. */
  lemma Holders(s: State, i: Iid)
    requires Inv(s, None) && i in s.inst
    ensures Has(s, i) && s.inst[i].refs > 0
    ensures s.inst[i].local && s.inst[i].callback ==> s.inst[i].refs > 1
    ensures s.inst[i].local && !s.inst[i].callback && !s.inst[i].announced ==> s.inst[i].refs == 1
    ensures s.inst[i].callback ==> s.inst[i].server
    ensures forall c | c in s.inst[i].conns :: c in s.slots && s.slots[c] == i
  {
    HasIt(s, i, None);
    SoundIt(s, i);
  }

  /** While AddServer holds its reference, only the server goes. */
  lemma StopIs(s: State, i: Iid)
    requires Inv(s, None) && i in s.inst
    ensures Has(s, i) && Enabled(s, StopListening(i)) && Apply(s, StopListening(i)) == Stopped(s, i)
    ensures s.inst[i].local ==>
              var s' := Stopped(s, i);
              && i in s'.inst && s'.removed == s.removed && s'.inst == s.inst[i := s'.inst[i]]
              && s'.inst[i] == s.inst[i].(server := false, callback := false, refs := s'.inst[i].refs)
  {
    Holders(s, i);
  }

  ghost function Released(s: State, i: Iid): State
    requires Has(s, i)
  {
    Unref(Set(s, i, s.inst[i].(local := false)), i)
  }

  lemma ReleaseIs(s: State, i: Iid)
    requires Inv(s, None) && Enabled(s, Release(i))
    ensures Has(s, i) && Apply(s, Release(i)) == Released(s, i)
    ensures var s' := Released(s, i);
            && (s.inst[i].callback ==> s'.inst == s.inst[i := s.inst[i].(local := false, refs := s.inst[i].refs - 1)] && s'.removed == s.removed)
            && (!s.inst[i].announced ==> s'.inst == s.inst - {i} && s'.removed == s.removed)
  {
    Holders(s, i);
  }

  /** What AddServer comes to, and what a connection to a container. */
  datatype Added = Listening | LimitExceeded | OutOfMemory
  datatype Connected = Admitted | Full | Lost

  class BusContainers {
    const enough: bool   // neither an allocation nor a call to the system fails
    const maxContainers: nat
    const perUser: int
    const perContainer: int
    var inst: map<Iid, Instance>
    var slots: map<Conn, Iid>
    var byUser: map<Uid, nat>
    var removed: seq<Iid>
    var nextId: Iid
    ghost var announced: set<Iid>

    ghost function Abs(): State
      reads this
    {
      State(maxContainers, perUser, inst, slots, byUser, removed, announced, nextId)
    }

    ghost predicate Valid()
      reads this
    {
      Inv(Abs(), None) && Settled(Abs())
    }

    constructor (enough: bool, maxContainers: nat, perUser: int, perContainer: int)
      ensures this.enough == enough && Valid() && Abs() == Initial(maxContainers, perUser)
    {
      this.enough := enough;
      this.maxContainers, this.perUser, this.perContainer := maxContainers, perUser, perContainer;
      inst, slots, byUser, removed, nextId, announced := map[], map[], map[], [], 0, {};
      new;
      StartsWell(maxContainers, perUser);
    }

    /** The signal is tried again as long as there is no memory for it. */
    method EmitRemoved(i: Iid, failures: nat)
      modifies `removed
      ensures removed == old(removed) + [i]
    {
      var tries := failures;
      var ok := tries == 0;
      while !ok
        invariant ok <==> tries == 0
        decreases tries
      {
        tries := tries - 1;   // cancelled, then _dbus_wait_for_memory
        ok := tries == 0;
      }
      removed := removed + [i];
    }

    method UnrefInstance(i: Iid, failures: nat)
      requires Has(Abs(), i)
      modifies `inst, `byUser, `removed
      ensures Abs() == Unref(old(Abs()), i)
    {
      var x := inst[i];
      if x.refs > 1 {
        inst := inst[i := x.(refs := x.refs - 1)];
        return;
      }
      if x.announced {
        EmitRemoved(i, failures);
      }
      if x.registered {
        byUser := byUser[x.uid := CountIn(byUser, x.uid) - 1];
      }
      inst := inst - {i};
    }

    method StopInstanceListening(i: Iid, failures: nat) returns (ghost es: seq<Step>)
      requires Valid() && i in inst
      modifies `inst, `byUser, `removed
      ensures Led(old(Abs()), es, Abs()) && es == [StopListening(i)]
      ensures old(inst[i].local) ==>
                && i in inst && removed == old(removed) && inst == old(inst)[i := inst[i]]
                && inst[i] == old(inst[i]).(server := false, callback := false, refs := inst[i].refs)
    {
      ghost var s := Abs();
      StopIs(s, i);
      hide Inv, Led, Enabled, Apply, Unref;
      LedOne(s, StopListening(i));
      var held := inst[i].callback;
      inst := inst[i := inst[i].(server := false, callback := false)];
      if held {
        UnrefInstance(i, failures);
      }
      return [StopListening(i)];
    }

    // ---- AddServer ----

    method NewInstance(c: Conn, uid: Uid) returns (i: Iid, ghost es: seq<Step>)
      requires Valid()
      modifies `inst, `nextId
      ensures Led(old(Abs()), es, Abs()) && es == [Create(c, uid)]
      ensures i !in old(inst) && inst == old(inst)[i := Instance(uid, c, false, false, false, false, [], false, true, 1)]
    {
      hide Inv, Settled;
      UnusedId(Abs());
      LedOne(Abs(), Create(c, uid));
      i := nextId;
      inst := inst[i := Instance(uid, c, false, false, false, false, [], false, true, 1)];
      nextId := nextId + 1;
      return i, [Create(c, uid)];
    }

    /** Both limits are checked before the instance is entered. */
    method RegisterInstance(i: Iid) returns (r: Added, ok: bool, ghost es: seq<Step>)
      requires Valid() && i in inst && inst[i].local && !inst[i].registered
      modifies `inst, `byUser
      ensures Led(old(Abs()), es, Abs()) && es == if ok then [Register(i)] else []
      ensures r == LimitExceeded <==> |Registered(old(inst))| >= maxContainers || perUser <= 0 || CountIn(old(byUser), old(inst)[i].uid) >= perUser
      ensures (ok <==> r == Listening) && (r == OutOfMemory ==> !enough)
      ensures ok ==> inst == old(inst)[i := old(inst[i]).(registered := true)]
      ensures !ok ==> Abs() == old(Abs())
    {
      hide Inv, Settled;
      HasIt(Abs(), i, None);
      NothingLed(Abs());
      if |Registered(inst)| >= maxContainers {
        return LimitExceeded, false, [];
      }
      var n := CountIn(byUser, inst[i].uid);
      if perUser <= 0 || n >= perUser {
        return LimitExceeded, false, [];
      }
      var full := Exhausted(enough);
      if full {
        return OutOfMemory, false, [];
      }
      LedOne(Abs(), Register(i));
      byUser := byUser[inst[i].uid := n + 1];
      inst := inst[i := inst[i].(registered := true)];
      return Listening, true, [Register(i)];
    }

    /** In the list of its creator. */
    method EnlistInstance(i: Iid) returns (ok: bool, ghost es: seq<Step>)
      requires Valid() && i in inst && inst[i].local && inst[i].registered
      modifies `inst
      ensures Led(old(Abs()), es, Abs()) && es == (if ok then [Enlist(i)] else []) && (enough ==> ok)
      ensures inst == if ok then old(inst)[i := old(inst[i]).(listed := true)] else old(inst)
    {
      hide Inv, Settled;
      HasIt(Abs(), i, None);
      NothingLed(Abs());
      var full := Exhausted(enough);
      if full {
        return false, [];
      }
      LedOne(Abs(), Enlist(i));
      inst := inst[i := inst[i].(listed := true)];
      return true, [Enlist(i)];
    }

    /** It may fail with the server already there, but not yet its callback. */
    method ListenOn(i: Iid) returns (ok: bool, ghost es: seq<Step>)
      requires Valid() && i in inst && inst[i].local && inst[i].listed && !inst[i].server
      modifies `inst
      ensures Led(old(Abs()), es, Abs()) && (enough ==> ok)
      ensures ok ==> inst == old(inst)[i := old(inst[i]).(server := true, callback := true, refs := old(inst[i]).refs + 1)]
      ensures !ok ==> inst == old(inst) || inst == old(inst)[i := old(inst[i]).(server := true, callback := false)]
    {
      hide Inv, Settled;
      HasIt(Abs(), i, None);
      NothingLed(Abs());
      var full := Exhausted(enough);
      if full {
        return false, [];
      }
      full := Exhausted(enough);
      if full {
        LedOne(Abs(), Listen(i, false));
        inst := inst[i := inst[i].(server := true, callback := false)];
        return false, [Listen(i, false)];
      }
      LedOne(Abs(), Listen(i, true));
      inst := inst[i := inst[i].(server := true, callback := true, refs := inst[i].refs + 1)];
      return true, [Listen(i, true)];
    }

    method AnnounceInstance(i: Iid) returns (ghost es: seq<Step>)
      requires Valid() && i in inst && inst[i].local && inst[i].listed && inst[i].registered && inst[i].callback && !inst[i].announced
      modifies `inst, `announced
      ensures Led(old(Abs()), es, Abs()) && inst == old(inst)[i := old(inst[i]).(announced := true)] && announced == old(announced) + {i}
    {
      hide Inv, Settled;
      HasIt(Abs(), i, None);
      LedOne(Abs(), Announce(i));
      inst := inst[i := inst[i].(announced := true)];
      announced := announced + {i};
      return [Announce(i)];
    }

    method ReleaseInstance(i: Iid) returns (ghost es: seq<Step>)
      requires Valid() && Enabled(Abs(), Release(i))
      modifies `inst, `byUser, `removed
      ensures Led(old(Abs()), es, Abs()) && es == [Release(i)]
      ensures old(inst[i].callback) ==> inst == old(inst)[i := old(inst[i]).(local := false, refs := old(inst[i]).refs - 1)] && removed == old(removed)
      ensures !old(inst[i].announced) ==> inst == old(inst) - {i} && removed == old(removed)
    {
      ReleaseIs(Abs(), i);
      hide Inv, Led, Enabled, Apply, Unref;
      LedOne(Abs(), Release(i));
      inst := inst[i := inst[i].(local := false)];
      UnrefInstance(i, 0);
      return [Release(i)];
    }

    /** Register, enlist, listen and reply; each may fail. */
    method SetUp(i: Iid) returns (r: Added, ok: bool, ghost es: seq<Step>)
      requires Valid() && i in inst && inst[i].local && !inst[i].registered && !inst[i].listed && !inst[i].server && !inst[i].announced
      modifies `inst, `byUser, `announced
      ensures Led(old(Abs()), es, Abs()) && i in inst && inst[i].local && inst == old(inst)[i := inst[i]]
      ensures ok ==> inst[i] == old(inst[i]).(registered := true, listed := true, server := true, callback := true, announced := true, refs := old(inst[i]).refs + 1)
      ensures r == LimitExceeded <==> |Registered(old(inst))| >= maxContainers || perUser <= 0 || CountIn(old(byUser), old(inst)[i].uid) >= perUser
      ensures (ok <==> r == Listening) && (r == OutOfMemory ==> !enough)
      ensures !ok ==> !inst[i].announced && announced == old(announced)
    {
      hide Inv, Settled, Apply, Enabled;
      ghost var s, s1, more := Abs(), Abs(), [];
      r, ok, es := RegisterInstance(i);
      if !ok {
        return;
      }
      r := OutOfMemory;
      s1 := Abs();
      ok, more := EnlistInstance(i);
      LedOn(s, es, s1, more, Abs());
      es := es + more;
      if !ok {
        return;
      }
      s1 := Abs();
      ok, more := ListenOn(i);
      LedOn(s, es, s1, more, Abs());
      es := es + more;
      if !ok {
        return;
      }
      var full := Exhausted(enough);
      if full {
        return r, false, es;   // no memory for the reply
      }
      s1 := Abs();
      more := AnnounceInstance(i);
      LedOn(s, es, s1, more, Abs());
      es := es + more;
      return Listening, true, es;
    }

    /** bus_containers_handle_add_server, once the arguments are known to be good. */
    method AddServer(c: Conn, uid: Uid) returns (r: Added, i: Iid, ghost es: seq<Step>)
      requires Valid()
      modifies this
      ensures Led(old(Abs()), es, Abs())
      ensures removed == old(removed) && slots == old(slots) && (r == OutOfMemory ==> !enough)
      ensures r == Listening ==> i !in old(inst) && inst == old(inst)[i := Instance(uid, c, true, true, true, true, [], true, false, 1)]
      ensures r == LimitExceeded <==> |Registered(old(inst))| >= maxContainers || perUser <= 0 || CountIn(old(byUser), uid) >= perUser
      ensures r != Listening ==> inst == old(inst) && announced == old(announced) && forall u: Uid :: CountIn(byUser, u) == old(CountIn(byUser, u))
    {
      hide Inv, Settled, Apply, Enabled;
      ghost var s := Abs();
      i, es := NewInstance(c, uid);
      ghost var s1 := Abs();
      NothingRegistered(s, i, uid, c);
      ghost var more;
      var ok;
      r, ok, more := SetUp(i);
      LedOn(s, es, s1, more, Abs());
      es := es + more;
      if !ok {
        s1 := Abs();
        more := StopInstanceListening(i, 0);
        LedOn(s, es, s1, more, Abs());
        es := es + more;
      }
      s1 := Abs();
      CanRelease(s1, i);
      more := ReleaseInstance(i);
      LedOn(s, es, s1, more, Abs());
      es := es + more;
      if !ok { SameCounts(s, Abs()); }
    }

    // ---- Connections ----

    method DetachConnection(c: Conn, failures: nat) returns (ghost es: seq<Step>)
      requires Valid() && c in slots && c !in inst[slots[c]].conns
      modifies `inst, `slots, `byUser, `removed
      ensures Led(old(Abs()), es, Abs()) && es == [Detach(c)] && slots == old(slots) - {c}
      ensures var i := old(slots[c]);
              old(inst)[i].refs > 1 ==>
                inst == old(inst)[i := old(inst)[i].(refs := old(inst)[i].refs - 1)] && byUser == old(byUser) && removed == old(removed)
    {
      ghost var s := Abs();
      HasIt(s, slots[c], None);
      hide Inv, Settled;
      LedOne(s, Detach(c));
      var i := slots[c];
      slots := slots - {c};
      UnrefInstance(i, failures);
      return [Detach(c)];
    }

    method DismissConnection(c: Conn) returns (ghost es: seq<Step>)
      requires Valid() && c in slots
      modifies `inst
      ensures Led(old(Abs()), es, Abs()) && es == [Dismiss(c)]
      ensures var i := slots[c];
              i in old(inst) && inst == old(inst)[i := old(inst)[i].(conns := Without(old(inst)[i].conns, c))] && c !in inst[i].conns
    {
      ghost var s := Abs();
      HasIt(s, slots[c], None);
      SoundIt(s, slots[c]);
      hide Inv, Settled;
      LedOne(s, Dismiss(c));
      var i := slots[c];
      WithoutIs(inst[i].conns, c);
      inst := inst[i := inst[i].(conns := Without(inst[i].conns, c))];
      return [Dismiss(c)];
    }

    method AttachConnection(i: Iid, c: Conn) returns (ghost es: seq<Step>)
      requires Valid() && i in inst && inst[i].callback && !inst[i].local && c !in slots
      modifies `inst, `slots
      ensures Led(old(Abs()), es, Abs()) && es == [Attach(i, c)]
      ensures slots == old(slots)[c := i] && inst == old(inst)[i := old(inst[i]).(refs := old(inst[i]).refs + 1)]
      ensures old(inst[i]).refs > 0 && c !in inst[i].conns
    {
      ghost var s := Abs();
      Holders(s, i);
      hide Inv, Settled, Led;
      LedOne(s, Attach(i, c));
      slots := slots[c := i];
      inst := inst[i := inst[i].(refs := inst[i].refs + 1)];
      return [Attach(i, c)];
    }

    method AdmitConnection(i: Iid, c: Conn) returns (ghost es: seq<Step>)
      requires Valid() && i in inst && c in slots && slots[c] == i && c !in inst[i].conns
      modifies `inst
      ensures Led(old(Abs()), es, Abs()) && es == [Admit(i, c)] && inst == old(inst)[i := old(inst[i]).(conns := old(inst[i].conns) + [c])]
    {
      HasIt(Abs(), i, None);
      hide Inv, Settled;
      LedOne(Abs(), Admit(i, c));
      inst := inst[i := inst[i].(conns := inst[i].conns + [c])];
      return [Admit(i, c)];
    }

    /** new_connection_cb; a connection that cannot be admitted leaves no trace. */
    method NewConnection(i: Iid, c: Conn) returns (r: Connected, ghost es: seq<Step>)
      requires Valid() && i in inst && inst[i].callback && !inst[i].local && c !in slots
      modifies `inst, `slots, `byUser, `removed
      ensures Led(old(Abs()), es, Abs())
      ensures byUser == old(byUser) && removed == old(removed) && (r == Lost ==> !enough)
      ensures r == Full <==> |old(inst[i].conns)| >= perContainer
      ensures r == Admitted ==>
                && slots == old(slots)[c := i]
                && inst == old(inst)[i := old(inst[i]).(conns := old(inst[i].conns) + [c], refs := old(inst[i].refs) + 1)]
      ensures r != Admitted ==> slots == old(slots) && inst == old(inst)
    {
      hide Inv, Settled, Apply, Enabled, Led;
      ghost var s := Abs();
      NothingLed(s);
      if |inst[i].conns| >= perContainer {
        return Full, [];
      }
      var full := Exhausted(enough);
      if full {
        return Lost, [];   // the slot cannot be set
      }
      es := AttachConnection(i, c);
      ghost var s1, more := Abs(), [];
      LedWell(s, es, s1);
      var ok;
      ok, more := TryToAdmit(i, c);
      LedOn(s, es, s1, more, Abs());
      es := es + more;
      if ok {
        return Admitted, es;
      }
      LedWell(s, es, Abs());
      s1 := Abs();
      more := DetachConnection(c, 0);
      LedOn(s, es, s1, more, Abs());
      return Lost, es + more;
    }

    /** In the list of its container, unless it cannot be added to it, or the bus does not take the connection. */
    method TryToAdmit(i: Iid, c: Conn) returns (ok: bool, ghost es: seq<Step>)
      requires Valid() && i in inst && c in slots && slots[c] == i && c !in inst[i].conns
      modifies `inst
      ensures Led(old(Abs()), es, Abs()) && (enough ==> ok)
      ensures inst == if ok then old(inst)[i := old(inst[i]).(conns := old(inst[i].conns) + [c])] else old(inst)
    {
      hide Inv, Settled, Apply, Enabled, Led;
      ghost var s := Abs();
      NothingLed(s);
      var full := Exhausted(enough);
      if full {
        return false, [];
      }
      WithoutLast(inst[i].conns, c);
      es := AdmitConnection(i, c);
      full := Exhausted(enough);
      if !full {
        return true, es;
      }
      LedWell(s, es, Abs());
      ghost var s1 := Abs();   // bus_context_add_incoming_connection fails
      ghost var more := DismissConnection(c);
      LedOn(s, es, s1, more, Abs());
      return false, es + more;
    }

    /** The slot of a connection that is freed; as long as it is in the list, the list keeps it. */
    method Finalize(c: Conn, failures: nat) returns (ghost es: seq<Step>)
      requires Valid() && (c in slots ==> c !in inst[slots[c]].conns)
      modifies `inst, `slots, `byUser, `removed
      ensures Led(old(Abs()), es, Abs()) && slots == old(slots) - {c}
      ensures es == if c in old(slots) then [Detach(c)] else []
    {
      NothingLed(Abs());
      if c in slots {
        es := DetachConnection(c, failures);
      } else {
        es := [];
      }
    }

    /** bus_containers_remove_connection: what c has created stops listening, and c leaves its own container. */
    method RemoveConnection(c: Conn, failures: nat) returns (ghost es: seq<Step>)
      requires Valid()
      modifies `inst, `byUser, `removed
      ensures Led(old(Abs()), es, Abs())
      ensures forall i | i in inst && i in old(inst) && old(inst)[i].listed && old(inst)[i].creator == c :: !inst[i].server
      ensures c in slots ==> slots[c] in inst && c !in inst[slots[c]].conns
      ensures forall k | 0 <= k < |es| ::
                es[k] == Dismiss(c) || (es[k].StopListening? && es[k].i in old(inst) && old(inst)[es[k].i].listed && old(inst)[es[k].i].creator == c)
      ensures forall i | i in old(inst) && !(old(inst)[i].listed && old(inst)[i].creator == c) && (c in slots ==> slots[c] != i) ::
                i in inst && inst[i] == old(inst)[i]
    {
      hide Inv, Settled, Apply, Enabled;
      ghost var s := Abs();
      es := StopAll((set i | i in inst && inst[i].listed && inst[i].creator == c), failures);
      if c in slots {
        ghost var s1 := Abs();
        DismissServers(s1, c);
        ghost var more := DismissConnection(c);
        LedOn(s, es, s1, more, Abs());
        es := es + more;
      }
    }

    method StopAll(all: set<Iid>, failures: nat) returns (ghost es: seq<Step>)
      requires Valid() && all <= inst.Keys
      modifies `inst, `byUser, `removed
      ensures Led(old(Abs()), es, Abs())
      ensures forall i | i in inst && i in all :: !inst[i].server
      ensures forall k | 0 <= k < |es| :: es[k].StopListening? && es[k].i in all
      ensures forall i | i in old(inst) && i !in all :: i in inst && inst[i] == old(inst)[i]
    {
      hide Inv, Settled, Apply, Enabled;
      ghost var s := Abs();
      NothingLed(s);
      es := [];
      var todo := all;
      while todo != {}
        invariant Led(s, es, Abs()) && todo <= all && todo <= inst.Keys
        invariant forall i | i in inst && i in all && i !in todo :: !inst[i].server
        invariant forall k | 0 <= k < |es| :: es[k].StopListening? && es[k].i in all
        invariant forall i | i in old(inst) && i !in all :: i in inst && inst[i] == old(inst)[i]
        decreases todo
      {
        var i :| i in todo;
        ghost var s1 := Abs();
        StopOnly(s1, i);
        ghost var more := StopInstanceListening(i, failures);
        LedOn(s, es, s1, more, Abs());
        es := es + more;
        todo := todo - {i};
      }
    }
  }

  lemma {:induction false} WithoutLast(q: seq<Conn>, c: Conn)
    requires c !in q
    ensures Without(q + [c], c) == q
  {
    if q != [] {
      assert (q + [c])[1..] == q[1..] + [c];
      WithoutLast(q[1..], c);
    }
  }

  /** The number of the next instance is not in use. */
  lemma UnusedId(s: State)
    requires Inv(s, None)
    ensures s.nextId !in s.inst
  {
  }

  lemma SameCounts(s: State, s': State)
    requires Inv(s, None) && Inv(s', None) && s'.inst == s.inst
    ensures forall u: Uid :: CountIn(s'.byUser, u) == CountIn(s.byUser, u)
  {
    forall u: Uid ensures CountIn(s'.byUser, u) == CountIn(s.byUser, u) {
      assert CountIn(s.byUser, u) == |RegisteredOf(s.inst, u)|;
    }
  }

  lemma NothingRegistered(s: State, i: Iid, uid: Uid, c: Conn)
    ensures i !in s.inst ==> Registered(s.inst[i := Instance(uid, c, false, false, false, false, [], false, true, 1)]) == Registered(s.inst)
  {
  }

  /** Stopping one instance changes no other. */
  lemma StopOnly(s: State, i: Iid)
    requires Inv(s, None) && i in s.inst
    ensures Runnable(s, [StopListening(i)])
    ensures var s' := Run(s, [StopListening(i)]);
            && (forall j | j in s.inst && j != i :: j in s'.inst && s'.inst[j] == s.inst[j])
            && (forall j | j in s'.inst :: j in s.inst)
            && (i in s'.inst ==> !s'.inst[i].server)
  {
    HasIt(s, i, None);
    assert [StopListening(i)][1..] == [];
    var s1 := Stopped(s, i);
    assert Runnable(s1, []) && Run(s1, []) == s1;
  }

  lemma DismissServers(s: State, c: Conn)
    requires c in s.slots && Inv(s, None)
    ensures Runnable(s, [Dismiss(c)])
    ensures var s' := Run(s, [Dismiss(c)]); forall j | j in s'.inst :: j in s.inst && s'.inst[j].server == s.inst[j].server
  {
    HasIt(s, s.slots[c], None);
    hide Inv;
    assert [Dismiss(c)][1..] == [];
    var s1 := Apply(s, Dismiss(c));
    assert Runnable(s1, []) && Run(s1, []) == s1;
  }
}
