/**
 Container instances (bus/containers.c).

 A BusContainerInstance is kept alive by one reference of its server's new-connection callback,
 one for every connection whose data slot names it, and one while AddServer is at work on it.
*/
module Containers {
  import opened BusTypes

  type Iid = nat   // an instance, and the number in its object path
  type Uid = nat

  datatype Instance = Instance(
    uid: Uid,
    creator: Conn,
    registered: bool,    // in instances_by_path, and counted for its user
    listed: bool,        // in the list of its creator
    server: bool,
    callback: bool,      // the server's callback holds a reference
    conns: seq<Conn>,
    announced: bool,
    local: bool,         // AddServer holds a reference
    refs: int)

  datatype State = State(
    maxContainers: nat,
    perUser: int,
    inst: map<Iid, Instance>,
    slots: map<Conn, Iid>,     // contained_data_slot
    byUser: map<Uid, nat>,     // n_containers_by_user
    removed: seq<Iid>,         // InstanceRemoved signals, in order
    announced: set<Iid>,       // every instance that was ever announced
    nextId: Iid)

  type Instances = map<Iid, Instance>

  function Registered(inst: Instances): set<Iid> { set i | i in inst && inst[i].registered }

  function RegisteredOf(inst: Instances, u: Uid): set<Iid> { set i | i in inst && inst[i].registered && inst[i].uid == u }

  function SlotsOf(slots: map<Conn, Iid>, i: Iid): set<Conn> { set c | c in slots && slots[c] == i }

  function CountIn(byUser: map<Uid, nat>, u: Uid): nat { if u in byUser then byUser[u] else 0 }

  function Count(s: State, u: Uid): nat { CountIn(s.byUser, u) }

  /** The last reference is gone. */
  function Freed(s: State, i: Iid): State
    requires i in s.inst && (s.inst[i].registered ==> Count(s, s.inst[i].uid) > 0)
  {
    var x := s.inst[i];
    s.(inst := s.inst - {i},
    byUser := if x.registered then s.byUser[x.uid := Count(s, x.uid) - 1] else s.byUser,
    removed := if x.announced then s.removed + [i] else s.removed)
  }

  function Unref(s: State, i: Iid): State
    requires i in s.inst && (s.inst[i].registered ==> Count(s, s.inst[i].uid) > 0)
  {
    if s.inst[i].refs > 1 then s.(inst := s.inst[i := s.inst[i].(refs := s.inst[i].refs - 1)]) else Freed(s, i)
  }

  function Set(s: State, i: Iid, x: Instance): State { s.(inst := s.inst[i := x]) }

  datatype Step =
    | Create(creator: Conn, uid: Uid)
    | Register(i: Iid)
    | Enlist(i: Iid)
    | Listen(i: Iid, ready: bool)      // ready: up to the callback
    | Announce(i: Iid)
    | StopListening(i: Iid)
    | Release(i: Iid)                  // AddServer lets go
    | Attach(i: Iid, c: Conn)          // the data slot of a new connection
    | Admit(i: Iid, c: Conn)           // and its place in the list
    | Dismiss(c: Conn)                 // out of the list
    | Detach(c: Conn)                  // and out of the slot

  predicate Has(s: State, i: Iid) { i in s.inst && (s.inst[i].registered ==> Count(s, s.inst[i].uid) > 0) }

  predicate Enabled(s: State, e: Step) {
    match e
    case Create(_, _) => true
    case Register(i) =>
      && Has(s, i) && s.inst[i].local && !s.inst[i].registered
      && |Registered(s.inst)| < s.maxContainers && s.perUser > 0 && Count(s, s.inst[i].uid) < s.perUser
    case Enlist(i) => Has(s, i) && s.inst[i].local && s.inst[i].registered
    case Listen(i, _) => Has(s, i) && s.inst[i].local && s.inst[i].listed && !s.inst[i].server
    case Announce(i) => Has(s, i) && s.inst[i].local && s.inst[i].listed && s.inst[i].registered && s.inst[i].callback && !s.inst[i].announced
    case StopListening(i) => Has(s, i)
    case Release(i) => Has(s, i) && s.inst[i].local && (s.inst[i].announced || !s.inst[i].server) && (s.inst[i].server ==> s.inst[i].callback)
    case Attach(i, c) => Has(s, i) && s.inst[i].callback && !s.inst[i].local && c !in s.slots
    case Admit(i, c) => Has(s, i) && c in s.slots && s.slots[c] == i && c !in s.inst[i].conns
    case Dismiss(c) => c in s.slots && Has(s, s.slots[c])
    case Detach(c) => c in s.slots && Has(s, s.slots[c]) && c !in s.inst[s.slots[c]].conns
  }

  function Without(q: seq<Conn>, c: Conn): seq<Conn> {
    if q == [] then [] else if q[0] == c then q[1..] else [q[0]] + Without(q[1..], c)
  }

  function Apply(s: State, e: Step): State
    requires Enabled(s, e)
  {
    match e
    case Create(c, u) => Set(s, s.nextId, Instance(u, c, false, false, false, false, [], false, true, 1)).(nextId := s.nextId + 1)
    case Register(i) =>
      Set(s, i, s.inst[i].(registered := true)).(byUser := s.byUser[s.inst[i].uid := Count(s, s.inst[i].uid) + 1])
    case Enlist(i) => Set(s, i, s.inst[i].(listed := true))
    case Listen(i, ready) =>
      Set(s, i, s.inst[i].(server := true, callback := ready, refs := s.inst[i].refs + if ready then 1 else 0))
    case Announce(i) => Set(s, i, s.inst[i].(announced := true)).(announced := s.announced + {i})
    case StopListening(i) => Stopped(s, i)
    case Release(i) => Unref(Set(s, i, s.inst[i].(local := false)), i)
    case Attach(i, c) => Set(s, i, s.inst[i].(refs := s.inst[i].refs + 1)).(slots := s.slots[c := i])
    case Admit(i, c) => Set(s, i, s.inst[i].(conns := s.inst[i].conns + [c]))
    case Dismiss(c) => Set(s, s.slots[c], s.inst[s.slots[c]].(conns := Without(s.inst[s.slots[c]].conns, c)))
    case Detach(c) => Unref(s.(slots := s.slots - {c}), s.slots[c])
  }

  function Stopped(s: State, i: Iid): State
    requires Has(s, i)
  {
    var s1 := Set(s, i, s.inst[i].(server := false, callback := false));
    if s.inst[i].callback then Unref(s1, i) else s1
  }

  predicate Runnable(s: State, es: seq<Step>)
    decreases |es|
  {
    es == [] || (Enabled(s, es[0]) && Runnable(Apply(s, es[0]), es[1..]))
  }

  function Run(s: State, es: seq<Step>): State
    requires Runnable(s, es)
    decreases |es|
  {
    if es == [] then s else Run(Apply(s, es[0]), es[1..])
  }

  function Initial(maxContainers: nat, perUser: int): State {
    State(maxContainers, perUser, map[], map[], map[], [], {}, 0)
  }

  // ---- Invariant ----

  function One(b: bool): nat { if b then 1 else 0 }

  /** One reference for AddServer, one for the callback, one for every slot, and one more if it is about to be let go of. */
  ghost predicate Referenced(x: Instance, i: Iid, slots: map<Conn, Iid>, owed: nat) {
    x.refs == One(x.local) + One(x.callback) + |SlotsOf(slots, i)| + owed && x.refs > 0
  }

  ghost predicate Sound(x: Instance, i: Iid, slots: map<Conn, Iid>) {
    && (x.callback ==> x.server) && (x.server ==> x.callback || x.local)
    && (x.listed ==> x.registered)
    && (!x.announced ==> SlotsOf(slots, i) == {})
    && (x.announced ==> x.registered && x.listed)
    && NoDuplicates(x.conns) && forall c | c in x.conns :: c in slots && slots[c] == i
  }

  ghost predicate Alive(inst: Instances, slots: map<Conn, Iid>, owed: Option<Iid>) {
    && (forall i | i in inst :: Sound(inst[i], i, slots) && Referenced(inst[i], i, slots, One(owed == Some(i))))
    && (forall c | c in slots :: slots[c] in inst)
  }

  ghost predicate Counted(inst: Instances, byUser: map<Uid, nat>, perUser: int) {
    forall u :: CountIn(byUser, u) == |RegisteredOf(inst, u)| && (CountIn(byUser, u) > 0 ==> CountIn(byUser, u) <= perUser)
  }

  ghost predicate Signalled(inst: Instances, removed: seq<Iid>, announced: set<Iid>, nextId: Iid) {
    && NoDuplicates(removed)
    && (forall i | i in removed :: i in announced && i !in inst)
    && (forall i | i in inst :: i < nextId && (inst[i].announced <==> i in announced))
    && (forall i | i in announced :: (i in inst || i in removed) && i < nextId)
  }

  ghost predicate Inv(s: State, owed: Option<Iid>) {
    && Alive(s.inst, s.slots, owed)
    && Counted(s.inst, s.byUser, s.perUser) && |Registered(s.inst)| <= s.maxContainers
    && Signalled(s.inst, s.removed, s.announced, s.nextId)
  }

  // ---- Alive ----

  /** One instance changes, and no slot does. */
  lemma SetAlive(inst: Instances, slots: map<Conn, Iid>, i: Iid, x: Instance, owed: Option<Iid>)
    requires Alive(inst, slots, None) && (owed.Some? ==> owed.value == i)
    requires Sound(x, i, slots) && Referenced(x, i, slots, One(owed.Some?))
    ensures Alive(inst[i := x], slots, owed)
  {
    hide Sound, Referenced;
  }

  lemma SlotElsewhere(x: Instance, j: Iid, slots: map<Conn, Iid>, i: Iid, c: Conn)
    requires Sound(x, j, slots) && Referenced(x, j, slots, 0) && c !in slots && j != i
    ensures Sound(x, j, slots[c := i]) && Referenced(x, j, slots[c := i], 0)
  {
    assert SlotsOf(slots[c := i], j) == SlotsOf(slots, j);
  }

  lemma SlotHere(x: Instance, slots: map<Conn, Iid>, i: Iid, c: Conn)
    requires Sound(x, i, slots) && Referenced(x, i, slots, 0) && c !in slots && x.announced
    ensures Sound(x.(refs := x.refs + 1), i, slots[c := i]) && Referenced(x.(refs := x.refs + 1), i, slots[c := i], 0)
  {
    assert SlotsOf(slots[c := i], i) == SlotsOf(slots, i) + {c};
  }

  lemma AttachAlive(inst: Instances, slots: map<Conn, Iid>, i: Iid, c: Conn)
    requires Alive(inst, slots, None) && i in inst && inst[i].announced && c !in slots
    ensures Alive(inst[i := inst[i].(refs := inst[i].refs + 1)], slots[c := i], None)
  {
    hide Sound, Referenced;
    forall j | j in inst && j != i ensures Sound(inst[j], j, slots[c := i]) && Referenced(inst[j], j, slots[c := i], 0) {
      SlotElsewhere(inst[j], j, slots, i, c);
    }
    SlotHere(inst[i], slots, i, c);
  }

  lemma DetachAlive(inst: Instances, slots: map<Conn, Iid>, c: Conn)
    requires Alive(inst, slots, None) && c in slots && c !in inst[slots[c]].conns
    ensures Alive(inst, slots - {c}, Some(slots[c]))
  {
    var i := slots[c];
    forall j | j in inst ensures Sound(inst[j], j, slots - {c}) && Referenced(inst[j], j, slots - {c}, One(j == i)) {
      assert Sound(inst[j], j, slots) && Referenced(inst[j], j, slots, 0);
      assert SlotsOf(slots - {c}, j) == if j == i then SlotsOf(slots, j) - {c} else SlotsOf(slots, j);
    }
  }

  lemma LowerAlive(inst: Instances, slots: map<Conn, Iid>, i: Iid)
    requires Alive(inst, slots, Some(i)) && i in inst && inst[i].refs > 1
    ensures Alive(inst[i := inst[i].(refs := inst[i].refs - 1)], slots, None)
  {
    assert Sound(inst[i], i, slots) && Referenced(inst[i], i, slots, 1);
    var inst' := inst[i := inst[i].(refs := inst[i].refs - 1)];
    forall j | j in inst' ensures Sound(inst'[j], j, slots) && Referenced(inst'[j], j, slots, 0) {
      assert Sound(inst[j], j, slots) && Referenced(inst[j], j, slots, One(j == i));
    }
  }

  /** An instance is freed only without a server and without connections. */
  lemma FreeAlive(inst: Instances, slots: map<Conn, Iid>, i: Iid)
    requires Alive(inst, slots, Some(i)) && i in inst && inst[i].refs == 1
    ensures !inst[i].server && !inst[i].local && inst[i].conns == [] && SlotsOf(slots, i) == {}
    ensures Alive(inst - {i}, slots, None)
  {
    assert Sound(inst[i], i, slots) && Referenced(inst[i], i, slots, 1);
    assert SlotsOf(slots, i) == {};
    assert forall c | c in slots && slots[c] == i :: c in SlotsOf(slots, i);
    NoConns(inst[i].conns, SlotsOf(slots, i));
  }

  lemma NoConns(conns: seq<Conn>, all: set<Conn>)
    requires forall c | c in conns :: c in all
    ensures conns != [] ==> all != {}
  {
    if conns != [] { assert conns[0] in all; }
  }

  // ---- Counts and signals ----

  /** Changes to an instance that the counts and the signals do not see. */
  predicate SameStanding(x: Instance, y: Instance) {
    x.uid == y.uid && x.registered == y.registered && x.announced == y.announced
  }

  lemma StandingKeeps(s: State, i: Iid, x: Instance)
    requires i in s.inst && SameStanding(s.inst[i], x) && Counted(s.inst, s.byUser, s.perUser) && Signalled(s.inst, s.removed, s.announced, s.nextId)
    ensures Counted(s.inst[i := x], s.byUser, s.perUser) && Registered(s.inst[i := x]) == Registered(s.inst)
    ensures Signalled(s.inst[i := x], s.removed, s.announced, s.nextId)
  {
    forall u: Uid ensures RegisteredOf(s.inst[i := x], u) == RegisteredOf(s.inst, u) {}
  }

  lemma HasIt(s: State, i: Iid, owed: Option<Iid>)
    requires Inv(s, owed) && i in s.inst
    ensures Has(s, i)
  {
    if s.inst[i].registered { assert i in RegisteredOf(s.inst, s.inst[i].uid); }
  }

  lemma FreedCounts(s: State, i: Iid)
    requires Counted(s.inst, s.byUser, s.perUser) && Has(s, i)
    ensures Counted(s.inst - {i}, Freed(s, i).byUser, s.perUser) && Registered(s.inst - {i}) <= Registered(s.inst)
  {
    forall u: Uid ensures RegisteredOf(s.inst - {i}, u) == RegisteredOf(s.inst, u) - {i} {}
  }

  lemma UnrefSettles(s: State, i: Iid)
    requires Inv(s, Some(i)) && Has(s, i)
    ensures Inv(Unref(s, i), None)
  {
    hide Counted, Alive;
    assert s.inst[i].refs > 0 by { assert Alive(s.inst, s.slots, Some(i)); RefsPositive(s, i); }
    if s.inst[i].refs > 1 {
      LowerAlive(s.inst, s.slots, i);
      StandingKeeps(s, i, s.inst[i].(refs := s.inst[i].refs - 1));
    } else {
      FreeAlive(s.inst, s.slots, i);
      FreedCounts(s, i);
      SubsetSize(Registered(s.inst - {i}), Registered(s.inst));
    }
  }

  lemma RefsPositive(s: State, i: Iid)
    requires Alive(s.inst, s.slots, Some(i)) && i in s.inst
    ensures s.inst[i].refs > 0
  {
    assert Referenced(s.inst[i], i, s.slots, 1);
  }

  lemma SetKeeps(s: State, i: Iid, x: Instance, owed: Option<Iid>)
    requires Inv(s, None) && i in s.inst && SameStanding(s.inst[i], x) && (owed.Some? ==> owed.value == i)
    requires Sound(x, i, s.slots) && Referenced(x, i, s.slots, One(owed.Some?))
    ensures Inv(Set(s, i, x), owed)
  {
    hide Counted, Signalled, Alive, Sound, Referenced;
    StandingKeeps(s, i, x);
    SetAlive(s.inst, s.slots, i, x, owed);
  }

  lemma SoundIt(s: State, i: Iid)
    requires Inv(s, None) && i in s.inst
    ensures Sound(s.inst[i], i, s.slots) && Referenced(s.inst[i], i, s.slots, 0)
  {
  }

  lemma StopKeeps(s: State, i: Iid)
    requires Inv(s, None) && i in s.inst
    ensures Has(s, i) && Inv(Stopped(s, i), None)
  {
    HasIt(s, i, None);
    SoundIt(s, i);
    hide Inv;
    var x := s.inst[i].(server := false, callback := false);
    var owed := if s.inst[i].callback then Some(i) else None;
    SetKeeps(s, i, x, owed);
    if s.inst[i].callback { UnrefSettles(Set(s, i, x), i); }
  }

  lemma ReleaseKeeps(s: State, i: Iid)
    requires Inv(s, None) && Enabled(s, Release(i))
    ensures Inv(Apply(s, Release(i)), None)
  {
    SoundIt(s, i);
    LetGo(s.inst[i], i, s.slots);
    hide Inv, Sound, Referenced, Unref, NoDuplicates;
    var x := s.inst[i].(local := false);
    SetKeeps(s, i, x, Some(i));
    UnrefSettles(Set(s, i, x), i);
  }

  /** AddServer lets go of its instance, whose reference is owed from then on. */
  lemma LetGo(x: Instance, i: Iid, slots: map<Conn, Iid>)
    requires Sound(x, i, slots) && Referenced(x, i, slots, 0) && x.local && (x.server ==> x.callback)
    ensures var y := x.(local := false); Sound(y, i, slots) && Referenced(y, i, slots, 1) && SameStanding(x, y)
  {
    hide NoDuplicates, SlotsOf;
  }

  lemma CreateCounts(s: State, x: Instance)
    requires Counted(s.inst, s.byUser, s.perUser) && Signalled(s.inst, s.removed, s.announced, s.nextId) && !x.registered && !x.announced
    ensures var inst' := s.inst[s.nextId := x];
            && Counted(inst', s.byUser, s.perUser) && Registered(inst') == Registered(s.inst)
            && Signalled(inst', s.removed, s.announced, s.nextId + 1)
  {
    forall v: Uid ensures RegisteredOf(s.inst[s.nextId := x], v) == RegisteredOf(s.inst, v) {}
  }

  lemma CreateKeeps(s: State, c: Conn, u: Uid)
    requires Inv(s, None)
    ensures Inv(Apply(s, Create(c, u)), None)
  {
    var x := Instance(u, c, false, false, false, false, [], false, true, 1);
    CreateCounts(s, x);
    assert SlotsOf(s.slots, s.nextId) == {};
    SetAlive(s.inst, s.slots, s.nextId, x, None);
  }

  lemma RegisteredMore(inst: Instances, i: Iid, v: Uid)
    requires i in inst && !inst[i].registered
    ensures var inst' := inst[i := inst[i].(registered := true)];
            && |Registered(inst')| == |Registered(inst)| + 1
            && |RegisteredOf(inst', v)| == |RegisteredOf(inst, v)| + One(v == inst[i].uid)
  {
    var inst' := inst[i := inst[i].(registered := true)];
    assert Registered(inst') == Registered(inst) + {i};
    assert RegisteredOf(inst', v) == if v == inst[i].uid then RegisteredOf(inst, v) + {i} else RegisteredOf(inst, v);
  }

  lemma RegisterCounts(s: State, i: Iid)
    requires Counted(s.inst, s.byUser, s.perUser) && Enabled(s, Register(i))
    ensures var s' := Apply(s, Register(i)); Counted(s'.inst, s'.byUser, s'.perUser) && |Registered(s'.inst)| <= s.maxContainers
  {
    hide Registered, RegisteredOf;
    RegisteredMore(s.inst, i, 0);
    var s' := Apply(s, Register(i));
    forall v: Uid ensures CountIn(s'.byUser, v) == |RegisteredOf(s'.inst, v)| && (CountIn(s'.byUser, v) > 0 ==> CountIn(s'.byUser, v) <= s.perUser) {
      RegisteredMore(s.inst, i, v);
      assert CountIn(s.byUser, v) == |RegisteredOf(s.inst, v)|;
    }
  }

  lemma RegisterKeeps(s: State, i: Iid)
    requires Inv(s, None) && Enabled(s, Register(i))
    ensures Inv(Apply(s, Register(i)), None)
  {
    RegisterCounts(s, i);
    SoundIt(s, i);
    hide Alive, Counted;
    SetAlive(s.inst, s.slots, i, s.inst[i].(registered := true), None);
  }

  lemma AnnounceKeeps(s: State, i: Iid)
    requires Inv(s, None) && Enabled(s, Announce(i))
    ensures Inv(Apply(s, Announce(i)), None)
  {
    SoundIt(s, i);
    hide Alive;
    var inst' := s.inst[i := s.inst[i].(announced := true)];
    SetAlive(s.inst, s.slots, i, inst'[i], None);
    assert Registered(inst') == Registered(s.inst);
    forall v: Uid ensures RegisteredOf(inst', v) == RegisteredOf(s.inst, v) {}
  }

  lemma AttachKeeps(s: State, i: Iid, c: Conn)
    requires Inv(s, None) && Enabled(s, Attach(i, c)) && s.inst[i].announced
    ensures Inv(Apply(s, Attach(i, c)), None)
  {
    hide Alive, Counted, Signalled;
    StandingKeeps(s, i, s.inst[i].(refs := s.inst[i].refs + 1));
    AttachAlive(s.inst, s.slots, i, c);
  }

  lemma DetachKeeps(s: State, c: Conn)
    requires Inv(s, None) && Enabled(s, Detach(c))
    ensures Inv(Apply(s, Detach(c)), None)
  {
    hide Alive, Counted, Signalled;
    DetachAlive(s.inst, s.slots, c);
    UnrefSettles(s.(slots := s.slots - {c}), s.slots[c]);
  }

  lemma {:induction false} WithoutIs(q: seq<Conn>, c: Conn)
    requires NoDuplicates(q)
    ensures NoDuplicates(Without(q, c)) && forall d :: d in Without(q, c) <==> d in q && d != c
  {
    if q != [] {
      assert NoDuplicates(q[1..]) && q[0] !in q[1..];
      WithoutIs(q[1..], c);
    }
  }

  lemma DismissKeeps(s: State, c: Conn)
    requires Inv(s, None) && c in s.slots && s.slots[c] in s.inst
    ensures Inv(Set(s, s.slots[c], s.inst[s.slots[c]].(conns := Without(s.inst[s.slots[c]].conns, c))), None)
  {
    var i := s.slots[c];
    SoundIt(s, i);
    hide Inv;
    WithoutIs(s.inst[i].conns, c);
    hide Without, SlotsOf, NoDuplicates, Referenced;
    var x := s.inst[i].(conns := Without(s.inst[i].conns, c));
    assert Referenced(x, i, s.slots, 0) by { SameReferences(s.inst[i], x, i, s.slots); }
    SetKeeps(s, i, x, None);
  }

  lemma SameReferences(x: Instance, y: Instance, i: Iid, slots: map<Conn, Iid>)
    requires Referenced(x, i, slots, 0) && y.refs == x.refs && y.local == x.local && y.callback == x.callback
    ensures Referenced(y, i, slots, 0)
  {
  }

  lemma SmallStepKeeps(s: State, e: Step)
    requires Inv(s, None) && Enabled(s, e) && (e.Enlist? || e.Listen? || e.Admit?)
    ensures Inv(Apply(s, e), None)
  {
    SoundIt(s, e.i);
    hide Inv;
    SetKeeps(s, e.i, Apply(s, e).inst[e.i], None);
  }

  /** Whatever AddServer has let go of has been announced. */
  ghost predicate Settled(s: State) { forall i | i in s.inst :: s.inst[i].local || s.inst[i].announced }

  lemma StepKeepsInv(s: State, e: Step)
    requires Inv(s, None) && Settled(s) && Enabled(s, e)
    ensures Inv(Apply(s, e), None)
  {
    hide Inv;
    match e {
      case Create(c, u) => CreateKeeps(s, c, u);
      case Register(i) => RegisterKeeps(s, i);
      case Announce(i) => AnnounceKeeps(s, i);
      case StopListening(i) => StopKeeps(s, i);
      case Release(i) => ReleaseKeeps(s, i);
      case Attach(i, c) => AttachKeeps(s, i, c);
      case Detach(c) => DetachKeeps(s, c);
      case Dismiss(c) => DismissKeeps(s, c);
      case _ => SmallStepKeeps(s, e);
    }
  }

  lemma SettledUnref(s: State, i: Iid)
    requires Has(s, i) && forall j | j in s.inst && (j != i || s.inst[i].refs > 1) :: s.inst[j].local || s.inst[j].announced
    ensures Settled(Unref(s, i))
  {
  }

  lemma ReleaseSettles(s: State, i: Iid)
    requires Inv(s, None) && Settled(s) && Enabled(s, Release(i))
    ensures Settled(Unref(Set(s, i, s.inst[i].(local := false)), i))
  {
    SoundIt(s, i);
    hide Inv;
    SettledUnref(Set(s, i, s.inst[i].(local := false)), i);
  }

  lemma StepSettles(s: State, e: Step)
    requires Inv(s, None) && Settled(s) && Enabled(s, e)
    ensures Settled(Apply(s, e))
  {
    hide Inv, Unref;
    match e {
      case Release(i) => ReleaseSettles(s, i);
      case StopListening(i) => SettledUnref(Set(s, i, s.inst[i].(server := false, callback := false)), i);
      case Detach(c) => SettledUnref(s.(slots := s.slots - {c}), s.slots[c]);
      case _ =>
    }
  }

  lemma StepKeepsLimits(s: State, e: Step)
    requires Enabled(s, e)
    ensures Apply(s, e).maxContainers == s.maxContainers && Apply(s, e).perUser == s.perUser
  {
  }

  lemma {:induction false} EveryRunKeepsInv(s: State, es: seq<Step>)
    requires Inv(s, None) && Settled(s) && Runnable(s, es)
    ensures Inv(Run(s, es), None) && Settled(Run(s, es))
    ensures Run(s, es).maxContainers == s.maxContainers && Run(s, es).perUser == s.perUser
    decreases |es|
  {
    if es != [] {
      hide Inv, Settled, Apply, Enabled;
      StepKeepsInv(s, es[0]);
      StepSettles(s, es[0]);
      StepKeepsLimits(s, es[0]);
      EveryRunKeepsInv(Apply(s, es[0]), es[1..]);
    }
  }
}
