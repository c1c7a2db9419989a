/**
 The index of service files (bus/activation.c): one table from service names to entries, and
 for every directory a table from file names to entries.
*/
module ServiceFiles {
  import opened BusTypes

  type Dir = nat
  type Eid = int   // identity of a BusActivationEntry

  /** The keys of a service file that is complete. */
  datatype Contents = Contents(name: string, exec: string)

  datatype Entry = Entry(name: string, exec: string, dir: Dir, file: string, mtime: nat)

  datatype Index = Index(
    heap: map<Eid, Entry>,
    names: map<string, Eid>,
    dirs: map<Dir, map<string, Eid>>,
    strict: set<Dir>,   // directories whose files must be named after their services
    nextEid: Eid)

  datatype Event =
    | Add(d: Dir, f: string, c: Contents, mtime: nat)
    | Rewrite(d: Dir, f: string, c: Contents, mtime: nat, memory: bool)   // update_desktop_file_entry, for a known file
    | Delete(d: Dir, f: string)
    | Reload(ds: set<Dir>, strict: set<Dir>)

  predicate Has(x: Index, d: Dir, f: string) { d in x.dirs && f in x.dirs[d] && x.dirs[d][f] in x.heap }

  function At(x: Index, d: Dir, f: string): Eid
    requires Has(x, d, f)
  {
    x.dirs[d][f]
  }

  predicate NamedWell(x: Index, d: Dir, f: string, c: Contents) { f == c.name + ".service" || d !in x.strict }

  predicate Enabled(x: Index, e: Event) {
    match e
    case Add(d, f, c, _) => d in x.dirs && f !in x.dirs[d] && NamedWell(x, d, f, c) && c.name !in x.names
    case Rewrite(d, f, _, _, _) => Has(x, d, f)
    case Delete(d, f) => Has(x, d, f)
    case Reload(_, _) => true
  }

  function Unfiled(x: Index, d: Dir, f: string): Index
    requires d in x.dirs
  {
    x.(dirs := x.dirs[d := x.dirs[d] - {f}])
  }

  /** The name of an entry is given up by name, whoever it is registered for. */
  function Unregistered(x: Index, d: Dir, f: string): Index
    requires Has(x, d, f)
  {
    x.(names := x.names - {x.heap[At(x, d, f)].name})
  }

  function Apply(x: Index, e: Event): Index
    requires Enabled(x, e)
  {
    match e
    case Add(d, f, c, mtime) =>
      x.(heap := x.heap[x.nextEid := Entry(c.name, c.exec, d, f, mtime)], names := x.names[c.name := x.nextEid],
      dirs := x.dirs[d := x.dirs[d][f := x.nextEid]], nextEid := x.nextEid + 1)
    case Rewrite(d, f, c, mtime, memory) => ApplyRewrite(x, d, f, c, mtime, memory)
    case Delete(d, f) => Unfiled(Unregistered(x, d, f), d, f)
    case Reload(ds, strict) => Index(x.heap, map[], map d | d in ds :: map[], strict, x.nextEid)
  }

  function ApplyRewrite(x: Index, d: Dir, f: string, c: Contents, mtime: nat, memory: bool): Index
    requires Has(x, d, f)
  {
    var e := At(x, d, f);
    var x1 := Unregistered(x, d, f);
    if c.name in x1.names then x1   // taken by another file: nothing else changes
    else
      var x2 := x1.(heap := x.heap[e := x.heap[e].(name := c.name, exec := c.exec)]);
      if memory then x2.(heap := x2.heap[e := x2.heap[e].(mtime := mtime)], names := x2.names[c.name := e])
      else Unfiled(x2, d, f)
  }

  predicate Runnable(x: Index, es: seq<Event>)
    decreases |es|
  {
    es == [] || (Enabled(x, es[0]) && Runnable(Apply(x, es[0]), es[1..]))
  }

  function Run(x: Index, es: seq<Event>): Index
    requires Runnable(x, es)
    decreases |es|
  {
    if es == [] then x else Run(Apply(x, es[0]), es[1..])
  }

  const EMPTY := Index(map[], map[], map[], {}, 0)

  // ---- The two levels agree ----

  /** An entry is known by its own name, and it is also in its own directory under its own file name. */
  ghost predicate Named(x: Index) {
    forall n | n in x.names ::
      && x.names[n] in x.heap && x.heap[x.names[n]].name == n
      && Has(x, x.heap[x.names[n]].dir, x.heap[x.names[n]].file)
      && At(x, x.heap[x.names[n]].dir, x.heap[x.names[n]].file) == x.names[n]
  }

  ghost predicate Filed(x: Index) {
    && (forall d, f | d in x.dirs && f in x.dirs[d] :: x.dirs[d][f] in x.heap && x.heap[x.dirs[d][f]].dir == d && x.heap[x.dirs[d][f]].file == f)
    && (forall e | e in x.heap :: e < x.nextEid)
  }

  ghost predicate Inv(x: Index) { Named(x) && Filed(x) }

  lemma UnregisteredKeeps(x: Index, d: Dir, f: string)
    requires Inv(x) && Has(x, d, f)
    ensures Inv(Unregistered(x, d, f))
    ensures forall n | n in Unregistered(x, d, f).names :: x.names[n] != At(x, d, f)
  {
    forall n | n in Unregistered(x, d, f).names ensures x.names[n] != At(x, d, f) {
      assert x.heap[x.names[n]].name == n;
    }
  }

  lemma UnfiledKeeps(x: Index, d: Dir, f: string)
    requires Inv(x) && Has(x, d, f) && forall n | n in x.names :: x.names[n] != At(x, d, f)
    ensures Inv(Unfiled(x, d, f))
  {
    var x' := Unfiled(x, d, f);
    forall n | n in x'.names
      ensures Has(x', x.heap[x.names[n]].dir, x.heap[x.names[n]].file) && At(x', x.heap[x.names[n]].dir, x.heap[x.names[n]].file) == x.names[n]
    {
      assert At(x, x.heap[x.names[n]].dir, x.heap[x.names[n]].file) == x.names[n];
    }
  }

  /** An entry nobody knows by name may be changed, except for its place. */
  lemma ChangeKeeps(x: Index, e: Eid, e': Entry)
    requires Inv(x) && e in x.heap && e'.dir == x.heap[e].dir && e'.file == x.heap[e].file
    requires forall n | n in x.names :: x.names[n] != e
    ensures Inv(x.(heap := x.heap[e := e']))
  {
    var x' := x.(heap := x.heap[e := e']);
    forall n | n in x'.names
      ensures Has(x', x'.heap[x.names[n]].dir, x'.heap[x.names[n]].file) && At(x', x'.heap[x.names[n]].dir, x'.heap[x.names[n]].file) == x.names[n]
    {
      assert At(x, x.heap[x.names[n]].dir, x.heap[x.names[n]].file) == x.names[n];
    }
  }

  lemma RegisterKeeps(x: Index, d: Dir, f: string)
    requires Inv(x) && Has(x, d, f)
    ensures Inv(x.(names := x.names[x.heap[At(x, d, f)].name := At(x, d, f)]))
  {
    var e := At(x, d, f);
    var x' := x.(names := x.names[x.heap[e].name := e]);
    forall n | n in x'.names
      ensures x'.names[n] in x'.heap && Has(x', x'.heap[x'.names[n]].dir, x'.heap[x'.names[n]].file)
      ensures At(x', x'.heap[x'.names[n]].dir, x'.heap[x'.names[n]].file) == x'.names[n]
    {
      if n != x.heap[e].name { assert At(x, x.heap[x.names[n]].dir, x.heap[x.names[n]].file) == x.names[n]; }
    }
  }

  lemma RewriteKeeps(x: Index, d: Dir, f: string, c: Contents, mtime: nat, memory: bool)
    requires Inv(x) && Has(x, d, f)
    ensures Inv(ApplyRewrite(x, d, f, c, mtime, memory))
  {
    hide Inv;
    var e := At(x, d, f);
    UnregisteredKeeps(x, d, f);
    var x1 := Unregistered(x, d, f);
    if c.name !in x1.names {
      var e' := x.heap[e].(name := c.name, exec := c.exec);
      if memory {
        ChangeKeeps(x1, e, e'.(mtime := mtime));
        RegisterKeeps(x1.(heap := x.heap[e := e'.(mtime := mtime)]), d, f);
        assert x.heap[e := e'][e := e'.(mtime := mtime)] == x.heap[e := e'.(mtime := mtime)];
      } else {
        ChangeKeeps(x1, e, e');
        UnfiledKeeps(x1.(heap := x.heap[e := e']), d, f);
      }
    }
  }

  lemma AddKeeps(x: Index, d: Dir, f: string, c: Contents, mtime: nat)
    requires Inv(x) && Enabled(x, Add(d, f, c, mtime))
    ensures Inv(Apply(x, Add(d, f, c, mtime)))
  {
    var x' := Apply(x, Add(d, f, c, mtime));
    forall n | n in x'.names
      ensures x'.names[n] in x'.heap && x'.heap[x'.names[n]].name == n && Has(x', x'.heap[x'.names[n]].dir, x'.heap[x'.names[n]].file)
      ensures At(x', x'.heap[x'.names[n]].dir, x'.heap[x'.names[n]].file) == x'.names[n]
    {
      if n != c.name { assert At(x, x.heap[x.names[n]].dir, x.heap[x.names[n]].file) == x.names[n]; }
    }
  }

  lemma StepKeepsInv(x: Index, e: Event)
    requires Inv(x) && Enabled(x, e)
    ensures Inv(Apply(x, e))
  {
    match e {
      case Add(d, f, c, mtime) => AddKeeps(x, d, f, c, mtime);
      case Rewrite(d, f, c, mtime, memory) => RewriteKeeps(x, d, f, c, mtime, memory);
      case Delete(d, f) =>
        UnregisteredKeeps(x, d, f);
        UnfiledKeeps(Unregistered(x, d, f), d, f);
      case Reload(_, _) =>
    }
  }

  /** Under every sequence of additions, edits, renames, deletions and failures of memory. */
  lemma {:induction false} EveryRunKeepsInv(x: Index, es: seq<Event>)
    requires Inv(x) && Runnable(x, es)
    ensures Inv(Run(x, es))
    decreases |es|
  {
    if es != [] {
      StepKeepsInv(x, es[0]);
      EveryRunKeepsInv(Apply(x, es[0]), es[1..]);
    }
  }

  // ---- The converse ----

  /** Every file in a directory table provides the name of its entry. */
  ghost predicate Registered(x: Index, d: Dir, f: string)
    requires Has(x, d, f)
  {
    var n := x.heap[At(x, d, f)].name;
    n in x.names && x.names[n] == At(x, d, f)
  }

  ghost predicate AllRegistered(x: Index) { forall d, f | Has(x, d, f) :: Registered(x, d, f) }

  /** The name is provided by another file. */
  predicate TakenElsewhere(x: Index, d: Dir, f: string, n: string)
    requires Has(x, d, f)
  {
    n in x.names && x.names[n] != At(x, d, f)
  }

  lemma TakenStaysBehind(x: Index, d: Dir, f: string, c: Contents, mtime: nat, memory: bool)
    requires Inv(x) && Has(x, d, f) && Registered(x, d, f) && TakenElsewhere(x, d, f, c.name)
    ensures var x' := ApplyRewrite(x, d, f, c, mtime, memory); Has(x', d, f) && !Registered(x', d, f)
  {
  }

  lemma RewriteRegisters(x: Index, d: Dir, f: string, c: Contents, mtime: nat, memory: bool)
    requires Inv(x) && AllRegistered(x) && Has(x, d, f) && !TakenElsewhere(x, d, f, c.name)
    ensures AllRegistered(ApplyRewrite(x, d, f, c, mtime, memory))
  {
    var x' := ApplyRewrite(x, d, f, c, mtime, memory);
    assert Registered(x, d, f);
    forall d2, f2 | Has(x', d2, f2) ensures Registered(x', d2, f2) {
      assert Has(x, d2, f2) && Registered(x, d2, f2);
    }
  }

  lemma OtherStepsRegister(x: Index, e: Event)
    requires Inv(x) && AllRegistered(x) && Enabled(x, e) && !e.Rewrite?
    ensures AllRegistered(Apply(x, e))
  {
    var x' := Apply(x, e);
    if e.Delete? { assert Registered(x, e.d, e.f); }
    forall d2, f2 | Has(x', d2, f2) ensures Registered(x', d2, f2) {
      if !e.Reload? && !(e.Add? && d2 == e.d && f2 == e.f) { assert Has(x, d2, f2) && Registered(x, d2, f2); }
    }
  }

  /** As long as every file provides its name, a step keeps it so exactly if it does not edit a file to name a service that another file provides. */
  lemma RegisteredIff(x: Index, e: Event)
    requires Inv(x) && AllRegistered(x) && Enabled(x, e)
    ensures AllRegistered(Apply(x, e)) <==> !(e.Rewrite? && TakenElsewhere(x, e.d, e.f, e.c.name))
  {
    if e.Rewrite? {
      assert Registered(x, e.d, e.f);
      if TakenElsewhere(x, e.d, e.f, e.c.name) {
        TakenStaysBehind(x, e.d, e.f, e.c, e.mtime, e.memory);
      } else {
        RewriteRegisters(x, e.d, e.f, e.c, e.mtime, e.memory);
      }
    } else {
      OtherStepsRegister(x, e);
    }
  }

  /** The step edits a file so that it claims a name that another one has. */
  predicate ClaimsTaken(x: Index, e: Event) { Enabled(x, e) && e.Rewrite? && TakenElsewhere(x, e.d, e.f, e.c.name) }

  ghost predicate AlwaysRegistered(x: Index, es: seq<Event>)
    requires Runnable(x, es)
    decreases |es|
  {
    AllRegistered(x) && (es == [] || AlwaysRegistered(Apply(x, es[0]), es[1..]))
  }

  predicate NoneClaimed(x: Index, es: seq<Event>)
    requires Runnable(x, es)
    decreases |es|
  {
    es == [] || (!ClaimsTaken(x, es[0]) && NoneClaimed(Apply(x, es[0]), es[1..]))
  }

  /** All files stay registered throughout a run exactly if it contains no such edit. */
  lemma {:induction false} RegisteredInEveryRunIff(x: Index, es: seq<Event>)
    requires Inv(x) && AllRegistered(x) && Runnable(x, es)
    ensures AlwaysRegistered(x, es) <==> NoneClaimed(x, es)
    decreases |es|
  {
    hide Inv, Apply, AllRegistered;
    if es != [] {
      RegisteredIff(x, es[0]);
      StepKeepsInv(x, es[0]);
      if !ClaimsTaken(x, es[0]) {
        RegisteredInEveryRunIff(Apply(x, es[0]), es[1..]);
      }
    }
  }

  /** An edit or a deletion takes away no other file's name exactly if the old name of the entry is not another file's by now. */
  lemma TouchesOnlyItsOwnIff(x: Index, d: Dir, f: string)
    requires Inv(x) && Has(x, d, f)
    ensures (forall n | n in x.names && x.names[n] != At(x, d, f) :: n in Unregistered(x, d, f).names)
            <==> !TakenElsewhere(x, d, f, x.heap[At(x, d, f)].name)
  {
    var n := x.heap[At(x, d, f)].name;
    if TakenElsewhere(x, d, f, n) { assert n in x.names && n !in Unregistered(x, d, f).names; }
  }

  /**
   It can be: file a, which provides n, is edited to claim another file's name; file c comes to
   provide n; and when a is deleted, n is gone although c is still there.
   */
  lemma DeletionTakesAnothersName(x: Index, d: Dir, a: string, claimed: Contents, c: string, exec: string, mtime: nat)
    requires Inv(x) && Has(x, d, a) && Registered(x, d, a) && TakenElsewhere(x, d, a, claimed.name) && c !in x.dirs[d] && d !in x.strict
    ensures var n := x.heap[At(x, d, a)].name;
            var x1 := ApplyRewrite(x, d, a, claimed, mtime, true);
            && Enabled(x1, Add(d, c, Contents(n, exec), mtime))
            && var x2 := Apply(x1, Add(d, c, Contents(n, exec), mtime));
               && n in x2.names && Enabled(x2, Delete(d, a))
               && var x3 := Apply(x2, Delete(d, a));
                  Has(x3, d, c) && x3.heap[At(x3, d, c)].name == n && n !in x3.names
  {
    var n := x.heap[At(x, d, a)].name;
    var x1 := ApplyRewrite(x, d, a, claimed, mtime, true);
    assert x1 == x.(names := x.names - {n});
    var x2 := Apply(x1, Add(d, c, Contents(n, exec), mtime));
    assert At(x2, d, a) == At(x, d, a) && x2.heap[At(x2, d, a)].name == n;
  }

  // ---- The index as the daemon keeps it ----

  /** A file: when it was changed, and what is in it if it can be read and is complete. */
  datatype FileState = FileState(mtime: nat, contents: Option<Contents>)

  type Files = map<(Dir, string), FileState>

  datatype Outcome = Done | Ignored | OutOfMemory

  ghost predicate Led(x: Index, es: seq<Event>, x': Index) { Inv(x') && Runnable(x, es) && Run(x, es) == x' }

  lemma LedNext(x: Index, es: seq<Event>, x': Index, e: Event)
    requires Led(x, es, x') && Enabled(x', e)
    ensures Led(x, es + [e], Apply(x', e))
  {
    StepKeepsInv(x', e);
    assert [e][1..] == [];
    RunConcat(x, es, [e]);
  }

  // ---- Files on disk ----

  /** How the entry of a known file follows it: it goes with it, and is read again if the file is newer. */
  function CheckEvents(x: Index, d: Dir, f: string, files: Files): seq<Event>
    requires Has(x, d, f)
  {
    if (d, f) !in files then [Delete(d, f)]
    else
      var state := files[(d, f)];
      if state.mtime > x.heap[At(x, d, f)].mtime && state.contents.Some?
      then [Rewrite(d, f, state.contents.value, state.mtime, true)] else []
  }

  /** One file of a listing. */
  datatype Turn = Turn(d: Dir, f: string)

  function FileEvents(x: Index, u: Turn, files: Files): (es: seq<Event>)
    ensures es == [] || (|es| == 1 && Enabled(x, es[0]))
  {
    if Has(x, u.d, u.f) then CheckEvents(x, u.d, u.f, files)
    else if (u.d, u.f) !in files || files[(u.d, u.f)].contents.None? then []
    else
      var e := Add(u.d, u.f, files[(u.d, u.f)].contents.value, files[(u.d, u.f)].mtime);
      if Enabled(x, e) then [e] else []
  }

  /**
   What the turn of a file does to the index.  A missed file is one that could not be read for
   want of memory, without that being noticed: update_desktop_file_entry sets no error when it
   has no memory for the command, and its callers go on.
   */
  function TurnEvents(x: Index, u: Turn, missed: bool, files: Files): (es: seq<Event>)
    ensures es == [] || (|es| == 1 && Enabled(x, es[0]))
  {
    if missed && (u.d, u.f) in files then [] else FileEvents(x, u, files)
  }

  function Turned(x: Index, u: Turn, missed: bool, files: Files): Index {
    var es := TurnEvents(x, u, missed, files);
    if es == [] then x else Apply(x, es[0])
  }

  /** The index after all the turns of us. */
  function Scanned(x: Index, us: seq<Turn>, ms: seq<bool>, files: Files): Index
    requires |ms| == |us|
  {
    if us == [] then x
    else
      var n := |us| - 1;
      Turned(Scanned(x, us[..n], ms[..n], files), us[n], ms[n], files)
  }

  /** The turns of one directory, and of all of them. */
  function TurnsOf(d: Dir, listing: seq<string>): seq<Turn> {
    if listing == [] then []
    else
      var n := |listing| - 1;
      TurnsOf(d, listing[..n]) + if EndsWithService(listing[n]) then [Turn(d, listing[n])] else []
  }

  function AllTurns(order: seq<Dir>, listings: map<Dir, seq<string>>): seq<Turn> {
    if order == [] then []
    else
      var n := |order| - 1;
      AllTurns(order[..n], listings) + if order[n] in listings then TurnsOf(order[n], listings[order[n]]) else []
  }

  lemma TurnedKeepsInv(x: Index, u: Turn, missed: bool, files: Files)
    requires Inv(x)
    ensures Inv(Turned(x, u, missed, files))
  {
    var es := TurnEvents(x, u, missed, files);
    if es != [] { StepKeepsInv(x, es[0]); }
  }

  lemma {:induction false} ScannedKeepsInv(x: Index, us: seq<Turn>, ms: seq<bool>, files: Files)
    requires Inv(x) && |ms| == |us|
    ensures Inv(Scanned(x, us, ms, files))
  {
    hide Inv, Turned;
    if us != [] {
      var n := |us| - 1;
      ScannedKeepsInv(x, us[..n], ms[..n], files);
      TurnedKeepsInv(Scanned(x, us[..n], ms[..n], files), us[n], ms[n], files);
    }
  }

  lemma ScannedNext(x: Index, us: seq<Turn>, ms: seq<bool>, u: Turn, m: bool, files: Files)
    requires |ms| == |us|
    ensures Scanned(x, us + [u], ms + [m], files) == Turned(Scanned(x, us, ms, files), u, m, files)
  {
    hide Turned;
    assert (us + [u])[..|us|] == us && (ms + [m])[..|us|] == ms;
  }

  lemma {:induction false} ScannedAppend(x: Index, us: seq<Turn>, ms: seq<bool>, vs: seq<Turn>, ns: seq<bool>, files: Files)
    requires |ms| == |us| && |ns| == |vs|
    ensures Scanned(x, us + vs, ms + ns, files) == Scanned(Scanned(x, us, ms, files), vs, ns, files)
    decreases |vs|
  {
    hide Turned;
    if vs == [] {
      assert us + vs == us && ms + ns == ms;
    } else {
      var n := |vs| - 1;
      ScannedAppend(x, us, ms, vs[..n], ns[..n], files);
      ScannedNext(x, us + vs[..n], ms + ns[..n], vs[n], ns[n], files);
      assert us + vs == us + vs[..n] + [vs[n]] && ms + ns == ms + ns[..n] + [ns[n]];
    }
  }

  // ---- Which files are cached after a scan ----

  /** The turn enters the file: it is new, complete and well named, and its name is free. */
  predicate Enters(x: Index, u: Turn, missed: bool, files: Files) {
    && !missed && !Has(x, u.d, u.f) && (u.d, u.f) in files && files[(u.d, u.f)].contents.Some?
    && Enabled(x, Add(u.d, u.f, files[(u.d, u.f)].contents.value, files[(u.d, u.f)].mtime))
  }

  lemma TurnFiles(x: Index, u: Turn, missed: bool, files: Files, d: Dir, f: string)
    requires Inv(x)
    ensures Has(Turned(x, u, missed, files), d, f) <==>
            if u != Turn(d, f) then Has(x, d, f) else if (d, f) in files then Has(x, d, f) || Enters(x, u, missed, files) else false
  {
    var es := TurnEvents(x, u, missed, files);
    if es != [] && es[0].Rewrite? { RewriteFiles(x, u, es[0].c, es[0].mtime, d, f); }
  }

  lemma RewriteFiles(x: Index, u: Turn, c: Contents, mtime: nat, d: Dir, f: string)
    requires Has(x, u.d, u.f)
    ensures Has(ApplyRewrite(x, u.d, u.f, c, mtime, true), d, f) == Has(x, d, f)
  {
  }

  /**
   A file that is on disk is in the cache after a scan exactly if it was before, or one of its turns
   entered it; a file that is not on disk, exactly if it was before and had no turn.
   */
  lemma {:induction false} CachedAfterScanIff(x: Index, us: seq<Turn>, ms: seq<bool>, files: Files, d: Dir, f: string)
    requires Inv(x) && |ms| == |us|
    ensures (d, f) in files ==>
              (Has(Scanned(x, us, ms, files), d, f) <==>
               Has(x, d, f) || exists k :: 0 <= k < |us| && us[k] == Turn(d, f) && Enters(Scanned(x, us[..k], ms[..k], files), us[k], ms[k], files))
    ensures (d, f) !in files ==> (Has(Scanned(x, us, ms, files), d, f) <==> Has(x, d, f) && Turn(d, f) !in us)
  {
    hide Inv, Turned, Has, Enters;
    if us != [] {
      var n := |us| - 1;
      var x1 := Scanned(x, us[..n], ms[..n], files);
      ScannedKeepsInv(x, us[..n], ms[..n], files);
      CachedAfterScanIff(x, us[..n], ms[..n], files, d, f);
      TurnFiles(x1, us[n], ms[n], files, d, f);
      assert us == us[..n] + [us[n]];
      assert forall k | 0 <= k < n :: us[..n][k] == us[k] && us[..n][..k] == us[..k] && ms[..n][..k] == ms[..k] && ms[..n][k] == ms[k];
    }
  }

  /**
   So every listed file that is complete is in the cache after the scan, unless it was missed, or at
   its turn it was badly named for its directory, or its name was another's.
   */
  lemma ListedIsCached(x: Index, us: seq<Turn>, ms: seq<bool>, files: Files, k: nat)
    requires Inv(x) && |ms| == |us| && k < |us| && us[k].d in x.dirs
    requires (us[k].d, us[k].f) in files && files[(us[k].d, us[k].f)].contents.Some? && !ms[k]
    ensures var c, xk := files[(us[k].d, us[k].f)].contents.value, Scanned(x, us[..k], ms[..k], files);
            Has(Scanned(x, us, ms, files), us[k].d, us[k].f) || !NamedWell(x, us[k].d, us[k].f, c) || c.name in xk.names
  {
    hide Inv, Scanned, Enters, Has;
    var xk := Scanned(x, us[..k], ms[..k], files);
    var u := us[k];
    ScannedKeepsInv(x, us[..k], ms[..k], files);
    DirsStay(x, us[..k], ms[..k], files);
    EntersOrNot(xk, u, files);
    CachedAfterScanIff(x, us, ms, files, u.d, u.f);
    if Has(xk, u.d, u.f) {
      CachedAfterScanIff(x, us[..k], ms[..k], files, u.d, u.f);
      if !Has(x, u.d, u.f) {
        var j :| 0 <= j < k && us[..k][j] == u && Enters(Scanned(x, us[..k][..j], ms[..k][..j], files), us[..k][j], ms[..k][j], files);
        assert us[..k][..j] == us[..j] && ms[..k][..j] == ms[..j] && us[..k][j] == us[j];
      }
    }
  }

  lemma EntersOrNot(x: Index, u: Turn, files: Files)
    requires Inv(x) && u.d in x.dirs && (u.d, u.f) in files && files[(u.d, u.f)].contents.Some?
    ensures var c := files[(u.d, u.f)].contents.value;
            Has(x, u.d, u.f) || Enters(x, u, false, files) || !NamedWell(x, u.d, u.f, c) || c.name in x.names
  {
  }

  lemma {:induction false} DirsStay(x: Index, us: seq<Turn>, ms: seq<bool>, files: Files)
    requires |ms| == |us|
    ensures var x' := Scanned(x, us, ms, files); x'.dirs.Keys == x.dirs.Keys && x'.strict == x.strict
  {
    if us != [] { DirsStay(x, us[..|us| - 1], ms[..|us| - 1], files); }
  }

  // ---- Which names are found after a scan ----

  /** The file is read, and it provides n. */
  predicate Gives(x: Index, u: Turn, missed: bool, files: Files, n: string) {
    && !missed && (u.d, u.f) in files && files[(u.d, u.f)].contents.Some? && files[(u.d, u.f)].contents.value.name == n
    && if Has(x, u.d, u.f) then files[(u.d, u.f)].mtime > x.heap[At(x, u.d, u.f)].mtime
       else u.d in x.dirs && NamedWell(x, u.d, u.f, files[(u.d, u.f)].contents.value)
  }

  /** The file provided n when it was last read, and now it is gone, or it provides something else. */
  predicate Takes(x: Index, u: Turn, missed: bool, files: Files, n: string) {
    && Has(x, u.d, u.f) && x.heap[At(x, u.d, u.f)].name == n
    && ((u.d, u.f) in files ==>
          && !missed && files[(u.d, u.f)].mtime > x.heap[At(x, u.d, u.f)].mtime
          && files[(u.d, u.f)].contents.Some? && files[(u.d, u.f)].contents.value.name != n)
  }

  lemma TurnNames(x: Index, u: Turn, missed: bool, files: Files, n: string)
    requires Inv(x)
    ensures n in Turned(x, u, missed, files).names <==> Gives(x, u, missed, files, n) || (n in x.names && !Takes(x, u, missed, files, n))
  {
    if Has(x, u.d, u.f) {
      if (u.d, u.f) in files && files[(u.d, u.f)].contents.Some? {
        RewriteNames(x, u, files[(u.d, u.f)].contents.value, files[(u.d, u.f)].mtime, n);
      }
    } else {
      assert u.d in x.dirs ==> u.f !in x.dirs[u.d];
    }
    hide Inv, ApplyRewrite;
  }

  lemma RewriteNames(x: Index, u: Turn, c: Contents, mtime: nat, n: string)
    requires Has(x, u.d, u.f)
    ensures n in ApplyRewrite(x, u.d, u.f, c, mtime, true).names <==> n == c.name || (n in x.names && n != x.heap[At(x, u.d, u.f)].name)
  {
  }

  /** Some turn gives n, and no later one takes it. */
  ghost predicate Provided(x: Index, us: seq<Turn>, ms: seq<bool>, files: Files, n: string)
    requires |ms| == |us|
  {
    exists k :: 0 <= k < |us| && GivenAt(x, us, ms, files, n, k) && forall j | k < j < |us| :: !TakenAt(x, us, ms, files, n, j)
  }

  predicate GivenAt(x: Index, us: seq<Turn>, ms: seq<bool>, files: Files, n: string, k: nat)
    requires |ms| == |us| && k < |us|
  {
    Gives(Scanned(x, us[..k], ms[..k], files), us[k], ms[k], files, n)
  }

  predicate TakenAt(x: Index, us: seq<Turn>, ms: seq<bool>, files: Files, n: string, k: nat)
    requires |ms| == |us| && k < |us|
  {
    Takes(Scanned(x, us[..k], ms[..k], files), us[k], ms[k], files, n)
  }

  /**
   A name is registered after a scan exactly if one of the turns gave it, or it was registered
   before, and no turn since then has taken it: the file that provided it, or one that had been
   refused the name, is gone or was renamed later in the same scan.
   */
  lemma {:induction false} FoundAfterScanIff(x: Index, us: seq<Turn>, ms: seq<bool>, files: Files, n: string)
    requires Inv(x) && |ms| == |us|
    ensures n in Scanned(x, us, ms, files).names <==>
            Provided(x, us, ms, files, n) || (n in x.names && forall j | 0 <= j < |us| :: !TakenAt(x, us, ms, files, n, j))
  {
    hide Inv, Turned, Gives, Takes;
    if us != [] {
      var k := |us| - 1;
      ScannedKeepsInv(x, us[..k], ms[..k], files);
      FoundAfterScanIff(x, us[..k], ms[..k], files, n);
      TurnNames(Scanned(x, us[..k], ms[..k], files), us[k], ms[k], files, n);
      SameTurns(x, us, ms, files, n, k);
      ProvidedNext(x, us, ms, files, n);
      if forall j | 0 <= j < |us| :: !TakenAt(x, us, ms, files, n, j) {
        assert forall j | 0 <= j < k :: !TakenAt(x, us[..k], ms[..k], files, n, j);
      }
      if (forall j | 0 <= j < k :: !TakenAt(x, us[..k], ms[..k], files, n, j)) && !TakenAt(x, us, ms, files, n, k) {
        assert forall j | 0 <= j < k :: !TakenAt(x, us, ms, files, n, j);
      }
    }
  }

  lemma SameTurns(x: Index, us: seq<Turn>, ms: seq<bool>, files: Files, n: string, k: nat)
    requires |ms| == |us| && k <= |us|
    ensures forall j | 0 <= j < k :: GivenAt(x, us[..k], ms[..k], files, n, j) == GivenAt(x, us, ms, files, n, j)
    ensures forall j | 0 <= j < k :: TakenAt(x, us[..k], ms[..k], files, n, j) == TakenAt(x, us, ms, files, n, j)
  {
    hide Scanned, Gives, Takes;
    assert forall j | 0 <= j < k :: us[..k][..j] == us[..j] && ms[..k][..j] == ms[..j] && us[..k][j] == us[j] && ms[..k][j] == ms[j];
  }

  lemma ProvidedNext(x: Index, us: seq<Turn>, ms: seq<bool>, files: Files, n: string)
    requires |ms| == |us| && us != []
    ensures var k := |us| - 1;
            Provided(x, us, ms, files, n) <==>
            GivenAt(x, us, ms, files, n, k) || (Provided(x, us[..k], ms[..k], files, n) && !TakenAt(x, us, ms, files, n, k))
  {
    hide GivenAt, TakenAt;
    var k := |us| - 1;
    SameTurns(x, us, ms, files, n, k);
    if Provided(x, us, ms, files, n) && !GivenAt(x, us, ms, files, n, k) {
      var i :| 0 <= i < |us| && GivenAt(x, us, ms, files, n, i) && forall j | i < j < |us| :: !TakenAt(x, us, ms, files, n, j);
      assert i < k && GivenAt(x, us[..k], ms[..k], files, n, i);
    }
    if Provided(x, us[..k], ms[..k], files, n) && !TakenAt(x, us, ms, files, n, k) {
      var i :| 0 <= i < k && GivenAt(x, us[..k], ms[..k], files, n, i) && forall j | i < j < k :: !TakenAt(x, us[..k], ms[..k], files, n, j);
      assert GivenAt(x, us, ms, files, n, i);
    }
  }

  // ---- How new the entries are ----

  /** What is cached for a file is as new as the file, unless the file is incomplete, or its entry cannot be found by name. */
  ghost predicate Current(x: Index, u: Turn, files: Files) {
    Has(x, u.d, u.f) ==>
      && (u.d, u.f) in files
      && (files[(u.d, u.f)].contents.Some? && Registered(x, u.d, u.f) ==> files[(u.d, u.f)].mtime <= x.heap[At(x, u.d, u.f)].mtime)
  }

  lemma TurnMakesCurrent(x: Index, u: Turn, files: Files)
    requires Inv(x)
    ensures Current(Turned(x, u, false, files), u, files)
  {
  }

  /** A turn leaves other files as current as they were. */
  lemma OthersStay(x: Index, u: Turn, missed: bool, files: Files, v: Turn)
    requires Inv(x) && Current(x, v, files)
    ensures Current(Turned(x, u, missed, files), v, files)
  {
    if u == v {
      if !missed { TurnMakesCurrent(x, u, files); }
    } else {
      var es := TurnEvents(x, u, missed, files);
      var x' := Turned(x, u, missed, files);
      if es != [] && Has(x', v.d, v.f) {
        assert x'.dirs[v.d][v.f] == x.dirs[v.d][v.f] && Has(x, v.d, v.f) && x'.heap[At(x, v.d, v.f)] == x.heap[At(x, v.d, v.f)];
      }
    }
  }

  /** Whatever is listed is current after a scan, unless it was missed, although later files can take names from earlier ones. */
  lemma {:induction false} CurrentAfterScan(x: Index, us: seq<Turn>, ms: seq<bool>, files: Files, k: nat)
    requires Inv(x) && |ms| == |us| && k < |us| && !ms[k]
    ensures Current(Scanned(x, us, ms, files), us[k], files)
  {
    hide Inv, Turned, Current;
    var n := |us| - 1;
    var x1 := Scanned(x, us[..n], ms[..n], files);
    ScannedKeepsInv(x, us[..n], ms[..n], files);
    if k == n {
      TurnMakesCurrent(x1, us[n], files);
    } else {
      CurrentAfterScan(x, us[..n], ms[..n], files, k);
      OthersStay(x1, us[n], ms[n], files, us[k]);
    }
  }

  // ---- What the entries say ----

  /** What a file says, as an entry. */
  function EntryOf(files: Files, u: Turn): Entry
    requires (u.d, u.f) in files && files[(u.d, u.f)].contents.Some?
  {
    var state := files[(u.d, u.f)];
    Entry(state.contents.value.name, state.contents.value.exec, u.d, u.f, state.mtime)
  }

  predicate SaysWhatFileSays(e: Entry, files: Files, u: Turn) { (u.d, u.f) in files && files[(u.d, u.f)].contents.Some? && e == EntryOf(files, u) }

  /** The entry of v is the same object as before, and has not changed. */
  predicate SameEntry(x: Index, x': Index, v: Turn) {
    Has(x, v.d, v.f) && Has(x', v.d, v.f) && At(x', v.d, v.f) == At(x, v.d, v.f) && x'.heap[At(x, v.d, v.f)] == x.heap[At(x, v.d, v.f)]
  }

  lemma TurnEntries(x: Index, u: Turn, missed: bool, files: Files, v: Turn)
    requires Inv(x)
    ensures var x' := Turned(x, u, missed, files);
            Has(x', v.d, v.f) ==> SameEntry(x, x', v) || (v == u && SaysWhatFileSays(x'.heap[At(x', v.d, v.f)], files, v))
  {
    var es := TurnEvents(x, u, missed, files);
    var x' := Turned(x, u, missed, files);
    if es != [] && Has(x', v.d, v.f) {
      if v == u {
        assert Has(x, u.d, u.f) ==> x.heap[At(x, u.d, u.f)].dir == u.d && x.heap[At(x, u.d, u.f)].file == u.f;
      } else {
        OtherEntry(x, es[0], v);
      }
    }
  }

  /** A step about one file leaves the entries of all others. */
  lemma OtherEntry(x: Index, e: Event, v: Turn)
    requires Inv(x) && Enabled(x, e) && !e.Reload? && (e.d, e.f) != (v.d, v.f) && Has(Apply(x, e), v.d, v.f)
    ensures SameEntry(x, Apply(x, e), v)
  {
    var x' := Apply(x, e);
    assert v.d in x.dirs && v.f in x.dirs[v.d] && x'.dirs[v.d][v.f] == x.dirs[v.d][v.f];
    assert x.heap[x.dirs[v.d][v.f]].dir == v.d && x.heap[x.dirs[v.d][v.f]].file == v.f;
  }

  /** After a scan every entry is as before, or says what its file says, command and all. */
  lemma {:induction false} EntriesAfterScan(x: Index, us: seq<Turn>, ms: seq<bool>, files: Files, v: Turn)
    requires Inv(x) && |ms| == |us|
    ensures var x' := Scanned(x, us, ms, files);
            Has(x', v.d, v.f) ==> SameEntry(x, x', v) || SaysWhatFileSays(x'.heap[At(x', v.d, v.f)], files, v)
  {
    hide Inv, Turned, SaysWhatFileSays;
    if us != [] {
      var n := |us| - 1;
      ScannedKeepsInv(x, us[..n], ms[..n], files);
      EntriesAfterScan(x, us[..n], ms[..n], files, v);
      TurnEntries(Scanned(x, us[..n], ms[..n], files), us[n], ms[n], files, v);
    }
  }

  /**
   And a listed file that was not missed and is complete: if it can be found by name, its entry
   says what the file says, or has been at least as new all along.
   */
  lemma ListedIsRead(x: Index, us: seq<Turn>, ms: seq<bool>, files: Files, k: nat)
    requires Inv(x) && |ms| == |us| && k < |us| && !ms[k]
    requires (us[k].d, us[k].f) in files && files[(us[k].d, us[k].f)].contents.Some?
    ensures var x', u := Scanned(x, us, ms, files), us[k];
            Has(x', u.d, u.f) && Registered(x', u.d, u.f) ==>
              || x'.heap[At(x', u.d, u.f)] == Entry(files[(u.d, u.f)].contents.value.name, files[(u.d, u.f)].contents.value.exec, u.d, u.f, files[(u.d, u.f)].mtime)
              || (SameEntry(x, x', u) && files[(u.d, u.f)].mtime <= x.heap[At(x, u.d, u.f)].mtime)
  {
    hide Inv, Scanned;
    EntriesAfterScan(x, us, ms, files, us[k]);
    CurrentAfterScan(x, us, ms, files, k);
  }

  lemma TurnNamed(x: Index, u: Turn, missed: bool, files: Files, n: string)
    requires Inv(x) && n in Turned(x, u, missed, files).names
    ensures var x' := Turned(x, u, missed, files);
            var e := x'.names[n];
            && e in x'.heap
            && ((n in x.names && x.names[n] == e && e in x.heap && x'.heap[e] == x.heap[e])
                || SaysWhatFileSays(x'.heap[e], files, Turn(x'.heap[e].dir, x'.heap[e].file)))
  {
    var es := TurnEvents(x, u, missed, files);
    if es != [] && es[0].Rewrite? {
      assert x.heap[At(x, u.d, u.f)].dir == u.d && x.heap[At(x, u.d, u.f)].file == u.f;
    }
  }

  /** After a scan, a name leads where it led before, to the same entry, or to one that says what its file says. */
  lemma {:induction false} NamedAfterScan(x: Index, us: seq<Turn>, ms: seq<bool>, files: Files, n: string)
    requires Inv(x) && |ms| == |us| && n in Scanned(x, us, ms, files).names
    ensures var x' := Scanned(x, us, ms, files);
            var e := x'.names[n];
            && e in x'.heap
            && ((n in x.names && x.names[n] == e && e in x.heap && x'.heap[e] == x.heap[e])
                || SaysWhatFileSays(x'.heap[e], files, Turn(x'.heap[e].dir, x'.heap[e].file)))
  {
    if us != [] {
      hide Inv, Turned, SaysWhatFileSays;
      var k := |us| - 1;
      var x1 := Scanned(x, us[..k], ms[..k], files);
      ScannedKeepsInv(x, us[..k], ms[..k], files);
      TurnNamed(x1, us[k], ms[k], files, n);
      if n in x1.names { NamedAfterScan(x, us[..k], ms[..k], files, n); }
    } else {
      NamedHas(x, n);
    }
  }

  // ---- Entries over a whole run ----

  /** What each file said at each time, if files keep what they say per time. */
  type History = (Dir, string, nat) -> Contents

  /** The files are read as they were. */
  predicate TrueTo(es: seq<Event>, h: History) {
    forall i | 0 <= i < |es| :: es[i].Add? || es[i].Rewrite? ==> es[i].c == h(es[i].d, es[i].f, es[i].mtime)
  }

  /** Every entry in a directory has the name and the command that its file had at its time. */
  ghost predicate AllTrue(x: Index, h: History) {
    forall d: Dir, f: string | Has(x, d, f) :: var e := x.heap[At(x, d, f)]; Contents(e.name, e.exec) == h(d, f, e.mtime)
  }

  lemma StepTrue(x: Index, e: Event, h: History)
    requires Inv(x) && Enabled(x, e) && AllTrue(x, h) && TrueTo([e], h)
    ensures AllTrue(Apply(x, e), h)
  {
    assert [e][0] == e;
    var x' := Apply(x, e);
    forall d: Dir, f: string | Has(x', d, f) ensures var y := x'.heap[At(x', d, f)]; Contents(y.name, y.exec) == h(d, f, y.mtime) {
      if !e.Reload? && (e.d, e.f) != (d, f) {
        OtherEntry(x, e, Turn(d, f));
        assert Has(x, d, f);
      } else if e.Rewrite? {
        assert Has(x, d, f);
      }
    }
  }

  /** In every run, whatever can be found has the name and the command that its file had when it was read. */
  lemma {:induction false} EntriesAreTrue(x: Index, es: seq<Event>, h: History)
    requires Inv(x) && Runnable(x, es) && AllTrue(x, h) && TrueTo(es, h)
    ensures AllTrue(Run(x, es), h)
    ensures var x' := Run(x, es);
            forall n | n in x'.names ::
              x'.names[n] in x'.heap && var e := x'.heap[x'.names[n]]; Contents(n, e.exec) == h(e.dir, e.file, e.mtime)
    decreases |es|
  {
    if es == [] {
      forall n | n in x.names ensures x.names[n] in x.heap && var e := x.heap[x.names[n]]; Contents(n, e.exec) == h(e.dir, e.file, e.mtime) {
        NamedHas(x, n);
      }
    } else {
      hide Inv, Apply, AllTrue;
      StepKeepsInv(x, es[0]);
      assert TrueTo([es[0]], h) && TrueTo(es[1..], h);
      StepTrue(x, es[0], h);
      EntriesAreTrue(Apply(x, es[0]), es[1..], h);
    }
  }

  // ---- Which files are read ----

  /** A new file is entered exactly if it is complete, its name is free, and it is named after that, unless its directory does not care. */
  lemma EntersIff(x: Index, u: Turn, missed: bool, files: Files)
    requires Inv(x)
    ensures Enters(x, u, missed, files) <==>
            && !missed && u.d in x.dirs && u.f !in x.dirs[u.d] && (u.d, u.f) in files && files[(u.d, u.f)].contents.Some?
            && var c := files[(u.d, u.f)].contents.value;
               c.name !in x.names && (u.f == c.name + ['.', 's', 'e', 'r', 'v', 'i', 'c', 'e'] || u.d !in x.strict)
  {
  }

  lemma {:induction false} TurnsFirst(d: Dir, listing: seq<string>)
    requires listing != []
    ensures TurnsOf(d, listing) == (if EndsWithService(listing[0]) then [Turn(d, listing[0])] else []) + TurnsOf(d, listing[1..])
    decreases |listing|
  {
    hide EndsWithService;
    var n, front, back := |listing| - 1, listing[..|listing| - 1], listing[1..];
    var first := if EndsWithService(listing[0]) then [Turn(d, listing[0])] else [];
    var last := if EndsWithService(listing[n]) then [Turn(d, listing[n])] else [];
    assert TurnsOf(d, listing) == TurnsOf(d, front) + last;
    if n == 0 {
      assert TurnsOf(d, front) == [] && TurnsOf(d, back) == [];
    } else {
      TurnsFirst(d, front);
      assert front[1..] == back[..n - 1] && back[n - 1] == listing[n] && front[0] == listing[0];
      assert TurnsOf(d, back) == TurnsOf(d, back[..n - 1]) + last;
      hide TurnsOf;
      Regroup(first, TurnsOf(d, back[..n - 1]), last);
    }
  }

  /** Only files that end in .service have a turn, in the order of the listing. */
  lemma TurnsAre(d: Dir, listing: seq<string>)
    requires listing != []
    ensures TurnsOf(d, listing) ==
            (if |listing[0]| >= 8 && listing[0][|listing[0]| - 8..] == ['.', 's', 'e', 'r', 'v', 'i', 'c', 'e'] then [Turn(d, listing[0])] else [])
            + TurnsOf(d, listing[1..])
  {
    Suffix(listing[0]);
    hide EndsWithService, TurnsOf;
    TurnsFirst(d, listing);
  }

  lemma Suffix(f: string)
    ensures EndsWithService(f) <==> |f| >= 8 && f[|f| - 8..] == ['.', 's', 'e', 'r', 'v', 'i', 'c', 'e']
  {
  }

  /** NoSuchService is the error for a name without a service file. */
  datatype Lookup = Found(entry: Eid) | NoSuchService | LookupOutOfMemory

  class ServiceIndex {
    const enough: bool   // no allocation fails
    var heap: map<Eid, Entry>
    var names: map<string, Eid>
    var dirs: map<Dir, map<string, Eid>>
    var strict: set<Dir>
    var nextEid: Eid

    ghost function Abs(): Index
      reads this
    {
      Index(heap, names, dirs, strict, nextEid)
    }

    constructor (enough: bool)
      ensures this.enough == enough && Abs() == EMPTY && Inv(Abs())
    {
      this.enough := enough;
      heap, names, dirs, strict, nextEid := map[], map[], map[], {}, 0;
    }

    /** update_desktop_file_entry for a file that is not in the cache. */
    method AddEntry(d: Dir, f: string, c: Contents, mtime: nat) returns (r: Outcome)
      requires Inv(Abs()) && d in dirs && f !in dirs[d]
      modifies this
      ensures Inv(Abs())
      ensures r.Done? ==> Enabled(old(Abs()), Add(d, f, c, mtime)) && Abs() == Apply(old(Abs()), Add(d, f, c, mtime))
      ensures !r.Done? ==> names == old(names) && dirs == old(dirs) && Abs() == old(Abs())
      ensures r.Ignored? <==> !Enabled(old(Abs()), Add(d, f, c, mtime))
      ensures r.OutOfMemory? ==> !enough
    {
      hide Inv;
      if f != c.name + ".service" && d in strict {
        return Ignored;
      }
      if c.name in names {
        return Ignored;
      }
      var full := Exhausted(enough);
      if full {
        return OutOfMemory;
      }
      AddKeeps(Abs(), d, f, c, mtime);
      names := names[c.name := nextEid];
      full := Exhausted(enough);
      if full {
        names := names - {c.name};   // revert the insertion in the table of names
        assert names == old(names);
        return OutOfMemory;
      }
      heap := heap[nextEid := Entry(c.name, c.exec, d, f, mtime)];
      dirs := dirs[d := dirs[d][f := nextEid]];
      nextEid := nextEid + 1;
      return Done;
    }

    /** update_desktop_file_entry for a known file. */
    method RewriteEntry(d: Dir, f: string, c: Contents, mtime: nat) returns (r: Outcome)
      requires Inv(Abs()) && Has(Abs(), d, f)
      modifies this
      ensures Inv(Abs()) && Abs() == ApplyRewrite(old(Abs()), d, f, c, mtime, !r.OutOfMemory?)
      ensures r.Ignored? <==> c.name in Unregistered(old(Abs()), d, f).names
      ensures r.OutOfMemory? ==> !enough
    {
      RewriteKeeps(Abs(), d, f, c, mtime, true);
      RewriteKeeps(Abs(), d, f, c, mtime, false);
      hide Inv;
      var e := dirs[d][f];
      names := names - {heap[e].name};
      if c.name in names {
        return Ignored;
      }
      heap := heap[e := heap[e].(name := c.name, exec := c.exec)];
      var full := Exhausted(enough);
      if full {
        dirs := dirs[d := dirs[d] - {f}];
        return OutOfMemory;
      }
      names := names[c.name := e];
      heap := heap[e := heap[e].(mtime := mtime)];
      return Done;
    }

    /**
     check_service_file: is the entry as its file, and is the file still there?  It also says so if
     the file is newer and was missed.
     */
    method CheckServiceFile(d: Dir, f: string, files: Files) returns (ok: bool, gone: bool, ghost missed: bool, ghost es: seq<Event>)
      requires Inv(Abs()) && Has(Abs(), d, f)
      modifies this
      ensures Led(old(Abs()), es, Abs()) && dirs.Keys == old(dirs.Keys)
      ensures ok ==> (gone <==> (d, f) !in files) && es == if missed then [] else CheckEvents(old(Abs()), d, f, files)
      ensures missed ==> ok && !gone && CheckEvents(old(Abs()), d, f, files) != []
      ensures !ok ==> Halted(old(Abs()), Turn(d, f), files, Abs())
      ensures enough ==> ok && !missed
    {
      hide Inv;
      ghost var x := Abs();
      ok, gone, missed, es := true, false, false, [];
      var full := Exhausted(enough);
      if full {
        return false, false, false, es;   // no memory for the path
      }
      if (d, f) !in files {
        LedNext(x, [], x, Delete(d, f));
        names := names - {heap[dirs[d][f]].name};
        dirs := dirs[d := dirs[d] - {f}];
        assert [] + [Delete(d, f)] == [Delete(d, f)];
        return true, true, false, [Delete(d, f)];
      }
      var state := files[(d, f)];
      if state.mtime > heap[dirs[d][f]].mtime && state.contents.Some? {
        full := Exhausted(enough);
        if full {
          return true, false, true, [];   // no memory for the command
        }
        LedNext(x, [], x, Rewrite(d, f, state.contents.value, state.mtime, true));
        LedNext(x, [], x, Rewrite(d, f, state.contents.value, state.mtime, false));
        var r := RewriteEntry(d, f, state.contents.value, state.mtime);
        ok := !r.OutOfMemory?;
        es := [Rewrite(d, f, state.contents.value, state.mtime, ok)];
        assert [] + es == es;
      }
    }

    /** One file of a directory that is read again. */
    method UpdateFile(d: Dir, f: string, files: Files) returns (ok: bool, ghost missed: bool, ghost es: seq<Event>)
      requires Inv(Abs()) && d in dirs
      modifies this
      ensures Led(old(Abs()), es, Abs()) && dirs.Keys == old(dirs.Keys)
      ensures ok ==> Abs() == Turned(old(Abs()), Turn(d, f), missed, files)
      ensures missed ==> ok && (d, f) in files && files[(d, f)].contents.Some?
      ensures !ok ==> Halted(old(Abs()), Turn(d, f), files, Abs())
      ensures enough ==> ok && !missed
    {
      hide Inv;
      ghost var x := Abs();
      if f in dirs[d] { FiledHas(x, d, f); }
      ok, missed, es := true, false, [];
      if f in dirs[d] {
        var gone;
        ok, gone, missed, es := CheckServiceFile(d, f, files);
        if ok { LedTurn(x, es, Abs()); }
      } else if (d, f) in files {
        var full := Exhausted(enough);
        if full {
          return false, false, es;   // no memory to load it
        }
        var state := files[(d, f)];
        if state.contents.Some? {
          full := Exhausted(enough);
          if full {
            return true, true, [];   // no memory for the command
          }
          var r := AddEntry(d, f, state.contents.value, state.mtime);
          ok := !r.OutOfMemory?;
          if r.Done? {
            LedNext(x, [], x, Add(d, f, state.contents.value, state.mtime));
            es := [] + [Add(d, f, state.contents.value, state.mtime)];
          }
        }
      }
    }

    /** update_directory: the files take their turns, until memory runs out noticeably. */
    method UpdateDirectory(d: Dir, listing: seq<string>, files: Files) returns (ok: bool, ghost ms: seq<bool>, ghost es: seq<Event>)
      requires Inv(Abs()) && d in dirs
      modifies this
      ensures Led(old(Abs()), es, Abs()) && dirs.Keys == old(dirs.Keys)
      ensures ok ==> |ms| == |TurnsOf(d, listing)| && Abs() == Scanned(old(Abs()), TurnsOf(d, listing), ms, files)
      ensures !ok ==> HaltedIn(old(Abs()), TurnsOf(d, listing), ms, files, Abs())
      ensures enough ==> ok && true !in ms
    {
      hide Inv, Turned, Scanned, Halted, TurnsOf, EndsWithService, Run, Runnable;
      ghost var x0 := Abs();
      ok, ms, es := true, [], [];
      NothingScanned(x0, files);
      NothingLed(x0);
      NoTurns(d);
      assert listing[..0] == [];
      var i := 0;
      while i < |listing|
        invariant i <= |listing| && ok && Led(x0, es, Abs()) && dirs.Keys == old(dirs.Keys)
        invariant |ms| == |TurnsOf(d, listing[..i])| && Abs() == Scanned(x0, TurnsOf(d, listing[..i]), ms, files)
        invariant enough ==> true !in ms
      {
        TurnsNext(d, listing, i);
        if EndsWithService(listing[i]) {
          ghost var x := Abs();
          ghost var missed, more;
          ok, missed, more := UpdateFile(d, listing[i], files);
          LedOn(x0, es, x, more, Abs());
          es := es + more;
          if !ok {
            TurnComes(d, listing, i);
            return;
          }
          ScannedNext(x0, TurnsOf(d, listing[..i]), ms, Turn(d, listing[i]), missed, files);
          ms := ms + [missed];
        }
        i := i + 1;
      }
      assert listing[..i] == listing;
    }

    method UpdateServiceCache(order: seq<Dir>, listings: map<Dir, seq<string>>, files: Files) returns (ok: bool, ghost ms: seq<bool>, ghost es: seq<Event>)
      requires Inv(Abs()) && forall d | d in order :: d in dirs
      modifies this
      ensures Led(old(Abs()), es, Abs())
      ensures ok ==> |ms| == |AllTurns(order, listings)| && Abs() == Scanned(old(Abs()), AllTurns(order, listings), ms, files)
      ensures !ok ==> HaltedIn(old(Abs()), AllTurns(order, listings), ms, files, Abs())
      ensures enough ==> ok && true !in ms
    {
      hide Inv, Scanned, TurnsOf, Halted;
      ghost var x0 := Abs();
      ok, ms, es := true, [], [];
      NothingScanned(x0, files);
      var i := 0;
      while i < |order|
        invariant i <= |order| && ok && Led(x0, es, Abs()) && dirs.Keys == old(dirs.Keys)
        invariant |ms| == |AllTurns(order[..i], listings)| && Abs() == Scanned(x0, AllTurns(order[..i], listings), ms, files)
        invariant enough ==> true !in ms
      {
        assert order[..i + 1][..i] == order[..i] && AllTurns(order[..i], listings) + [] == AllTurns(order[..i], listings);
        if order[i] in listings {   // otherwise it cannot be read
          ghost var x := Abs();
          ghost var more, also;
          ok, also, more := UpdateDirectory(order[i], listings[order[i]], files);
          LedOn(x0, es, x, more, Abs());
          es := es + more;
          if !ok {
            DirectoryComes(order, listings, i);
            HaltedLater(x0, AllTurns(order[..i], listings), ms, TurnsOf(order[i], listings[order[i]]), also, AllTurns(order, listings), files, Abs());
            ms := ms + also;
            return;
          }
          ScannedAppend(x0, AllTurns(order[..i], listings), ms, TurnsOf(order[i], listings[order[i]]), also, files);
          ms := ms + also;
        }
        i := i + 1;
      }
      assert order[..i] == order;
    }

    /**
     activation_find_entry.  A cached entry is compared with its file first, and the entry is
     returned even if it has been renamed by that.  Otherwise all directories are read again.
     */
    method FindEntry(n: string, order: seq<Dir>, listings: map<Dir, seq<string>>, files: Files)
      returns (r: Lookup, ghost missed: bool, ghost ms: seq<bool>, ghost es: seq<Event>)
      requires Inv(Abs()) && forall d | d in order :: d in dirs
      modifies this
      ensures Led(old(Abs()), es, Abs())
      ensures r.Found? ==> r.entry in heap
      ensures n in old(names) && !r.LookupOutOfMemory? ==> var e := old(heap[names[n]]); (r.Found? <==> (e.dir, e.file) in files)
      ensures n in old(names) && r.Found? ==>
                r.entry == old(names)[n] && (heap[r.entry].name == n <==> missed || !RenamedOnDisk(old(Abs()), n, files))
      ensures n in old(names) && r.Found? ==>
                var e := old(heap[names[n]]);
                var state := files[(e.dir, e.file)];
                var read := !missed && state.mtime > e.mtime && state.contents.Some?
                            && (state.contents.value.name == n || state.contents.value.name !in old(names));
                heap[r.entry] == if read then Entry(state.contents.value.name, state.contents.value.exec, e.dir, e.file, state.mtime) else e
      ensures n !in old(names) && !r.LookupOutOfMemory? ==>
                |ms| == |AllTurns(order, listings)| && (r.Found? <==> Provided(old(Abs()), AllTurns(order, listings), ms, files, n))
      ensures n !in old(names) && r.Found? ==> n in names && names[n] == r.entry && heap[r.entry].name == n
      ensures n !in old(names) && r.Found? ==> SaysWhatFileSays(heap[r.entry], files, Turn(heap[r.entry].dir, heap[r.entry].file))
      ensures r.NoSuchService? ==> n !in names
      ensures enough ==> !r.LookupOutOfMemory? && !missed && true !in ms
    {
      hide Inv, Scanned, Provided;
      ghost var x := Abs();
      missed, ms := false, [];
      if n in names {
        var e := names[n];
        NamedHas(x, n);
        var ok, gone;
        ok, gone, missed, es := CheckServiceFile(heap[e].dir, heap[e].file, files);
        if !ok {
          return LookupOutOfMemory, missed, ms, es;
        }
        if gone {
          assert es[1..] == [] && Run(x, es) == Run(Apply(x, es[0]), []);
          return NoSuchService, missed, ms, es;
        }
        if !missed { RewriteName(x, n, files, es); }
        CheckedEntry(x, n, files, missed, es);
        return Found(e), missed, ms, es;
      }
      var ok;
      ok, ms, es := UpdateServiceCache(order, listings, files);
      if !ok {
        return LookupOutOfMemory, missed, ms, es;
      }
      FoundAfterScanIff(x, AllTurns(order, listings), ms, files, n);
      if n !in names {
        return NoSuchService, missed, ms, es;
      }
      NamedHas(Abs(), n);
      NamedAfterScan(x, AllTurns(order, listings), ms, files, n);
      return Found(names[n]), missed, ms, es;
    }

    /** bus_activation_list_services: no name is listed twice, and every name is listed. */
    method ListServices() returns (list: seq<string>)
      requires Inv(Abs())
      ensures |list| == |names| && (forall n :: n in list <==> n in names)
      ensures forall i, j :: 0 <= i < j < |list| ==> list[i] != list[j]
    {
      var todo := names.Keys;
      list := [];
      while todo != {}
        invariant todo <= names.Keys && |list| + |todo| == |names|
        invariant forall n :: n in list <==> n in names && n !in todo
        invariant forall i, j :: 0 <= i < j < |list| ==> list[i] != list[j]
        decreases todo
      {
        var n :| n in todo;
        list := list + [heap[names[n]].name];
        todo := todo - {n};
      }
    }

    /** bus_activation_reload, before the directories are read. */
    method Clear(ds: set<Dir>, strict: set<Dir>)
      requires Inv(Abs())
      modifies this
      ensures Inv(Abs()) && Abs() == Apply(old(Abs()), Reload(ds, strict))
      ensures names == map[] && dirs == (map d | d in ds :: map[]) && this.strict == strict && heap == old(heap)
    {
      StepKeepsInv(Abs(), Reload(ds, strict));
      names, dirs := map[], map d | d in ds :: map[];
      this.strict := strict;
    }
  }

  /** Memory has run out in a turn: nothing has come of it, or a file that has changed is no longer cached. */
  predicate Halted(x: Index, u: Turn, files: Files, x': Index) {
    || x' == x
    || (&& Has(x, u.d, u.f) && (u.d, u.f) in files
        && var state := files[(u.d, u.f)];
           && state.contents.Some? && state.mtime > x.heap[At(x, u.d, u.f)].mtime
           && x' == ApplyRewrite(x, u.d, u.f, state.contents.value, state.mtime, false))
  }

  /** Memory has run out in the turn after those of ms. */
  predicate HaltedIn(x: Index, us: seq<Turn>, ms: seq<bool>, files: Files, x': Index) {
    |ms| < |us| && Halted(Scanned(x, us[..|ms|], ms, files), us[|ms|], files, x')
  }

  lemma NothingLed(x: Index)
    requires Inv(x)
    ensures Led(x, [], x)
  {
  }

  lemma NoTurns(d: Dir)
    ensures TurnsOf(d, []) == []
  {
  }

  lemma TurnsNext(d: Dir, listing: seq<string>, i: nat)
    requires i < |listing|
    ensures var so := TurnsOf(d, listing[..i]);
            TurnsOf(d, listing[..i + 1]) == if EndsWithService(listing[i]) then so + [Turn(d, listing[i])] else so
  {
    hide EndsWithService;
    assert listing[..i + 1][..i] == listing[..i] && listing[..i + 1][i] == listing[i];
    assert TurnsOf(d, listing[..i]) + [] == TurnsOf(d, listing[..i]);
  }

  lemma {:induction false} TurnComes(d: Dir, listing: seq<string>, i: nat)
    requires i < |listing| && EndsWithService(listing[i])
    ensures var before, us := TurnsOf(d, listing[..i]), TurnsOf(d, listing);
            |before| < |us| && us[..|before|] == before && us[|before|] == Turn(d, listing[i])
  {
    hide EndsWithService;
    var n := |listing| - 1;
    if i < n {
      TurnComes(d, listing[..n], i);
      assert listing[..n][..i] == listing[..i];
    }
  }

  lemma {:induction false} DirectoryComes(order: seq<Dir>, listings: map<Dir, seq<string>>, i: nat)
    requires i < |order| && order[i] in listings
    ensures AllTurns(order[..i], listings) + TurnsOf(order[i], listings[order[i]]) <= AllTurns(order, listings)
  {
    hide TurnsOf;
    var n := |order| - 1;
    if i < n {
      DirectoryComes(order[..n], listings, i);
      assert order[..n][..i] == order[..i];
    }
  }

  lemma HaltedLater(x: Index, us: seq<Turn>, ms: seq<bool>, vs: seq<Turn>, ns: seq<bool>, all: seq<Turn>, files: Files, x': Index)
    requires |ms| == |us| && us + vs <= all && HaltedIn(Scanned(x, us, ms, files), vs, ns, files, x')
    ensures HaltedIn(x, all, ms + ns, files, x')
  {
    hide Scanned, Halted;
    ScannedAppend(x, us, ms, vs[..|ns|], ns, files);
    assert all[..|us| + |ns|] == us + vs[..|ns|] && all[|us| + |ns|] == vs[|ns|];
  }

  lemma NothingScanned(x: Index, files: Files)
    ensures Scanned(x, [], [], files) == x
  {
  }

  lemma LedTurn(x: Index, es: seq<Event>, x': Index)
    requires Led(x, es, x') && |es| <= 1
    ensures x' == if es == [] then x else Apply(x, es[0])
  {
    if es != [] { assert es[1..] == [] && Run(x, es) == Run(Apply(x, es[0]), []); }
  }

  predicate EndsWithService(f: string) { |f| >= 8 && f[|f| - 8..] == ".service" }

  lemma FiledHas(x: Index, d: Dir, f: string)
    requires Inv(x) && d in x.dirs && f in x.dirs[d]
    ensures Has(x, d, f)
  {
  }

  lemma NamedHas(x: Index, n: string)
    requires Inv(x) && n in x.names
    ensures x.names[n] in x.heap && x.heap[x.names[n]].name == n
    ensures Has(x, x.heap[x.names[n]].dir, x.heap[x.names[n]].file) && At(x, x.heap[x.names[n]].dir, x.heap[x.names[n]].file) == x.names[n]
  {
  }

  /** The file that provides n has been edited since to name a service that nobody provides. */
  predicate RenamedOnDisk(x: Index, n: string, files: Files)
    requires n in x.names && x.names[n] in x.heap
  {
    var e := x.heap[x.names[n]];
    && (e.dir, e.file) in files
    && files[(e.dir, e.file)].mtime > e.mtime
    && files[(e.dir, e.file)].contents.Some?
    && files[(e.dir, e.file)].contents.value.name != n && files[(e.dir, e.file)].contents.value.name !in x.names
  }

  /** The entry of n once it has been compared with its file. */
  lemma CheckedEntry(x: Index, n: string, files: Files, missed: bool, es: seq<Event>)
    requires Inv(x) && n in x.names && Runnable(x, es)
    requires var e := x.heap[x.names[n]];
             (e.dir, e.file) in files && Has(x, e.dir, e.file) && es == if missed then [] else CheckEvents(x, e.dir, e.file, files)
    ensures var x', e := Run(x, es), x.heap[x.names[n]];
            var state := files[(e.dir, e.file)];
            var read := !missed && state.mtime > e.mtime && state.contents.Some?
                        && (state.contents.value.name == n || state.contents.value.name !in x.names);
            && x.names[n] in x'.heap
            && x'.heap[x.names[n]] == if read then Entry(state.contents.value.name, state.contents.value.exec, e.dir, e.file, state.mtime) else e
  {
    NamedHas(x, n);
    if es != [] {
      assert es[1..] == [] && Run(x, es) == Run(Apply(x, es[0]), []);
    }
  }

  lemma RewriteName(x: Index, n: string, files: Files, es: seq<Event>)
    requires Inv(x) && n in x.names && Runnable(x, es)
    requires var e := x.heap[x.names[n]];
             && (e.dir, e.file) in files
             && var state := files[(e.dir, e.file)];
                es == if state.mtime > e.mtime && state.contents.Some? then [Rewrite(e.dir, e.file, state.contents.value, state.mtime, true)] else []
    ensures var x' := Run(x, es); x.names[n] in x'.heap && (x'.heap[x.names[n]].name == n <==> !RenamedOnDisk(x, n, files))
  {
    NamedHas(x, n);
    if es != [] {
      assert es[1..] == [] && Run(x, es) == Run(Apply(x, es[0]), []) == Apply(x, es[0]);
    }
  }

  lemma {:induction false} RunConcat(x: Index, es: seq<Event>, more: seq<Event>)
    requires Runnable(x, es) && Runnable(Run(x, es), more)
    ensures Runnable(x, es + more) && Run(x, es + more) == Run(Run(x, es), more)
    decreases |es|
  {
    if es == [] {
      assert es + more == more;
    } else {
      assert (es + more)[1..] == es[1..] + more;
      RunConcat(Apply(x, es[0]), es[1..], more);
    }
  }

  lemma LedOn(x: Index, es: seq<Event>, x': Index, more: seq<Event>, x'': Index)
    requires Led(x, es, x') && Led(x', more, x'')
    ensures Led(x, es + more, x'')
  {
    RunConcat(x, es, more);
  }
}
