/** The parser as it is updated, with the stack of included files that all parsers of one load share. */
module ConfigCode {
  import opened BusTypes
  import opened ConfigMerge
  import opened ConfigInclude
  import opened ConfigMeaning

  /** The list behind BusConfigParser.included_files, one object for parent and children. */
  class IncludeStack {
    var files: seq<string>

    constructor ()
      ensures files == []
    {
      files := [];
    }
  }

  class BusConfigParser {
    var config: Config
    const included: IncludeStack

    constructor (limits: map<string, int>, included: IncludeStack)
      ensures config == Fresh(limits) && this.included == included
    {
      config := Fresh(limits);
      this.included := included;
    }
  }

  method SeenInclude(stack: IncludeStack, p: string) returns (seen: bool)
    ensures seen <==> p in stack.files
  {
    var i := 0;
    while i < |stack.files|
      invariant i <= |stack.files| && p !in stack.files[..i]
    {
      if stack.files[i] == p {
        return true;
      }
      i := i + 1;
    }
    return false;
  }

  /** service_dirs_append_link_unique_or_free */
  method AppendUnique(ds: seq<ServiceDir>, d: ServiceDir) returns (r: seq<ServiceDir>)
    ensures r == AddDir(ds, d)
  {
    var i := 0;
    while i < |ds| && ds[i].path != d.path
      invariant i <= |ds| && forall j :: 0 <= j < i ==> ds[j].path != d.path
    {
      i := i + 1;
    }
    if i == |ds| {
      return ds + [d];
    }
    return ds[i := ds[i].(flags := ds[i].flags * d.flags)];
  }

  method MoveAll(a: seq<string>, b: seq<string>) returns (r: seq<string>)
    ensures r == a + b
  {
    r := a;
    var rest := b;
    while rest != []
      invariant r + rest == a + b
      decreases |rest|
    {
      assert r + rest == r + [rest[0]] + rest[1..];
      r, rest := r + [rest[0]], rest[1..];
    }
  }

  method MoveDirs(a: seq<ServiceDir>, b: seq<ServiceDir>) returns (r: seq<ServiceDir>)
    ensures r == AddDirs(a, b)
  {
    r := a;
    var i := 0;
    while i < |b|
      invariant i <= |b| && r == AddDirs(a, b[..i])
    {
      assert b[..i + 1][..i] == b[..i];
      r := AppendUnique(r, b[i]);
      i := i + 1;
    }
    assert b[..i] == b;
  }

  function Copied(more: map<string, string>, todo: set<string>): map<string, string> {
    map n | n in more && n !in todo :: more[n]
  }

  lemma CopyOne(a: map<string, string>, more: map<string, string>, todo: set<string>, n: string)
    requires n in todo && n in more
    ensures (a + Copied(more, todo))[n := more[n]] == a + Copied(more, todo - {n})
  {
  }

  lemma CopyEnds(a: map<string, string>, more: map<string, string>)
    ensures a + Copied(more, more.Keys) == a && a + Copied(more, {}) == a + more
  {
    assert Copied(more, more.Keys) == map[] && Copied(more, {}) == more;
  }

  /** merge_service_context_hash; out of memory leaves the contexts that were copied so far. */
  method CopyContexts(enough: bool, ghost c: Config, a: map<string, string>, more: map<string, string>)
    returns (ok: bool, r: map<string, string>, ghost ds: seq<Directive>)
    requires c.contexts == a
    ensures ok ==> r == a + more
    ensures c.(contexts := r) == Fold(c, ds) && (enough ==> ok)
    ensures forall d | d in ds :: d.Associate? && d.name in more && d.context == more[d.name]
  {
    hide Fold, Do, Copied;
    var todo := more.Keys;
    r, ds := a, [];
    FoldNone(c);
    CopyEnds(a, more);
    while todo != {}
      invariant todo <= more.Keys && c.(contexts := r) == Fold(c, ds) && r == a + Copied(more, todo)
      invariant forall d | d in ds :: d.Associate? && d.name in more && d.context == more[d.name]
      decreases todo
    {
      var full := Exhausted(enough);
      if full {
        return false, r, ds;
      }
      var n :| n in todo;
      FoldOneMore(c, ds, Associate(n, more[n]));
      CopyOne(a, more, todo, n);
      r, ds := r[n := more[n]], ds + [Associate(n, more[n])];
      todo := todo - {n};
    }
    ok := true;
  }

  lemma FoldNone(c: Config)
    ensures Fold(c, []) == c
  {
  }

  lemma FoldOneMore(c: Config, ds: seq<Directive>, d: Directive)
    ensures Fold(c, ds + [d]) == Do(Fold(c, ds), d)
    ensures d.Associate? ==> Do(Fold(c, ds), d) == Fold(c, ds).(contexts := Fold(c, ds).contexts[d.name := d.context])
  {
    assert (ds + [d])[..|ds|] == ds;
  }

  /** Values that replace those of the including file, and switches that can only be turned on. */
  method MergeValues(c: Config, x: Config) returns (r: Config)
    ensures r == c.(user := Over(c.user, x.user), busType := Over(c.busType, x.busType), pidfile := Over(c.pidfile, x.pidfile), helper := Over(c.helper, x.helper),
                    fork := c.fork || x.fork, keepUmask := c.keepUmask || x.keepUmask, anonymous := c.anonymous || x.anonymous)
  {
    var user, busType, pidfile, helper := c.user, c.busType, c.pidfile, c.helper;
    var fork, keepUmask, anonymous := c.fork, c.keepUmask, c.anonymous;
    if x.user.Some? { user := x.user; }
    if x.busType.Some? { busType := x.busType; }
    if x.fork { fork := true; }
    if x.keepUmask { keepUmask := true; }
    if x.anonymous { anonymous := true; }
    if x.pidfile.Some? { pidfile := x.pidfile; }
    if x.helper.Some? { helper := x.helper; }
    r := c.(user := user, busType := busType, pidfile := pidfile, helper := helper, fork := fork, keepUmask := keepUmask, anonymous := anonymous);
  }

  /** merge_included */
  method MergeIncluded(enough: bool, p: BusConfigParser, x: BusConfigParser) returns (ok: bool, ghost ds: seq<Directive>)
    requires p != x
    modifies p`config
    ensures ok ==> p.config == Merge(old(p.config), x.config).(limits := old(p.config).limits)
    ensures !ok ==> p.config == Fold(old(p.config), ds) && !enough
    ensures forall d | d in ds :: d.Associate? && d.name in x.config.contexts && d.context == x.config.contexts[d.name]
  {
    hide Fold, AddDirs, Over;
    var contexts;
    ok, contexts, ds := CopyContexts(enough, p.config, p.config.contexts, x.config.contexts);
    p.config := p.config.(contexts := contexts);
    if !ok {
      return;
    }
    p.config := MergeValues(p.config, x.config);
    var listen := MoveAll(p.config.listen, x.config.listen);
    var mechanisms := MoveAll(p.config.mechanisms, x.config.mechanisms);
    var dirs := MoveDirs(p.config.dirs, x.config.dirs);
    var confDirs := MoveAll(p.config.confDirs, x.config.confDirs);
    p.config := p.config.(listen := listen, mechanisms := mechanisms, dirs := dirs, confDirs := confDirs);
  }

  lemma MergeLimits(c: Config, x: Config)
    ensures Merge(c, x).limits == x.limits
  {
  }

  // ---- Including ----

  /** Given memory, the call comes to r; c' is the configuration it leaves if it succeeds. */
  ghost predicate ComesTo(r: Result<Config>, ok: bool, e: Error, c': Config, short: bool) {
    !short ==> r == if ok then Ok(c') else Err(e)
  }

  lemma PartStands(fs: Files, items: seq<Item>, c: Config, inner: seq<Directive>, part: seq<Directive>)
    requires c.contexts == map[] && AllStand(fs, items, inner)
    requires var x := Fold(c, inner).contexts; forall d | d in part :: d.Associate? && d.name in x && d.context == x[d.name]
    ensures AllStand(fs, items, part)
  {
    hide Fold, Stands;
    forall d | d in part ensures Stands(fs, items, d) {
      ContextStands(c, inner, d.name);
    }
  }

  lemma {:induction false} WithoutSyslogStands(fs: Files, items: seq<Item>, ds: seq<Directive>)
    requires AllStand(fs, items, ds)
    ensures AllStand(fs, items, WithoutSyslog(ds))
  {
    hide Stands;
    if ds != [] { WithoutSyslogStands(fs, items, ds[..|ds| - 1]); }
  }

  lemma StandOne(fs: Files, items: seq<Item>, d: Directive)
    requires Stands(fs, items, d)
    ensures AllStand(fs, items, [d])
  {
  }

  lemma StandNothing(fs: Files, items: seq<Item>)
    ensures AllStand(fs, items, [])
  {
  }

  lemma StandsInFile(fs: Files, p: string, ds: seq<Directive>)
    requires p in fs && AllStand(fs, fs[p], ds)
    ensures AllStand(fs, [], ds)
  {
  }

  lemma StandsThere(fs: Files, items: seq<Item>, ds: seq<Directive>)
    requires AllStand(fs, [], ds)
    ensures AllStand(fs, items, ds)
  {
  }

  lemma StandsInWhole(fs: Files, items: seq<Item>, i: nat, ds: seq<Directive>)
    requires i < |items| && AllStand(fs, [items[i]], ds)
    ensures AllStand(fs, items, ds)
  {
  }

  lemma StandMore(fs: Files, items: seq<Item>, a: seq<Directive>, b: seq<Directive>)
    requires AllStand(fs, items, a) && AllStand(fs, items, b)
    ensures AllStand(fs, items, a + b)
  {
  }

  /** Read the file with a parser of its own, while its path is on the stack. */
  method LoadIncluded(enough: bool, p: BusConfigParser, fs: Files, ls: Listings, path: string)
    returns (ok: bool, e: Error, x: BusConfigParser, ghost inner: seq<Directive>, ghost short: bool)
    requires path !in p.included.files
    modifies p.included`files
    ensures p.included.files == old(p.included.files) && fresh(x) && x.config == Fold(Fresh(p.config.limits), inner)
    ensures path !in fs ==> !ok && !short && e == NotFound
    ensures path in fs ==> ComesTo(Eval(fs, ls, Fresh(p.config.limits), fs[path], old(p.included.files) + [path]), ok, e, x.config, short)
    ensures AllStand(fs, [], inner) && (enough ==> !short)
    decreases Unseen(fs, p.included.files), 0, 0
  {
    hide Fold, Do, AllStand, Eval;
    ghost var stack := p.included.files;
    StandNothing(fs, []);
    p.included.files := p.included.files + [path];
    x := new BusConfigParser(p.config.limits, p.included);
    FoldNone(x.config);
    ok, e, inner, short := false, NotFound, [], false;
    if path in fs {
      assert path in Unseen(fs, stack) && path !in Unseen(fs, stack + [path]) && Unseen(fs, stack + [path]) <= Unseen(fs, stack);
      ok, e, inner, short := Load(enough, x, fs, ls, fs[path]);
      StandsInFile(fs, path, inner);
    }
    p.included.files := p.included.files[..|p.included.files| - 1];
    assert p.included.files == stack;
  }

  /**
   include_file.  Whatever happens, the stack is left as it was found.  ds says what has been done
   to the configuration; `short`, that memory has run out somewhere on the way.
   */
  method IncludeFile(enough: bool, p: BusConfigParser, fs: Files, ls: Listings, path: string, ignore: bool)
    returns (ok: bool, e: Error, ghost ds: seq<Directive>, ghost short: bool)
    modifies p`config, p.included`files
    ensures p.included.files == old(p.included.files) && p.config == Fold(old(p.config), ds)
    ensures ComesTo(EvalFile(fs, ls, old(p.config), path, ignore, old(p.included.files)), ok, e, p.config, short)
    ensures !ok && !short ==> p.config == old(p.config)
    ensures AllStand(fs, [], ds) && (enough ==> !short)
    decreases Unseen(fs, p.included.files), 0, 1
  {
    hide Fold, Merge, Do, AllStand, Eval, Unseen;
    StandNothing(fs, []);
    ghost var c, stack := p.config, p.included.files;
    FoldNone(c);
    ok, e, ds, short := false, Circular, [], false;
    var seen := SeenInclude(p.included, path);
    if seen {
      return;
    }
    var full := Exhausted(enough);
    if full {
      return false, OutOfMemory, [], true;
    }
    var x;
    ghost var inner;
    ok, e, x, inner, short := LoadIncluded(enough, p, fs, ls, path);
    if !ok {
      ok := e.NotFound? && ignore;
      return;
    }
    ghost var partial;
    ok, partial := MergeIncluded(enough, p, x);
    PartStands(fs, [], Fresh(c.limits), inner, partial);
    if !ok {
      return false, OutOfMemory, partial, true;
    }
    MergeLimits(c, x.config);
    MergeAny(c, inner);
    WithoutSyslogStands(fs, [], inner);
    ds := WithoutSyslog(inner);
    p.config := p.config.(limits := x.config.limits);
  }

  /** include_dir: the errors of its files are logged and forgotten. */
  method IncludeDirectory(enough: bool, p: BusConfigParser, fs: Files, ls: Listings, dir: string)
    returns (ok: bool, e: Error, ghost ds: seq<Directive>, ghost short: bool)
    modifies p`config, p.included`files
    ensures p.included.files == old(p.included.files) && p.config == Fold(old(p.config), ds)
    ensures ComesTo(EvalItem(fs, ls, old(p.config), IncludeDir(dir), old(p.included.files)), ok, e, p.config, short)
    ensures AllStand(fs, [], ds) && (enough ==> !short)
    decreases Unseen(fs, p.included.files), 1, 0
  {
    hide Fold, Do, AllStand;
    ghost var c, stack := p.config, p.included.files;
    FoldNone(c);
    StandNothing(fs, []);
    ok, e, ds, short := true, Rejected, [], false;
    if dir !in ls {
      return;
    }
    var paths := ls[dir].paths;
    var i := 0;
    while i < |paths|
      invariant i <= |paths| && p.included.files == stack && p.config == Fold(c, ds) && AllStand(fs, [], ds) && (enough ==> !short)
      invariant !short ==> EvalDir(fs, ls, c, paths, stack) == EvalDir(fs, ls, p.config, paths[i..], stack)
    {
      assert paths[i..][1..] == paths[i + 1..];
      if EndsWithConf(paths[i]) {
        ghost var more, s;
        var b;
        b, e, more, s := IncludeFile(enough, p, fs, ls, paths[i], true);
        StandMore(fs, [], ds, more);
        FoldAppend(c, ds, more);
        ds, short := ds + more, short || s;
      }
      i := i + 1;
    }
    if ls[dir].failed {
      return false, Rejected, ds, short;
    }
    var full := Exhausted(enough);
    if full {
      return false, OutOfMemory, ds, true;
    }
    FoldOneMore(c, ds, ConfDir(dir));
    StandOne(fs, [], ConfDir(dir));
    StandMore(fs, [], ds, [ConfDir(dir)]);
    p.config := DoIt(p.config, ConfDir(dir));
    ds := ds + [ConfDir(dir)];
  }

  /** Set the field that the element is about. */
  method DoIt(c: Config, d: Directive) returns (r: Config)
    ensures r == Do(c, d)
  {
    match d {
      case AddServiceDir(dir) =>
        var dirs := AppendUnique(c.dirs, dir);
        r := c.(dirs := dirs);
      case _ => r := Do(c, d);
    }
  }

  /** One element. */
  method LoadItem(enough: bool, p: BusConfigParser, fs: Files, ls: Listings, item: Item)
    returns (ok: bool, e: Error, ghost ds: seq<Directive>, ghost short: bool)
    modifies p`config, p.included`files
    ensures p.included.files == old(p.included.files) && p.config == Fold(old(p.config), ds)
    ensures ComesTo(EvalItem(fs, ls, old(p.config), item, old(p.included.files)), ok, e, p.config, short)
    ensures AllStand(fs, [item], ds) && (enough ==> !short)
    decreases Unseen(fs, p.included.files), 2, 0
  {
    hide Fold, Do, AllStand;
    FoldNone(p.config);
    StandNothing(fs, [item]);
    ok, e, ds, short := false, Rejected, [], false;
    match item {
      case Broken =>
      case Plain(d) =>
        if Accepted(d) {
          var full := Exhausted(enough);
          if full {
            return false, OutOfMemory, [], true;
          }
          FoldOneMore(p.config, [], d);
          StandOne(fs, [item], d);
          assert [] + [d] == [d];
          p.config := DoIt(p.config, d);
          ok, ds := true, [] + [d];
        }
      case Include(path, ignore) => 
        ok, e, ds, short := IncludeFile(enough, p, fs, ls, path, ignore);
        StandsThere(fs, [item], ds);
      case IncludeDir(dir) =>
        ok, e, ds, short := IncludeDirectory(enough, p, fs, ls, dir);
        StandsThere(fs, [item], ds);
    }
  }

  /** The contents of one file, element after element, up to the first failure. */
  method Load(enough: bool, p: BusConfigParser, fs: Files, ls: Listings, items: seq<Item>)
    returns (ok: bool, e: Error, ghost ds: seq<Directive>, ghost short: bool)
    modifies p`config, p.included`files
    ensures p.included.files == old(p.included.files) && p.config == Fold(old(p.config), ds)
    ensures ComesTo(Eval(fs, ls, old(p.config), items, old(p.included.files)), ok, e, p.config, short)
    ensures AllStand(fs, items, ds) && (enough ==> !short)
    ensures Says(old(p.config), ds, p.config)
    ensures ok && !short ==>
              var flat := Flat(fs, ls, items, old(p.included.files));
              flat.Ok? && Says(old(p.config), flat.value, p.config)
    decreases Unseen(fs, p.included.files), 3, 0
  {
    hide Fold, Do, Says, AllStand;
    ghost var c, stack := p.config, p.included.files;
    FoldNone(c);
    StandNothing(fs, items);
    Flattening(fs, ls, c, items, stack);
    ok, e, ds, short := true, Rejected, [], false;
    var i := 0;
    assert items[0..] == items;
    while i < |items|
      invariant i <= |items| && ok && p.included.files == stack && p.config == Fold(c, ds) && AllStand(fs, items, ds) && (enough ==> !short)
      invariant !short ==> Eval(fs, ls, c, items, stack) == Eval(fs, ls, p.config, items[i..], stack)
    {
      assert items[i..][1..] == items[i + 1..];
      ghost var more, s;
      ok, e, more, s := LoadItem(enough, p, fs, ls, items[i]);
      StandsInWhole(fs, items, i, more);
      StandMore(fs, items, ds, more);
      FoldAppend(c, ds, more);
      ds, short := ds + more, short || s;
      if !ok {
        FoldSays(c, ds);
        return;
      }
      i := i + 1;
    }
    FoldSays(c, ds);
    ghost var flat := Flat(fs, ls, items, stack);
    if flat.Ok? { FoldSays(c, flat.value); }
  }

  /** The file the daemon is started with; it is not on the stack itself.  At the end, bus_config_parser_finished. */
  method LoadToplevel(enough: bool, fs: Files, ls: Listings, items: seq<Item>, defaults: map<string, int>)
    returns (ok: bool, e: Error, p: BusConfigParser, ghost ds: seq<Directive>, ghost short: bool)
    ensures ComesTo(EvalToplevel(fs, ls, items, defaults), ok, e, p.config, short)
    ensures Means(ds, defaults, p.config) && AllStand(fs, items, ds) && (enough ==> !short) && (ok ==> p.config.listen != [])
    ensures ok && !short ==> Flat(fs, ls, items, []).Ok? && Means(Flat(fs, ls, items, []).value, defaults, p.config)
  {
    ToplevelMeans(fs, ls, items, defaults);
    var stack := new IncludeStack();
    p := new BusConfigParser(defaults, stack);
    assert Blank(p.config, defaults);
    ok, e, ds, short := Load(enough, p, fs, ls, items);
    if ok && p.config.listen == [] {
      ok, e := false, NoListen;
    }
  }
}
