/**
 What a list of directives means, setting by setting: the last one wins, flags stay on, and lists
 grow in order.  None of this is said in terms of processing one directive after the other.
*/
module ConfigMeaning {
  import opened BusTypes
  import opened ConfigMerge
  import opened ConfigInclude

  /** now is the last of xs that is there, or was if there is none. */
  ghost predicate LastWins<T>(xs: seq<Option<T>>, was: Option<T>, now: Option<T>) {
    || (now == was && forall i | 0 <= i < |xs| :: xs[i].None?)
    || exists i :: 0 <= i < |xs| && xs[i].Some? && now == xs[i] && forall j | i < j < |xs| :: xs[j].None?
  }

  /** Those of xs that are there, in order. */
  function Present<T>(xs: seq<Option<T>>): seq<T> {
    if xs == [] then [] else (if xs[0].Some? then [xs[0].value] else []) + Present(xs[1..])
  }

  function At<T>(m: map<string, T>, n: string): Option<T> { if n in m then Some(m[n]) else None }

  /** The settings that are texts. */
  datatype Setting = TheUser | TheType | ThePidFile | TheHelper | AnAddress | AMechanism | AConfDir | TheContextOf(name: string)

  /** What a directive says about a setting, if anything. */
  function TextOf(d: Directive, s: Setting): Option<string> {
    match d
    case User(t) => if s == TheUser then Some(t) else None
    case Type(t) => if s == TheType then Some(t) else None
    case PidFile(t) => if s == ThePidFile then Some(t) else None
    case ServiceHelper(t) => if s == TheHelper then Some(t) else None
    case Listen(t) => if s == AnAddress then Some(t) else None
    case Auth(t) => if s == AMechanism then Some(t) else None
    case ConfDir(t) => if s == AConfDir then Some(t) else None
    case Associate(n, t) => if s == TheContextOf(n) then Some(t) else None
    case _ => None
  }

  function Texts(ds: seq<Directive>, s: Setting): (xs: seq<Option<string>>)
    ensures |xs| == |ds| && forall i | 0 <= i < |ds| :: xs[i] == TextOf(ds[i], s)
  {
    seq(|ds|, i requires 0 <= i < |ds| => TextOf(ds[i], s))
  }

  function LimitsOn(ds: seq<Directive>, n: string): (xs: seq<Option<int>>)
    ensures |xs| == |ds| && forall i | 0 <= i < |ds| :: xs[i] == if ds[i].Limit? && ds[i].name == n then Some(ds[i].value) else None
  {
    seq(|ds|, i requires 0 <= i < |ds| => if ds[i].Limit? && ds[i].name == n then Some(ds[i].value) else None)
  }

  function Mentions(ds: seq<Directive>): (xs: seq<Option<ServiceDir>>)
    ensures |xs| == |ds| && forall i | 0 <= i < |ds| :: xs[i] == if ds[i].AddServiceDir? then Some(ds[i].dir) else None
  {
    seq(|ds|, i requires 0 <= i < |ds| => if ds[i].AddServiceDir? then Some(ds[i].dir) else None)
  }

  predicate Occurs(ds: seq<Directive>, d: Directive) { exists i :: 0 <= i < |ds| && ds[i] == d }

  /** c' is what the directives ds make of c. */
  ghost predicate Says(c: Config, ds: seq<Directive>, c': Config) {
    SaysValues(c, ds, c') && SaysFlags(c, ds, c') && SaysLists(c, ds, c') && SaysTables(c, ds, c')
  }

  ghost predicate SaysValues(c: Config, ds: seq<Directive>, c': Config) {
    && LastWins(Texts(ds, TheUser), c.user, c'.user) && LastWins(Texts(ds, TheType), c.busType, c'.busType)
    && LastWins(Texts(ds, ThePidFile), c.pidfile, c'.pidfile) && LastWins(Texts(ds, TheHelper), c.helper, c'.helper)
  }

  predicate SaysFlags(c: Config, ds: seq<Directive>, c': Config) {
    && (c'.fork <==> c.fork || Occurs(ds, Fork)) && (c'.syslog <==> c.syslog || Occurs(ds, Syslog))
    && (c'.keepUmask <==> c.keepUmask || Occurs(ds, KeepUmask)) && (c'.anonymous <==> c.anonymous || Occurs(ds, AllowAnonymous))
  }

  predicate SaysLists(c: Config, ds: seq<Directive>, c': Config) {
    && c'.listen == c.listen + Present(Texts(ds, AnAddress)) && c'.mechanisms == c.mechanisms + Present(Texts(ds, AMechanism))
    && c'.confDirs == c.confDirs + Present(Texts(ds, AConfDir)) && c'.dirs == AddDirs(c.dirs, Present(Mentions(ds)))
  }

  ghost predicate SaysTables(c: Config, ds: seq<Directive>, c': Config) {
    && (forall n: string :: LastWins(Texts(ds, TheContextOf(n)), At(c.contexts, n), At(c'.contexts, n)))
    && (forall n: string :: LastWins(LimitsOn(ds, n), At(c.limits, n), At(c'.limits, n)))
  }

  // ---- One directive more ----

  lemma LastMore<T>(xs: seq<Option<T>>, x: Option<T>, was: Option<T>, now: Option<T>)
    requires LastWins(xs, was, now)
    ensures LastWins(xs + [x], was, if x.Some? then x else now)
  {
    var more := xs + [x];
    assert more[|xs|] == x && forall i | 0 <= i < |xs| :: more[i] == xs[i];
    if x.None? && !(now == was && forall i | 0 <= i < |xs| :: xs[i].None?) {
      var i :| 0 <= i < |xs| && xs[i].Some? && now == xs[i] && forall j | i < j < |xs| :: xs[j].None?;
      assert more[i].Some? && now == more[i] && forall j | i < j < |more| :: more[j].None?;
    }
  }

  lemma {:induction false} PresentMore<T>(xs: seq<Option<T>>, x: Option<T>)
    ensures Present(xs + [x]) == Present(xs) + if x.Some? then [x.value] else []
  {
    if xs == [] {
      assert xs + [x] == [x] && [x][1..] == [];
    } else {
      TailAppend(xs, x);
      PresentMore(xs[1..], x);
      Regroup(if xs[0].Some? then [xs[0].value] else [], Present(xs[1..]), if x.Some? then [x.value] else []);
    }
  }

  lemma TextsMore(ds: seq<Directive>, d: Directive, s: Setting)
    ensures Texts(ds + [d], s) == Texts(ds, s) + [TextOf(d, s)]
  {
  }

  lemma ValueMore(ds: seq<Directive>, d: Directive, s: Setting, was: Option<string>, now: Option<string>)
    requires LastWins(Texts(ds, s), was, now)
    ensures LastWins(Texts(ds + [d], s), was, if TextOf(d, s).Some? then TextOf(d, s) else now)
  {
    TextsMore(ds, d, s);
    LastMore(Texts(ds, s), TextOf(d, s), was, now);
  }

  lemma DoValue(c: Config, d: Directive)
    ensures Do(c, d).user == (if TextOf(d, TheUser).Some? then TextOf(d, TheUser) else c.user)
    ensures Do(c, d).busType == (if TextOf(d, TheType).Some? then TextOf(d, TheType) else c.busType)
    ensures Do(c, d).pidfile == (if TextOf(d, ThePidFile).Some? then TextOf(d, ThePidFile) else c.pidfile)
    ensures Do(c, d).helper == (if TextOf(d, TheHelper).Some? then TextOf(d, TheHelper) else c.helper)
  {
    hide AddDir;
  }

  lemma SaysValuesMore(c: Config, ds: seq<Directive>, c': Config, d: Directive)
    requires SaysValues(c, ds, c')
    ensures SaysValues(c, ds + [d], Do(c', d))
  {
    hide LastWins, Do, TextOf, Texts;
    DoValue(c', d);
    ValueMore(ds, d, TheUser, c.user, c'.user);
    ValueMore(ds, d, TheType, c.busType, c'.busType);
    ValueMore(ds, d, ThePidFile, c.pidfile, c'.pidfile);
    ValueMore(ds, d, TheHelper, c.helper, c'.helper);
  }

  lemma OccursMore(ds: seq<Directive>, d: Directive, e: Directive)
    ensures Occurs(ds + [d], e) <==> d == e || Occurs(ds, e)
  {
    var more := ds + [d];
    assert more[|ds|] == d && forall i | 0 <= i < |ds| :: more[i] == ds[i];
    if i :| 0 <= i < |ds| && ds[i] == e { assert more[i] == e; }
  }

  lemma SaysFlagsMore(c: Config, ds: seq<Directive>, c': Config, d: Directive)
    requires SaysFlags(c, ds, c')
    ensures SaysFlags(c, ds + [d], Do(c', d))
  {
    hide AddDir, Occurs;
    OccursMore(ds, d, Fork);
    OccursMore(ds, d, Syslog);
    OccursMore(ds, d, KeepUmask);
    OccursMore(ds, d, AllowAnonymous);
  }

  lemma ListMore(ds: seq<Directive>, d: Directive, s: Setting)
    ensures Present(Texts(ds + [d], s)) == Present(Texts(ds, s)) + if TextOf(d, s).Some? then [TextOf(d, s).value] else []
  {
    TextsMore(ds, d, s);
    PresentMore(Texts(ds, s), TextOf(d, s));
  }

  lemma SaysListsMore(c: Config, ds: seq<Directive>, c': Config, d: Directive)
    requires SaysLists(c, ds, c')
    ensures SaysLists(c, ds + [d], Do(c', d))
  {
    hide AddDir, AddDirs, Present, Texts;
    ListMore(ds, d, AnAddress);
    ListMore(ds, d, AMechanism);
    ListMore(ds, d, AConfDir);
    MentionsMore(c.dirs, ds, d);
  }

  lemma MentionsMore(dirs: seq<ServiceDir>, ds: seq<Directive>, d: Directive)
    ensures AddDirs(dirs, Present(Mentions(ds + [d])))
         == if d.AddServiceDir? then AddDir(AddDirs(dirs, Present(Mentions(ds))), d.dir) else AddDirs(dirs, Present(Mentions(ds)))
  {
    hide AddDir;
    var ms := Present(Mentions(ds));
    var x := if d.AddServiceDir? then Some(d.dir) else None;
    assert Mentions(ds + [d]) == Mentions(ds) + [x];
    PresentMore(Mentions(ds), x);
    if d.AddServiceDir? { assert (ms + [d.dir])[..|ms|] == ms; } else { assert ms + [] == ms; }
  }

  lemma SaysTablesMore(c: Config, ds: seq<Directive>, c': Config, d: Directive)
    requires SaysTables(c, ds, c')
    ensures SaysTables(c, ds + [d], Do(c', d))
  {
    hide LastWins, AddDir, Texts, LimitsOn;
    var c'' := Do(c', d);
    forall n: string ensures LastWins(Texts(ds + [d], TheContextOf(n)), At(c.contexts, n), At(c''.contexts, n)) {
      ValueMore(ds, d, TheContextOf(n), At(c.contexts, n), At(c'.contexts, n));
    }
    forall n: string ensures LastWins(LimitsOn(ds + [d], n), At(c.limits, n), At(c''.limits, n)) {
      LimitMore(ds, d, n, At(c.limits, n), At(c'.limits, n));
    }
  }

  lemma LimitMore(ds: seq<Directive>, d: Directive, n: string, was: Option<int>, now: Option<int>)
    requires LastWins(LimitsOn(ds, n), was, now)
    ensures LastWins(LimitsOn(ds + [d], n), was, if d.Limit? && d.name == n then Some(d.value) else now)
  {
    var x := if d.Limit? && d.name == n then Some(d.value) else None;
    assert LimitsOn(ds + [d], n) == LimitsOn(ds, n) + [x];
    LastMore(LimitsOn(ds, n), x, was, now);
  }

  lemma SaysNothing(c: Config)
    ensures Says(c, [], c)
  {
    assert c.listen + [] == c.listen && c.mechanisms + [] == c.mechanisms && c.confDirs + [] == c.confDirs;
  }

  /** Processing directives one after the other comes to what they mean. */
  lemma {:induction false} FoldSays(c: Config, ds: seq<Directive>)
    ensures Says(c, ds, Fold(c, ds))
  {
    if ds == [] {
      SaysNothing(c);
    } else {
      var n := |ds| - 1;
      FoldSays(c, ds[..n]);
      assert ds == ds[..n] + [ds[n]];
      hide SaysValues, SaysFlags, SaysLists, SaysTables, Do;
      var c' := Fold(c, ds[..n]);
      SaysValuesMore(c, ds[..n], c', ds[n]);
      SaysFlagsMore(c, ds[..n], c', ds[n]);
      SaysListsMore(c, ds[..n], c', ds[n]);
      SaysTablesMore(c, ds[..n], c', ds[n]);
    }
  }

  /** A context that no table had before comes from a directive. */
  lemma ContextStands(c: Config, ds: seq<Directive>, n: string)
    requires c.contexts == map[] && n in Fold(c, ds).contexts
    ensures Associate(n, Fold(c, ds).contexts[n]) in ds
  {
    hide Fold, SaysValues, SaysFlags, SaysLists;
    FoldSays(c, ds);
    var xs, t := Texts(ds, TheContextOf(n)), Fold(c, ds).contexts[n];
    assert LastWins(xs, At(c.contexts, n), Some(t)) && At(c.contexts, n) == None;
    var i :| 0 <= i < |xs| && xs[i] == Some(t);
    assert ds[i] == Associate(n, t);
  }

  // ---- The daemon's own file ----

  /** Nothing is set but the limits. */
  predicate Blank(c: Config, limits: map<string, int>) {
    && c.user == c.busType == c.pidfile == c.helper == None && !c.fork && !c.syslog && !c.keepUmask && !c.anonymous
    && c.listen == c.mechanisms == c.confDirs == [] && c.dirs == [] && c.contexts == map[] && c.limits == limits
  }

  /** The result of loading is what the directives of the file and of all it includes mean, on top of the defaults. */
  ghost predicate Means(ds: seq<Directive>, defaults: map<string, int>, c: Config) {
    exists c0 :: Blank(c0, defaults) && Says(c0, ds, c)
  }

  lemma ToplevelMeans(fs: Files, ls: Listings, items: seq<Item>, defaults: map<string, int>)
    ensures var r := EvalToplevel(fs, ls, items, defaults);
            r.Ok? ==> Flat(fs, ls, items, []).Ok? && Means(Flat(fs, ls, items, []).value, defaults, r.value)
  {
    ToplevelLoadsIff(fs, ls, items, defaults);
    var flat := Flat(fs, ls, items, []);
    if flat.Ok? {
      FoldSays(Fresh(defaults), flat.value);
      assert Blank(Fresh(defaults), defaults);
    }
  }

  // ---- What the flat list is ----

  /** A limit that is known, not negative, and no larger than an int unless it counts bytes or descriptors. */
  predicate Settable(name: string, value: int) {
    && 0 <= value
    && (|| name in ["max_incoming_bytes", "max_incoming_unix_fds", "max_outgoing_bytes", "max_outgoing_unix_fds", "max_message_size", "max_message_unix_fds"]
        || (value <= 2147483647
            && name in ["service_start_timeout", "auth_timeout", "pending_fd_timeout", "reply_timeout", "max_completed_connections",
                        "max_incomplete_connections", "max_connections_per_user", "max_pending_service_starts", "max_names_per_connection",
                        "max_match_rules_per_connection", "max_replies_per_connection", "max_containers", "max_containers_per_user",
                        "max_container_metadata_bytes", "max_connections_per_container"]))
  }

  lemma SettableIff(name: string, value: int)
    ensures Settable(name, value) <==> Accepted(Limit(name, value))
  {
  }

  predicate NoInclude(item: Item) { item.Plain? || item.Broken? }

  /** The element is understood, and if it is a limit, it can be set. */
  predicate Fine(item: Item) { item.Plain? && (item.d.Limit? ==> Settable(item.d.name, item.d.value)) }

  /** A file without includes loads exactly if all its elements are fine, and is the list of its own directives. */
  lemma {:induction false} NoIncludes(fs: Files, ls: Listings, items: seq<Item>, stack: seq<string>)
    requires forall i | 0 <= i < |items| :: NoInclude(items[i])
    ensures var r := Flat(fs, ls, items, stack);
            && (r.Ok? <==> forall i | 0 <= i < |items| :: Fine(items[i]))
            && (r.Err? ==> r.error == Rejected)
            && (r.Ok? ==> |r.value| == |items| && forall i | 0 <= i < |items| :: Plain(r.value[i]) == items[i])
  {
    hide Fine, FlatItem;
    if items != [] {
      NoIncludes(fs, ls, items[1..], stack);
      assert items == [items[0]] + items[1..];
      OwnItem(fs, ls, items[0], stack);
      var r, rest := Flat(fs, ls, items, stack), Flat(fs, ls, items[1..], stack);
      if r.Ok? {
        assert Fine(items[0]);
        assert r.value == [items[0].d] + rest.value;
        forall i | 0 <= i < |items| ensures Fine(items[i]) && Plain(r.value[i]) == items[i] {
          if i > 0 { assert items[1..][i - 1] == items[i]; }
        }
      }
    }
  }

  lemma OwnItem(fs: Files, ls: Listings, item: Item, stack: seq<string>)
    requires NoInclude(item)
    ensures FlatItem(fs, ls, item, stack) == if Fine(item) then Ok([item.d]) else Err(Rejected)
    ensures Fine(item) ==> item.Plain?
  {
    hide Settable, ValidLimit;
    if item.Plain? && item.d.Limit? { SettableIff(item.d.name, item.d.value); }
  }

  /** One list after the other. */
  function Both(a: Result<seq<Directive>>, b: Result<seq<Directive>>): Result<seq<Directive>> {
    if a.Err? then a else if b.Err? then b else Ok(a.value + b.value)
  }

  lemma {:induction false} FlatConcat(fs: Files, ls: Listings, a: seq<Item>, b: seq<Item>, stack: seq<string>)
    ensures Flat(fs, ls, a + b, stack) == Both(Flat(fs, ls, a, stack), Flat(fs, ls, b, stack))
    decreases |a|
  {
    hide FlatItem;
    if a == [] {
      assert a + b == b;
      var r := Flat(fs, ls, b, stack);
      if r.Ok? { assert [] + r.value == r.value; }
    } else {
      assert (a + b)[1..] == a[1..] + b && (a + b)[0] == a[0];
      FlatConcat(fs, ls, a[1..], b, stack);
      var r, x, y := FlatItem(fs, ls, a[0], stack), Flat(fs, ls, a[1..], stack), Flat(fs, ls, b, stack);
      if r.Ok? && x.Ok? && y.Ok? { Regroup(r.value, x.value, y.value); }
    }
  }

  lemma FlatSingle(fs: Files, ls: Listings, item: Item, stack: seq<string>)
    ensures Flat(fs, ls, [item], stack) == FlatItem(fs, ls, item, stack)
  {
    hide FlatItem;
    assert [item][1..] == [];
    assert Flat(fs, ls, [], stack) == Ok([]);
    var r := FlatItem(fs, ls, item, stack);
    if r.Ok? { assert r.value + [] == r.value; }
  }

  /**
   Where a file is included, its own directives stand, but for syslog; if it is missing, nothing
   stands there or loading fails; and a file that is being included already always makes it fail.
   */
  lemma IncludeSplices(fs: Files, ls: Listings, a: seq<Item>, p: string, ignore: bool, b: seq<Item>, stack: seq<string>)
    ensures var inner := if p in fs then Flat(fs, ls, fs[p], stack + [p]) else Err(NotFound);
            var here := if p in stack then Err(Circular)
                        else if inner.Ok? then Ok(WithoutSyslog(inner.value))
                        else if inner.error == NotFound && ignore then Ok([])
                        else inner;
            Flat(fs, ls, a + [Include(p, ignore)] + b, stack) == Both(Both(Flat(fs, ls, a, stack), here), Flat(fs, ls, b, stack))
  {
    FlatConcat(fs, ls, a + [Include(p, ignore)], b, stack);
    FlatConcat(fs, ls, a, [Include(p, ignore)], stack);
    FlatSingle(fs, ls, Include(p, ignore), stack);
  }

  lemma ConfFile(fs: Files, ls: Listings, p: string, stack: seq<string>)
    ensures EndsWithConf(p) <==> |p| >= 5 && p[|p| - 5..] == ['.', 'c', 'o', 'n', 'f']
    ensures Flat(fs, ls, [Include(p, true)], stack) == FlatFile(fs, ls, p, true, stack)
  {
    hide FlatFile;
    FlatSingle(fs, ls, Include(p, true), stack);
  }

  /** What one file of a directory contributes. */
  function Part(fs: Files, ls: Listings, p: string, stack: seq<string>): seq<Directive> {
    var here := FlatFile(fs, ls, p, true, stack);
    if EndsWithConf(p) && here.Ok? then here.value else []
  }

  lemma FirstPart(fs: Files, ls: Listings, paths: seq<string>, stack: seq<string>)
    requires paths != []
    ensures FlatDir(fs, ls, paths, stack) == Part(fs, ls, paths[0], stack) + FlatDir(fs, ls, paths[1..], stack)
  {
    hide FlatFile, EndsWithConf;
    var rest := FlatDir(fs, ls, paths[1..], stack);
    assert [] + rest == rest;
  }

  lemma {:induction false} LastPart(fs: Files, ls: Listings, paths: seq<string>, stack: seq<string>)
    requires paths != []
    ensures FlatDir(fs, ls, paths, stack) == FlatDir(fs, ls, paths[..|paths| - 1], stack) + Part(fs, ls, paths[|paths| - 1], stack)
    decreases |paths|
  {
    var n := |paths| - 1;
    FirstPart(fs, ls, paths, stack);
    if n == 0 {
      assert paths[1..] == [] && paths[..0] == [];
      assert FlatDir(fs, ls, [], stack) == [];
    } else {
      hide Part, FlatDir;
      var front, back := paths[..n], paths[1..];
      assert back[..n - 1] == front[1..] && back[n - 1] == paths[n] && front[0] == paths[0];
      LastPart(fs, ls, back, stack);
      FirstPart(fs, ls, front, stack);
      Regroup(Part(fs, ls, paths[0], stack), FlatDir(fs, ls, front[1..], stack), Part(fs, ls, paths[n], stack));
    }
  }

  /** What the files of a directory contribute: those that end in .conf and load, one after the other. */
  lemma DirectoryContributes(fs: Files, ls: Listings, paths: seq<string>, stack: seq<string>)
    ensures FlatDir(fs, ls, paths, stack) ==
            if paths == [] then []
            else
              var n := |paths| - 1;
              var here := Flat(fs, ls, [Include(paths[n], true)], stack);
              FlatDir(fs, ls, paths[..n], stack) +
              if |paths[n]| >= 5 && paths[n][|paths[n]| - 5..] == ['.', 'c', 'o', 'n', 'f'] && here.Ok? then here.value else []
  {
    if paths != [] {
      LastPart(fs, ls, paths, stack);
      ConfFile(fs, ls, paths[|paths| - 1], stack);
      hide Flat, FlatFile, FlatDir, EndsWithConf;
    }
  }

  lemma DirectorySplices(fs: Files, ls: Listings, dir: string, stack: seq<string>)
    ensures Flat(fs, ls, [IncludeDir(dir)], stack) ==
            if dir !in ls then Ok([])
            else if ls[dir].failed then Err(Rejected)
            else Ok(FlatDir(fs, ls, ls[dir].paths, stack) + [ConfDir(dir)])
  {
    FlatSingle(fs, ls, IncludeDir(dir), stack);
  }

  /** The directive stands in the file itself or in another one, or is the record of a directory. */
  predicate Stands(fs: Files, items: seq<Item>, d: Directive) {
    Plain(d) in items || d.ConfDir? || exists p :: p in fs && Plain(d) in fs[p]
  }

  ghost predicate AllStand(fs: Files, items: seq<Item>, ds: seq<Directive>) { forall d | d in ds :: Stands(fs, items, d) }

  // ---- Service directories ----

  predicate Mentioned(ds: seq<ServiceDir>, path: string) { exists i :: 0 <= i < |ds| && ds[i].path == path }

  lemma MentionedMore(ds: seq<ServiceDir>, d: ServiceDir, path: string)
    ensures Mentioned(ds + [d], path) <==> d.path == path || Mentioned(ds, path)
  {
    var more := ds + [d];
    assert more[|ds|] == d && forall i | 0 <= i < |ds| :: more[i] == ds[i];
    if i :| 0 <= i < |ds| && ds[i].path == path { assert more[i].path == path; }
  }

  lemma AddedMention(ds: seq<ServiceDir>, d: ServiceDir, path: string)
    ensures Mentioned(AddDir(ds, d), path) <==> d.path == path || Mentioned(ds, path)
  {
    hide FindDir;
    var k, r := FindDir(ds, d.path), AddDir(ds, d);
    if k == |ds| {
      MentionedMore(ds, d, path);
    } else {
      assert |r| == |ds| && forall i | 0 <= i < |ds| :: r[i].path == ds[i].path;
      if i :| 0 <= i < |ds| && ds[i].path == path { assert r[i].path == path; }
      if d.path == path { assert r[k].path == path; }
    }
  }

  /** The directories are those that are mentioned. */
  lemma {:induction false} DirectoriesAre(ms: seq<ServiceDir>, path: string)
    ensures Mentioned(AddDirs([], ms), path) <==> Mentioned(ms, path)
  {
    if ms != [] {
      hide AddDir, Mentioned;
      var n := |ms| - 1;
      DirectoriesAre(ms[..n], path);
      AddedMention(AddDirs([], ms[..n]), ms[n], path);
      MentionedMore(ms[..n], ms[n], path);
      assert ms == ms[..n] + [ms[n]];
    }
  }
}
