/**
 What a configuration file says, and how the result of an included file is merged into that of
 the file that includes it (bus/config-parser.c).
*/
module ConfigMerge {
  import opened BusTypes

  datatype Flag = NoWatch | StrictNaming

  datatype ServiceDir = ServiceDir(path: string, flags: set<Flag>)

  datatype Config = Config(
    user: Option<string>,
    busType: Option<string>,
    pidfile: Option<string>,
    helper: Option<string>,
    fork: bool,
    syslog: bool,
    keepUmask: bool,
    anonymous: bool,
    listen: seq<string>,
    mechanisms: seq<string>,
    confDirs: seq<string>,
    dirs: seq<ServiceDir>,
    contexts: map<string, string>,
    limits: map<string, int>)

  /** What one element does, once its text has been read. */
  datatype Directive =
    | User(text: string)
    | Type(text: string)
    | PidFile(text: string)
    | ServiceHelper(text: string)
    | Fork
    | Syslog
    | KeepUmask
    | AllowAnonymous
    | Listen(text: string)
    | Auth(text: string)
    | ConfDir(text: string)
    | AddServiceDir(dir: ServiceDir)
    | Associate(name: string, context: string)
    | Limit(name: string, value: int)

  /** Position of a directory, or |ds|. */
  function FindDir(ds: seq<ServiceDir>, path: string): (i: nat)
    ensures i <= |ds|
    ensures i < |ds| ==> ds[i].path == path
    ensures forall j :: 0 <= j < i ==> ds[j].path != path
  {
    if ds == [] || ds[0].path == path then 0
    else
      assert forall j :: 1 <= j < |ds| ==> ds[j] == ds[1..][j - 1];
      1 + FindDir(ds[1..], path)
  }

  /** A directory keeps its first place, and only the flags that all its mentions have. */
  function AddDir(ds: seq<ServiceDir>, d: ServiceDir): (r: seq<ServiceDir>) {
    var i := FindDir(ds, d.path);
    if i == |ds| then ds + [d] else ds[i := ds[i].(flags := ds[i].flags * d.flags)]
  }

  function AddDirs(ds: seq<ServiceDir>, more: seq<ServiceDir>): seq<ServiceDir> {
    if more == [] then ds else AddDir(AddDirs(ds, more[..|more| - 1]), more[|more| - 1])
  }

  function Do(c: Config, d: Directive): Config {
    match d
    case User(t) => c.(user := Some(t))
    case Type(t) => c.(busType := Some(t))
    case PidFile(t) => c.(pidfile := Some(t))
    case ServiceHelper(t) => c.(helper := Some(t))
    case Fork => c.(fork := true)
    case Syslog => c.(syslog := true)
    case KeepUmask => c.(keepUmask := true)
    case AllowAnonymous => c.(anonymous := true)
    case Listen(t) => c.(listen := c.listen + [t])
    case Auth(t) => c.(mechanisms := c.mechanisms + [t])
    case ConfDir(t) => c.(confDirs := c.confDirs + [t])
    case AddServiceDir(dir) => c.(dirs := AddDir(c.dirs, dir))
    case Associate(n, x) => c.(contexts := c.contexts[n := x])
    case Limit(n, v) => c.(limits := c.limits[n := v])
  }

  function Fold(c: Config, ds: seq<Directive>): Config {
    if ds == [] then c else Do(Fold(c, ds[..|ds| - 1]), ds[|ds| - 1])
  }

  /** A parser for an included file starts empty, except for the limits of its parent. */
  function Fresh(limits: map<string, int>): Config {
    Config(None, None, None, None, false, false, false, false, [], [], [], [], map[], limits)
  }

  function Over<T>(a: Option<T>, b: Option<T>): Option<T> { if b.Some? then b else a }

  /** merge_included, and the limits copied back. */
  function Merge(c: Config, x: Config): Config {
    Config(Over(c.user, x.user), Over(c.busType, x.busType), Over(c.pidfile, x.pidfile), Over(c.helper, x.helper),
           c.fork || x.fork, c.syslog, c.keepUmask || x.keepUmask, c.anonymous || x.anonymous,
           c.listen + x.listen, c.mechanisms + x.mechanisms, c.confDirs + x.confDirs,
           AddDirs(c.dirs, x.dirs), c.contexts + x.contexts, x.limits)
  }

  // ---- Service directories ----

  predicate UniquePaths(ds: seq<ServiceDir>) { forall i, j :: 0 <= i < j < |ds| ==> ds[i].path != ds[j].path }

  predicate HasPath(ds: seq<ServiceDir>, path: string) { FindDir(ds, path) < |ds| }

  /** What adding a directory does to each place of the list. */
  lemma AddDirIs(ds: seq<ServiceDir>, d: ServiceDir)
    ensures var r := AddDir(ds, d);
            && |ds| <= |r| <= |ds| + 1
            && (|r| == |ds| <==> HasPath(ds, d.path))
            && (forall i :: 0 <= i < |ds| ==> r[i].path == ds[i].path)
            && HasPath(r, d.path)
  {
    var r := AddDir(ds, d);
    var i := FindDir(ds, d.path);
    var j := FindDir(r, d.path);
    if i == |ds| { assert r[|ds|].path == d.path; } else { assert r[i].path == d.path; }
  }

  lemma AddDirKeepsPath(ds: seq<ServiceDir>, d: ServiceDir, path: string)
    ensures FindDir(AddDir(ds, d), path) == if HasPath(ds, path) || path != d.path then
                                              (if HasPath(ds, path) then FindDir(ds, path) else |AddDir(ds, d)|)
                                            else |ds|
  {
    AddDirIs(ds, d);
    var r := AddDir(ds, d);
    var i, k := FindDir(ds, path), FindDir(r, path);
    if i < |ds| {
      assert r[i].path == path;
    } else if path == d.path {
      assert r[|ds|].path == path;
    }
  }

  /** The order of two directories does not matter once the first is known. */
  lemma AddDirCommutes(ds: seq<ServiceDir>, d: ServiceDir, e: ServiceDir)
    requires HasPath(ds, d.path) && d.path != e.path
    ensures AddDir(AddDir(ds, d), e) == AddDir(AddDir(ds, e), d)
  {
    AddDirKeepsPath(ds, d, e.path);
    AddDirKeepsPath(ds, e, d.path);
    AddDirIs(ds, d);
    AddDirIs(ds, e);
    var i, j := FindDir(ds, d.path), FindDir(ds, e.path);
    var l, r := AddDir(AddDir(ds, d), e), AddDir(AddDir(ds, e), d);
    assert |l| == |r|;
    forall k | 0 <= k < |l| ensures l[k] == r[k] {}
  }

  /** Two mentions of one directory are one mention with the flags they share. */
  lemma AddDirTwice(ds: seq<ServiceDir>, d: ServiceDir, flags: set<Flag>)
    ensures AddDir(AddDir(ds, d), d.(flags := flags)) == AddDir(ds, d.(flags := d.flags * flags))
  {
    AddDirKeepsPath(ds, d, d.path);
    AddDirIs(ds, d);
    var i := FindDir(ds, d.path);
    if i < |ds| { assert ds[i].flags * d.flags * flags == ds[i].flags * (d.flags * flags); }
  }

  lemma AddDirKeepsUnique(ds: seq<ServiceDir>, d: ServiceDir)
    requires UniquePaths(ds)
    ensures UniquePaths(AddDir(ds, d))
  {
    AddDirIs(ds, d);
  }

  lemma {:induction false} AddDirsHave(ds: seq<ServiceDir>, more: seq<ServiceDir>, path: string)
    ensures HasPath(AddDirs(ds, more), path) <==> HasPath(ds, path) || HasPath(more, path)
  {
    if more != [] {
      var n := |more| - 1;
      AddDirsHave(ds, more[..n], path);
      AddDirKeepsPath(AddDirs(ds, more[..n]), more[n], path);
      HasPathLast(more, path);
    }
  }

  lemma HasPathLast(ds: seq<ServiceDir>, path: string)
    requires ds != []
    ensures HasPath(ds, path) <==> HasPath(ds[..|ds| - 1], path) || ds[|ds| - 1].path == path
  {
    var n := |ds| - 1;
    var i, j := FindDir(ds, path), FindDir(ds[..n], path);
    if j < n { assert ds[j].path == path; }
    if i < n { assert ds[..n][i].path == path; }
    if ds[n].path == path { assert i <= n; }
  }

  /** A directory that is not the last of the list is found before the last. */
  lemma AddDirBeforeLast(b: seq<ServiceDir>, d: ServiceDir)
    requires b != [] && FindDir(b, d.path) < |b| - 1
    ensures var n := |b| - 1; AddDir(b, d) == AddDir(b[..n], d) + [b[n]] && HasPath(b[..n], d.path)
  {
    hide FindDir;
    var n, k := |b| - 1, FindDir(b, d.path);
    assert b[..n][k].path == d.path;
    assert FindDir(b[..n], d.path) == k;
  }

  lemma AddDirAtLast(b: seq<ServiceDir>, d: ServiceDir)
    requires b != [] && FindDir(b, d.path) == |b| - 1
    ensures var n := |b| - 1; AddDir(b, d) == b[..n] + [b[n].(flags := b[n].flags * d.flags)] && d == b[n].(flags := d.flags)
  {
  }

  lemma AddDirsLast(a: seq<ServiceDir>, b: seq<ServiceDir>, e: ServiceDir)
    ensures AddDirs(a, b + [e]) == AddDir(AddDirs(a, b), e)
  {
    assert (b + [e])[..|b|] == b;
  }

  /** Adding to the list that is merged is adding to the merged list. */
  lemma {:induction false} AddDirsAssoc(a: seq<ServiceDir>, b: seq<ServiceDir>, d: ServiceDir)
    requires UniquePaths(b)
    ensures AddDirs(a, AddDir(b, d)) == AddDir(AddDirs(a, b), d)
    decreases |b|
  {
    var k, n := FindDir(b, d.path), |b| - 1;
    if k == |b| {
      AddDirsLast(a, b, d);
    } else {
      assert b == b[..n] + [b[n]] && UniquePaths(b[..n]);
      assert k < n ==> b[n].path != d.path;
      hide AddDir, AddDirs, FindDir, UniquePaths;
      AddDirsLast(a, b[..n], b[n]);
      if k == n {
        AddDirAtLast(b, d);
        AddDirsLast(a, b[..n], b[n].(flags := b[n].flags * d.flags));
        AddDirTwice(AddDirs(a, b[..n]), b[n], d.flags);
      } else {
        AddDirBeforeLast(b, d);
        AddDirsLast(a, AddDir(b[..n], d), b[n]);
        AddDirsAssoc(a, b[..n], d);
        AddDirsHave(a, b[..n], d.path);
        AddDirCommutes(AddDirs(a, b[..n]), d, b[n]);
      }
    }
  }

  // ---- Merging is continuing ----

  lemma MergeDo(c: Config, x: Config, d: Directive)
    requires UniquePaths(x.dirs) && !d.Syslog?
    ensures Merge(c, Do(x, d)) == Do(Merge(c, x), d)
  {
    hide Do, Merge;
    if SetsValue(d) {
      MergeValue(c, x, d);
    } else if SetsFlag(d) {
      MergeFlag(c, x, d);
    } else if AddsToList(d) {
      MergeList(c, x, d);
    } else {
      MergeTable(c, x, d);
    }
  }

  lemma MergeValue(c: Config, x: Config, d: Directive)
    requires SetsValue(d)
    ensures Merge(c, Do(x, d)) == Do(Merge(c, x), d)
  {
    hide AddDirs;
  }

  lemma MergeFlag(c: Config, x: Config, d: Directive)
    requires SetsFlag(d)
    ensures Merge(c, Do(x, d)) == Do(Merge(c, x), d)
  {
    hide AddDirs;
  }

  lemma MergeList(c: Config, x: Config, d: Directive)
    requires AddsToList(d)
    ensures Merge(c, Do(x, d)) == Do(Merge(c, x), d)
  {
    hide AddDirs;
    match d {
      case Listen(t) => Regroup(c.listen, x.listen, [t]);
      case Auth(t) => Regroup(c.mechanisms, x.mechanisms, [t]);
      case ConfDir(t) => Regroup(c.confDirs, x.confDirs, [t]);
    }
  }

  lemma MergeTable(c: Config, x: Config, d: Directive)
    requires UniquePaths(x.dirs) && (d.AddServiceDir? || d.Associate? || d.Limit?)
    ensures Merge(c, Do(x, d)) == Do(Merge(c, x), d)
  {
    hide AddDirs, AddDir;
    match d {
      case AddServiceDir(dir) => AddDirsAssoc(c.dirs, x.dirs, dir);
      case Associate(n, v) => assert c.contexts + x.contexts[n := v] == (c.contexts + x.contexts)[n := v];
      case Limit(_, _) =>
    }
  }

  predicate NoSyslog(ds: seq<Directive>) { forall i :: 0 <= i < |ds| ==> !ds[i].Syslog? }

  lemma DoKeepsUnique(x: Config, d: Directive)
    requires UniquePaths(x.dirs)
    ensures UniquePaths(Do(x, d).dirs)
  {
    if d.AddServiceDir? { AddDirKeepsUnique(x.dirs, d.dir); }
  }

  lemma {:induction false} FoldKeepsUnique(c: Config, ds: seq<Directive>)
    requires UniquePaths(c.dirs)
    ensures UniquePaths(Fold(c, ds).dirs)
  {
    if ds != [] {
      hide Do, UniquePaths;
      FoldKeepsUnique(c, ds[..|ds| - 1]);
      DoKeepsUnique(Fold(c, ds[..|ds| - 1]), ds[|ds| - 1]);
    }
  }

  /** Processing directives in a parser of their own and merging the result is processing them in place. */
  lemma {:induction false} MergeFold(c: Config, ds: seq<Directive>)
    requires NoSyslog(ds)
    ensures Merge(c, Fold(Fresh(c.limits), ds)) == Fold(c, ds)
  {
    if ds == [] {
      assert c.listen + [] == c.listen && c.mechanisms + [] == c.mechanisms && c.confDirs + [] == c.confDirs && c.contexts + map[] == c.contexts;
    } else {
      var n := |ds| - 1;
      MergeFold(c, ds[..n]);
      FoldKeepsUnique(Fresh(c.limits), ds[..n]);
      MergeDo(c, Fold(Fresh(c.limits), ds[..n]), ds[n]);
    }
  }

  lemma {:induction false} FoldAppend(c: Config, xs: seq<Directive>, ys: seq<Directive>)
    ensures Fold(c, xs + ys) == Fold(Fold(c, xs), ys)
    decreases |ys|
  {
    if ys == [] {
      assert xs + ys == xs;
    } else {
      assert (xs + ys)[..|xs + ys| - 1] == xs + ys[..|ys| - 1];
      FoldAppend(c, xs, ys[..|ys| - 1]);
    }
  }

  /** merge(fold xs, fold ys) = fold(xs + ys), as long as ys leaves syslog alone. */
  lemma MergeIsConcatenation(c: Config, xs: seq<Directive>, ys: seq<Directive>)
    requires NoSyslog(ys)
    ensures Merge(Fold(c, xs), Fold(Fresh(Fold(c, xs).limits), ys)) == Fold(c, xs + ys)
  {
    MergeFold(Fold(c, xs), ys);
    FoldAppend(c, xs, ys);
  }

  function WithoutSyslog(ds: seq<Directive>): (r: seq<Directive>)
    ensures NoSyslog(r)
  {
    if ds == [] then [] else WithoutSyslog(ds[..|ds| - 1]) + if ds[|ds| - 1].Syslog? then [] else [ds[|ds| - 1]]
  }

  predicate SetsValue(d: Directive) { d.User? || d.Type? || d.PidFile? || d.ServiceHelper? }

  predicate SetsFlag(d: Directive) { d.Fork? || d.KeepUmask? || d.AllowAnonymous? }

  predicate AddsToList(d: Directive) { d.Listen? || d.Auth? || d.ConfDir? }

  lemma ValuesAndSyslog(c: Config, d: Directive, b: bool)
    requires SetsValue(d)
    ensures Do(c, d).syslog == c.syslog && Do(c.(syslog := b), d) == Do(c, d).(syslog := b)
  {
  }

  lemma FlagsAndSyslog(c: Config, d: Directive, b: bool)
    requires SetsFlag(d)
    ensures Do(c, d).syslog == c.syslog && Do(c.(syslog := b), d) == Do(c, d).(syslog := b)
  {
  }

  lemma ListsAndSyslog(c: Config, d: Directive, b: bool)
    requires AddsToList(d)
    ensures Do(c, d).syslog == c.syslog && Do(c.(syslog := b), d) == Do(c, d).(syslog := b)
  {
  }

  lemma TablesAndSyslog(c: Config, d: Directive, b: bool)
    requires d.AddServiceDir? || d.Associate? || d.Limit?
    ensures Do(c, d).syslog == c.syslog && Do(c.(syslog := b), d) == Do(c, d).(syslog := b)
  {
    hide AddDir;
  }

  /** Only the syslog element touches syslog, and it touches nothing else. */
  lemma DoAndSyslog(c: Config, d: Directive, b: bool)
    ensures Do(c, d).syslog == (c.syslog || d.Syslog?)
    ensures if d.Syslog? then Do(c, d).(syslog := b) == c.(syslog := b) else Do(c.(syslog := b), d) == Do(c, d).(syslog := b)
  {
    if !d.Syslog? {
      hide Do;
      if SetsValue(d) {
        ValuesAndSyslog(c, d, b);
      } else if SetsFlag(d) {
        FlagsAndSyslog(c, d, b);
      } else if AddsToList(d) {
        ListsAndSyslog(c, d, b);
      } else {
        TablesAndSyslog(c, d, b);
      }
    }
  }

  /** Syslog elements of an included file are lost, and nothing else is. */
  lemma {:induction false} SyslogIsLost(c: Config, ds: seq<Directive>)
    ensures Fold(c, WithoutSyslog(ds)) == Fold(c, ds).(syslog := c.syslog)
  {
    if ds != [] {
      hide Do;
      var n := |ds| - 1;
      var rest := WithoutSyslog(ds[..n]);
      SyslogIsLost(c, ds[..n]);
      DoAndSyslog(Fold(c, ds[..n]), ds[n], c.syslog);
      if ds[n].Syslog? { assert rest + [] == rest; } else { assert (rest + [ds[n]])[..|rest|] == rest; }
    }
  }

  lemma MergeIgnoresSyslog(c: Config, x: Config, b: bool)
    ensures Merge(c, x.(syslog := b)) == Merge(c, x)
  {
  }

  /** So merging any file is continuing with its directives other than syslog; and it is continuing with all of them exactly if there is none, or syslog was on. */
  lemma MergeAny(c: Config, ds: seq<Directive>)
    ensures Merge(c, Fold(Fresh(c.limits), ds)) == Fold(c, WithoutSyslog(ds))
    ensures Merge(c, Fold(Fresh(c.limits), ds)) == Fold(c, ds) <==> c.syslog || NoSyslog(ds)
  {
    MergeFold(c, WithoutSyslog(ds));
    SyslogIsLost(Fresh(c.limits), ds);
    SyslogIsLost(c, ds);
    MergeIgnoresSyslog(c, Fold(Fresh(c.limits), ds), false);
    SyslogSet(c, ds);
  }

  lemma {:induction false} SyslogSet(c: Config, ds: seq<Directive>)
    ensures Fold(c, ds).syslog <==> c.syslog || !NoSyslog(ds)
  {
    if ds != [] {
      hide Do;
      var n := |ds| - 1;
      SyslogSet(c, ds[..n]);
      DoAndSyslog(Fold(c, ds[..n]), ds[n], false);
      assert NoSyslog(ds) <==> NoSyslog(ds[..n]) && !ds[n].Syslog?;
    }
  }

  // ---- What the list of service directories is ----

  /** Among the mentions: position of the first of path. */
  function FirstMention(ms: seq<ServiceDir>, path: string): nat { FindDir(ms, path) }

  predicate SharedBy(ms: seq<ServiceDir>, path: string, f: Flag) {
    forall i :: 0 <= i < |ms| && ms[i].path == path ==> f in ms[i].flags
  }

  /** A directory has a flag if all its mentions have it. */
  lemma {:induction false} FlagsAreShared(ms: seq<ServiceDir>, path: string, f: Flag)
    requires HasPath(ms, path)
    ensures var r := AddDirs([], ms); HasPath(r, path) && (f in r[FindDir(r, path)].flags <==> SharedBy(ms, path, f))
  {
    var n := |ms| - 1;
    var ms', d := ms[..n], ms[n];
    var r' := AddDirs([], ms');
    AddDirsHave([], ms, path);
    AddDirKeepsPath(r', d, path);
    HasPathLast(ms, path);
    AddDirsHave([], ms', path);
    assert SharedBy(ms, path, f) <==> SharedBy(ms', path, f) && (d.path == path ==> f in d.flags);
    if HasPath(ms', path) {
      FlagsAreShared(ms', path, f);
    } else {
      assert forall i :: 0 <= i < |ms'| ==> ms'[i].path != path;
    }
  }

  /** The directories come in the order of their first mentions. */
  lemma {:induction false} FirstMentionOrder(ms: seq<ServiceDir>, i: nat, j: nat)
    requires var r := AddDirs([], ms); i < j < |r|
    ensures var r := AddDirs([], ms); FirstMention(ms, r[i].path) < FirstMention(ms, r[j].path) < |ms|
  {
    var n := |ms| - 1;
    var ms', d := ms[..n], ms[n];
    var r', r := AddDirs([], ms'), AddDirs([], ms);
    AddDirIs(r', d);
    MentionedSame(ms, r[i].path);
    MentionedSame(ms, r[j].path);
    if j < |r'| {
      FirstMentionOrder(ms', i, j);
    } else {
      AddDirsHave([], ms', d.path);
      assert FindDir(r', r[i].path) <= i;
      AddDirsHave([], ms', r[i].path);
    }
  }

  lemma MentionedSame(ms: seq<ServiceDir>, path: string)
    requires ms != []
    ensures var n := |ms| - 1; FindDir(ms, path) == if HasPath(ms[..n], path) then FindDir(ms[..n], path) else if ms[n].path == path then n else n + 1
  {
    hide FindDir;
    var n := |ms| - 1;
    var j := FindDir(ms[..n], path);
    assert forall k | 0 <= k < n :: ms[..n][k] == ms[k];
    FindIs(ms, path, if j < n then j else if ms[n].path == path then n else n + 1);
  }

  lemma FindIs(ds: seq<ServiceDir>, path: string, k: nat)
    requires k <= |ds| && (k < |ds| ==> ds[k].path == path) && forall j :: 0 <= j < k ==> ds[j].path != path
    ensures FindDir(ds, path) == k
  {
    hide FindDir;
  }
}
