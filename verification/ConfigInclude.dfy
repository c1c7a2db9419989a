/**
 Loading a configuration file with everything it includes (bus/config-parser.c,
 bus/config-loader-expat.c).
*/
module ConfigInclude {
  import opened BusTypes
  import opened ConfigMerge

  datatype Item =
    | Plain(d: Directive)
    | Include(path: string, ignoreMissing: bool)
    | IncludeDir(dir: string)
    | Broken   // an element that is rejected

  type Files = map<string, seq<Item>>

  /** What reading a directory yields: full paths, in that order; it may fail at the start or after some files. */
  datatype Listing = Listing(paths: seq<string>, failed: bool)

  type Listings = map<string, Listing>

  datatype Error = NotFound | Circular | Rejected | NoListen | OutOfMemory

  datatype Result<T> = Ok(value: T) | Err(error: Error)

  const INT_MAX: int := 0x7FFF_FFFF

  const BYTE_LIMITS: set<string> := {"max_incoming_bytes", "max_incoming_unix_fds", "max_outgoing_bytes", "max_outgoing_unix_fds",
                                     "max_message_size", "max_message_unix_fds"}

  const INT_LIMITS: set<string> := {"service_start_timeout", "auth_timeout", "pending_fd_timeout", "reply_timeout",
                                    "max_completed_connections", "max_incomplete_connections", "max_connections_per_user",
                                    "max_pending_service_starts", "max_names_per_connection", "max_match_rules_per_connection",
                                    "max_replies_per_connection", "max_containers", "max_containers_per_user",
                                    "max_container_metadata_bytes", "max_connections_per_container"}

  /** set_limit accepts it. */
  predicate ValidLimit(name: string, value: int) {
    value >= 0 && (name in BYTE_LIMITS || (name in INT_LIMITS && value <= INT_MAX))
  }

  predicate Accepted(d: Directive) { d.Limit? ==> ValidLimit(d.name, d.value) }

  predicate EndsWithConf(p: string) { |p| >= 5 && p[|p| - 5..] == ".conf" }

  function Unseen(fs: Files, stack: seq<string>): set<string> { fs.Keys - (set p | p in stack) }

  // ---- What loading computes, given enough memory ----

  function Eval(fs: Files, ls: Listings, c: Config, items: seq<Item>, stack: seq<string>): Result<Config>
    decreases Unseen(fs, stack), 2, |items|
  {
    if items == [] then Ok(c)
    else
      var r := EvalItem(fs, ls, c, items[0], stack);
      if r.Err? then r else Eval(fs, ls, r.value, items[1..], stack)
  }

  function EvalItem(fs: Files, ls: Listings, c: Config, item: Item, stack: seq<string>): Result<Config>
    decreases Unseen(fs, stack), 2, 0
  {
    match item
    case Plain(d) => if Accepted(d) then Ok(Do(c, d)) else Err(Rejected)
    case Include(p, ignore) => EvalFile(fs, ls, c, p, ignore, stack)
    case IncludeDir(dir) =>
      if dir !in ls then Ok(c)
      else if ls[dir].failed then Err(Rejected)
      else Ok(Do(EvalDir(fs, ls, c, ls[dir].paths, stack), ConfDir(dir)))
    case Broken => Err(Rejected)
  }

  /** Errors in the files of a directory are logged, and the files skipped. */
  function EvalDir(fs: Files, ls: Listings, c: Config, paths: seq<string>, stack: seq<string>): Config
    decreases Unseen(fs, stack), 1, |paths|
  {
    if paths == [] then c
    else if !EndsWithConf(paths[0]) then EvalDir(fs, ls, c, paths[1..], stack)
    else
      var r := EvalFile(fs, ls, c, paths[0], true, stack);
      EvalDir(fs, ls, if r.Ok? then r.value else c, paths[1..], stack)
  }

  function EvalFile(fs: Files, ls: Listings, c: Config, p: string, ignore: bool, stack: seq<string>): Result<Config>
    decreases Unseen(fs, stack), 0, 0
  {
    if p in stack then Err(Circular)
    else if p !in fs then (if ignore then Ok(c) else Err(NotFound))
    else
      assert p in Unseen(fs, stack) && p !in Unseen(fs, stack + [p]) && Unseen(fs, stack + [p]) <= Unseen(fs, stack);
      var r := Eval(fs, ls, Fresh(c.limits), fs[p], stack + [p]);
      match r
      case Ok(x) => Ok(Merge(c, x))
      case Err(e) => if e.NotFound? && ignore then Ok(c) else Err(e)
  }

  /** The file the daemon is started with; somewhere there has to be an address to listen on. */
  function EvalToplevel(fs: Files, ls: Listings, items: seq<Item>, defaults: map<string, int>): Result<Config> {
    var r := Eval(fs, ls, Fresh(defaults), items, []);
    if r.Ok? && r.value.listen == [] then Err(NoListen) else r
  }

  // ---- The same, as one list of directives ----

  function Flat(fs: Files, ls: Listings, items: seq<Item>, stack: seq<string>): Result<seq<Directive>>
    decreases Unseen(fs, stack), 2, |items|
  {
    if items == [] then Ok([])
    else
      var r := FlatItem(fs, ls, items[0], stack);
      if r.Err? then r
      else
        var rest := Flat(fs, ls, items[1..], stack);
        if rest.Err? then rest else Ok(r.value + rest.value)
  }

  function FlatItem(fs: Files, ls: Listings, item: Item, stack: seq<string>): Result<seq<Directive>>
    decreases Unseen(fs, stack), 2, 0
  {
    match item
    case Plain(d) => if Accepted(d) then Ok([d]) else Err(Rejected)
    case Include(p, ignore) => FlatFile(fs, ls, p, ignore, stack)
    case IncludeDir(dir) =>
      if dir !in ls then Ok([])
      else if ls[dir].failed then Err(Rejected)
      else Ok(FlatDir(fs, ls, ls[dir].paths, stack) + [ConfDir(dir)])
    case Broken => Err(Rejected)
  }

  function FlatDir(fs: Files, ls: Listings, paths: seq<string>, stack: seq<string>): seq<Directive>
    decreases Unseen(fs, stack), 1, |paths|
  {
    if paths == [] then []
    else if !EndsWithConf(paths[0]) then FlatDir(fs, ls, paths[1..], stack)
    else
      var r := FlatFile(fs, ls, paths[0], true, stack);
      (if r.Ok? then r.value else []) + FlatDir(fs, ls, paths[1..], stack)
  }

  function FlatFile(fs: Files, ls: Listings, p: string, ignore: bool, stack: seq<string>): Result<seq<Directive>>
    decreases Unseen(fs, stack), 0, 0
  {
    if p in stack then Err(Circular)
    else if p !in fs then (if ignore then Ok([]) else Err(NotFound))
    else
      assert p in Unseen(fs, stack) && p !in Unseen(fs, stack + [p]) && Unseen(fs, stack + [p]) <= Unseen(fs, stack);
      match Flat(fs, ls, fs[p], stack + [p])
      case Ok(ds) => Ok(WithoutSyslog(ds))
      case Err(e) => if e.NotFound? && ignore then Ok([]) else Err(e)
  }

  /** Processing a list of directives that may not exist. */
  function FoldResult(c: Config, r: Result<seq<Directive>>): Result<Config> {
    match r
    case Ok(ds) => Ok(Fold(c, ds))
    case Err(e) => Err(e)
  }

  /**
   Loading a tree of includes is processing its directives in order; the only thing that is lost
   is the syslog elements of included files.
   */
  lemma {:induction false} Flattening(fs: Files, ls: Listings, c: Config, items: seq<Item>, stack: seq<string>)
    ensures Eval(fs, ls, c, items, stack) == FoldResult(c, Flat(fs, ls, items, stack))
    decreases Unseen(fs, stack), 2, |items|
  {
    if items != [] {
      FlatteningItem(fs, ls, c, items[0], stack);
      var r := FlatItem(fs, ls, items[0], stack);
      if r.Ok? {
        Flattening(fs, ls, Fold(c, r.value), items[1..], stack);
        var rest := Flat(fs, ls, items[1..], stack);
        if rest.Ok? { FoldAppend(c, r.value, rest.value); }
      }
    }
  }

  lemma {:induction false} FlatteningItem(fs: Files, ls: Listings, c: Config, item: Item, stack: seq<string>)
    ensures EvalItem(fs, ls, c, item, stack) == FoldResult(c, FlatItem(fs, ls, item, stack))
    decreases Unseen(fs, stack), 2, 0
  {
    match item {
      case Plain(d) => FoldOne(c, d);
      case Include(p, ignore) => FlatteningFile(fs, ls, c, p, ignore, stack);
      case IncludeDir(dir) =>
        if dir in ls {
          FlatteningDir(fs, ls, c, ls[dir].paths, stack);
          FoldAppend(c, FlatDir(fs, ls, ls[dir].paths, stack), [ConfDir(dir)]);
          FoldOne(Fold(c, FlatDir(fs, ls, ls[dir].paths, stack)), ConfDir(dir));
        }
      case Broken =>
    }
  }

  lemma FoldOne(c: Config, d: Directive)
    ensures Fold(c, [d]) == Do(c, d)
  {
    assert [d][..0] == [];
  }

  lemma {:induction false} FlatteningDir(fs: Files, ls: Listings, c: Config, paths: seq<string>, stack: seq<string>)
    ensures EvalDir(fs, ls, c, paths, stack) == Fold(c, FlatDir(fs, ls, paths, stack))
    decreases Unseen(fs, stack), 1, |paths|
  {
    if paths != [] {
      if EndsWithConf(paths[0]) {
        FlatteningFile(fs, ls, c, paths[0], true, stack);
        var r := FlatFile(fs, ls, paths[0], true, stack);
        var ds := if r.Ok? then r.value else [];
        FlatteningDir(fs, ls, Fold(c, ds), paths[1..], stack);
        FoldAppend(c, ds, FlatDir(fs, ls, paths[1..], stack));
      } else {
        FlatteningDir(fs, ls, c, paths[1..], stack);
      }
    }
  }

  lemma {:induction false} FlatteningFile(fs: Files, ls: Listings, c: Config, p: string, ignore: bool, stack: seq<string>)
    ensures EvalFile(fs, ls, c, p, ignore, stack) == FoldResult(c, FlatFile(fs, ls, p, ignore, stack))
    decreases Unseen(fs, stack), 0, 0
  {
    if p !in stack && p in fs {
      assert p in Unseen(fs, stack) && p !in Unseen(fs, stack + [p]) && Unseen(fs, stack + [p]) <= Unseen(fs, stack);
      Flattening(fs, ls, Fresh(c.limits), fs[p], stack + [p]);
      var r := Flat(fs, ls, fs[p], stack + [p]);
      if r.Ok? { MergeAny(c, r.value); }
    }
  }

  lemma {:induction false} ListensIff(c: Config, ds: seq<Directive>)
    ensures Fold(c, ds).listen == [] <==> c.listen == [] && forall i :: 0 <= i < |ds| ==> !ds[i].Listen?
  {
    if ds != [] {
      var n := |ds| - 1;
      ListensIff(c, ds[..n]);
      hide Fold, Do;
      assert forall i | 0 <= i < n :: ds[..n][i] == ds[i];
      DoListens(Fold(c, ds[..n]), ds[n]);
      FoldLast(c, ds);
    }
  }

  lemma DoListens(c: Config, d: Directive)
    ensures Do(c, d).listen == if d.Listen? then c.listen + [d.text] else c.listen
  {
    hide AddDir;
  }

  lemma FoldLast(c: Config, ds: seq<Directive>)
    requires ds != []
    ensures Fold(c, ds) == Do(Fold(c, ds[..|ds| - 1]), ds[|ds| - 1])
  {
  }

  /** The daemon's own file loads exactly if all its directives do and one of them, here or in an included file, is an address. */
  lemma ToplevelLoadsIff(fs: Files, ls: Listings, items: seq<Item>, defaults: map<string, int>)
    ensures var flat := Flat(fs, ls, items, []);
            && (EvalToplevel(fs, ls, items, defaults).Ok? <==> flat.Ok? && exists i :: 0 <= i < |flat.value| && flat.value[i].Listen?)
            && (EvalToplevel(fs, ls, items, defaults).Ok? ==> EvalToplevel(fs, ls, items, defaults).value == Fold(Fresh(defaults), flat.value))
  {
    var flat := Flat(fs, ls, items, []);
    Flattening(fs, ls, Fresh(defaults), items, []);
    if flat.Ok? { ListensIff(Fresh(defaults), flat.value); }
  }
}
