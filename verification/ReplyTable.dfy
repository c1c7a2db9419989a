/**
 The table of expected replies (bus/connection.c, "pending replies") and the expire
 list that holds it (bus/expirelist.c).

 `Table` is the state, `Event` names the calls that change it.  A `Hook` is one
 cancel hook of the transaction in progress, newest first.  Times are microseconds
 of the monotonic clock, timeouts are milliseconds as in the source.
*/
module ReplyTable {
  import opened BusTypes

  /** id is the identity of the BusPendingReply; replier is None once that side is gone;
      stamp 0 means "expire at once". */
  datatype PendingReply = PendingReply(id: nat, caller: Conn, replier: Option<Conn>, serial: nat, stamp: nat)

  /** What the books remember of an expectation. */
  datatype Key = Key(id: nat, caller: Conn, serial: nat)

  datatype Hook =
    | Added(key: Key)             // cancel_pending_reply
    | Taken(item: PendingReply)   // cancel_check_pending_reply

  datatype Timer = Off | At(when: int)

  datatype Table = Table(
    limit: nat,                   // max_replies_per_connection
    expireAfter: int,             // reply_timeout; not positive means never
    pending: seq<PendingReply>,   // the expire list, newest first
    hooks: seq<Hook>,
    nextId: nat,
    clock: nat,
    timer: Timer,
    retryAt: int,                 // when the last failed expiry pass is tried again
    recorded: set<Key>,           // the books: committed expectations,
    consumed: set<Key>,           //   those answered by a committed reply,
    dropped: set<Key>,            //   those dropped with their caller,
    notices: seq<Key>)            //   those answered by the daemon with NoReply, in order

  const OOM_WAIT: int := 500
  const ONE_HOUR: int := 3600 * 1000

  function KeyOf(p: PendingReply): Key { Key(p.id, p.caller, p.serial) }

  predicate Matches(p: PendingReply, caller: Conn, replier: Conn, serial: nat) {
    p.serial == serial && p.caller == caller && p.replier == Some(replier)
  }

  /** Index of the first match, or |s|. */
  function Find(s: seq<PendingReply>, caller: Conn, replier: Conn, serial: nat): (i: nat)
    ensures i <= |s|
    ensures forall j :: 0 <= j < i ==> !Matches(s[j], caller, replier, serial)
    ensures i < |s| ==> Matches(s[i], caller, replier, serial)
  {
    if s == [] || Matches(s[0], caller, replier, serial) then 0
    else
      var i := Find(s[1..], caller, replier, serial);
      assert forall j :: 1 <= j < |s| ==> s[j] == s[1..][j - 1];
      i + 1
  }

  function CountFor(s: seq<PendingReply>, caller: Conn): nat {
    if s == [] then 0 else (if s[0].caller == caller then 1 else 0) + CountFor(s[1..], caller)
  }

  function RemoveId(s: seq<PendingReply>, id: nat): seq<PendingReply> {
    if s == [] then [] else if s[0].id == id then s[1..] else [s[0]] + RemoveId(s[1..], id)
  }

  /** The list after bus_connection_drop_pending_replies. */
  function DropAll(s: seq<PendingReply>, c: Conn): seq<PendingReply> {
    if s == [] then []
    else if s[0].caller == c then DropAll(s[1..], c)
    else [Orphan(s[0], c)] + DropAll(s[1..], c)
  }

  function Orphan(p: PendingReply, c: Conn): PendingReply {
    if p.replier == Some(c) then p.(replier := None, stamp := 0) else p
  }

  predicate MakesOrphan(s: seq<PendingReply>, c: Conn) {
    exists i :: 0 <= i < |s| && s[i].caller != c && s[i].replier == Some(c)
  }

  /** The list after one hook has run. */
  function UndoHook(h: Hook, s: seq<PendingReply>): seq<PendingReply> {
    match h
    case Added(k) => RemoveId(s, k.id)
    case Taken(p) => [p] + s
  }

  function UndoHooks(hooks: seq<Hook>, s: seq<PendingReply>): seq<PendingReply> {
    if hooks == [] then s else UndoHooks(hooks[1..], UndoHook(hooks[0], s))
  }

  function Rearmed(timer: Timer, now: nat): Timer { if timer.Off? then At(now) else timer }

  predicate HasTaken(hooks: seq<Hook>) { exists i :: 0 <= i < |hooks| && hooks[i].Taken? }

  // ---- Expiry ----

  predicate Due(p: PendingReply, expireAfter: int, now: nat) {
    p.stamp == 0 || (expireAfter > 0 && now - p.stamp >= 1000 * expireAfter)
  }

  function Survivors(s: seq<PendingReply>, expireAfter: int, now: nat): (r: seq<PendingReply>)
    ensures forall p :: p in r <==> p in s && !Due(p, expireAfter, now)
  {
    if s == [] then []
    else (if Due(s[0], expireAfter, now) then [] else [s[0]]) + Survivors(s[1..], expireAfter, now)
  }

  function Expired(s: seq<PendingReply>, expireAfter: int, now: nat): (r: seq<Key>)
    ensures forall k :: k in r <==> exists p :: p in s && Due(p, expireAfter, now) && KeyOf(p) == k
  {
    if s == [] then []
    else
      assert forall p :: p in s <==> p == s[0] || p in s[1..];
      (if Due(s[0], expireAfter, now) then [KeyOf(s[0])] else []) + Expired(s[1..], expireAfter, now)
  }

  /** Whole milliseconds until p is due. */
  function WaitMs(p: PendingReply, expireAfter: int, now: nat): int {
    (1000 * expireAfter - (now - p.stamp)) / 1000
  }

  function MinWait(s: seq<PendingReply>, expireAfter: int, now: nat): (w: int)
    ensures w <= ONE_HOUR
    ensures forall p :: p in s ==> w <= WaitMs(p, expireAfter, now)
    ensures w == ONE_HOUR || exists p :: p in s && w == WaitMs(p, expireAfter, now)
  {
    if s == [] then ONE_HOUR
    else
      var w := MinWait(s[1..], expireAfter, now);
      var x := WaitMs(s[0], expireAfter, now);
      assert forall p :: p in s <==> p == s[0] || p in s[1..];
      if x < w then x else w
  }

  // ---- Events ----

  datatype Event =
    | Record(caller: Conn, replier: Conn, serial: nat)    // bus_connections_expect_reply, granted
    | RecordFails                                         // the same, out of memory after the timer was armed
    | Consume(caller: Conn, replier: Conn, serial: nat)   // bus_connections_check_reply, granted
    | Commit                                              // the transaction is executed
    | Undo                                                // the transaction is cancelled
    | Drop(c: Conn)                                       // bus_connection_drop_pending_replies
    | Expire(fail: Option<nat>)                           // one pass; which position failed, if any
    | Tick(us: nat)

  predicate Enabled(t: Table, e: Event) {
    match e
    case Record(caller, replier, serial) =>
      Find(t.pending, caller, replier, serial) == |t.pending| && CountFor(t.pending, caller) < t.limit
    case Consume(caller, replier, serial) => Find(t.pending, caller, replier, serial) < |t.pending|
    case RecordFails => true
    case Commit => true
    case Undo => true
    case Drop(_) => t.hooks == []
    case Expire(fail) =>
      && t.hooks == []
      && (fail.Some? ==> fail.value < |t.pending| && Due(t.pending[fail.value], t.expireAfter, t.clock))
    case Tick(_) => true
  }

  function AddedKeys(hooks: seq<Hook>): set<Key> {
    if hooks == [] then {} else (if hooks[0].Added? then {hooks[0].key} else {}) + AddedKeys(hooks[1..])
  }

  function TakenKeys(hooks: seq<Hook>): set<Key> {
    if hooks == [] then {} else (if hooks[0].Taken? then {KeyOf(hooks[0].item)} else {}) + TakenKeys(hooks[1..])
  }

  function Keys(s: seq<PendingReply>): set<Key> { set p | p in s :: KeyOf(p) }

  function ApplyRecord(t: Table, caller: Conn, replier: Conn, serial: nat): Table {
    var p := PendingReply(t.nextId, caller, Some(replier), serial, t.clock);
    t.(pending := [p] + t.pending, hooks := [Added(KeyOf(p))] + t.hooks, nextId := t.nextId + 1,
    timer := Rearmed(t.timer, t.clock))
  }

  function ApplyConsume(t: Table, caller: Conn, replier: Conn, serial: nat): Table
    requires Find(t.pending, caller, replier, serial) < |t.pending|
  {
    var i := Find(t.pending, caller, replier, serial);
    t.(pending := t.pending[..i] + t.pending[i + 1..], hooks := [Taken(t.pending[i])] + t.hooks)
  }

  function ApplyExpire(t: Table, fail: Option<nat>): Table
    requires fail.Some? ==> fail.value < |t.pending|
  {
    match fail
    case None =>
      var rest := Survivors(t.pending, t.expireAfter, t.clock);
      t.(pending := rest,
      notices := t.notices + Expired(t.pending, t.expireAfter, t.clock),
      timer := if rest != [] && t.expireAfter > 0 then At(t.clock + 1000 * MinWait(rest, t.expireAfter, t.clock)) else Off)
    case Some(i) =>
      t.(pending := Survivors(t.pending[..i], t.expireAfter, t.clock) + t.pending[i..],
      notices := t.notices + Expired(t.pending[..i], t.expireAfter, t.clock),
      timer := At(t.clock + 1000 * OOM_WAIT),
      retryAt := t.clock + 1000 * OOM_WAIT)
  }

  function Apply(t: Table, e: Event): Table
    requires Enabled(t, e)
  {
    match e
    case Record(caller, replier, serial) => ApplyRecord(t, caller, replier, serial)
    case Consume(caller, replier, serial) => ApplyConsume(t, caller, replier, serial)
    case RecordFails => t.(timer := Rearmed(t.timer, t.clock))
    case Commit =>
      t.(hooks := [], recorded := t.recorded + AddedKeys(t.hooks), consumed := t.consumed + TakenKeys(t.hooks))
    case Undo =>
      t.(pending := UndoHooks(t.hooks, t.pending), hooks := [],
      timer := if HasTaken(t.hooks) then Rearmed(t.timer, t.clock) else t.timer)
    case Drop(c) =>
      t.(pending := DropAll(t.pending, c),
      timer := if MakesOrphan(t.pending, c) then At(t.clock) else t.timer,
      dropped := t.dropped + (set p | p in t.pending && p.caller == c :: KeyOf(p)))
    case Expire(fail) => ApplyExpire(t, fail)
    case Tick(us) => t.(clock := t.clock + us)
  }

  predicate Runnable(t: Table, es: seq<Event>)
    decreases |es|
  {
    es == [] || (Enabled(t, es[0]) && Runnable(Apply(t, es[0]), es[1..]))
  }

  function Run(t: Table, es: seq<Event>): Table
    requires Runnable(t, es)
    decreases |es|
  {
    if es == [] then t else Run(Apply(t, es[0]), es[1..])
  }

  function Initial(limit: nat, expireAfter: int, now: nat): Table {
    Table(limit, expireAfter, [], [], 0, now, Off, 0, {}, {}, {}, [])
  }
}
