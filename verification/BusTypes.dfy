/** Values shared by every part of the model of the bus daemon. */
module BusTypes {

  /** Identity of a DBusConnection. */
  type Conn = nat

  /** Identity of a BusTransaction. */
  type TxnId = nat

  datatype Option<+T> = None | Some(value: T)

  datatype MessageType = MethodCall | MethodReturn | ErrorMessage | Signal | UnknownType

  datatype ErrorName = NoMemory | NoReply | AccessDenied | LimitsExceeded | NotSupported | NameHasNoOwner

  /** A message, reduced to the header fields that routing looks at. */
  datatype Message =
    | Message(kind: MessageType, serial: nat, replySerial: nat, noReply: bool, hasFds: bool)
      /** An error made up by the daemon, in reply to the message with the given serial. */
    | DriverError(name: ErrorName, inReplyTo: nat)

  /** Whether an allocation fails; none does while there is enough memory. */
  method Exhausted(enough: bool) returns (r: bool)
    ensures r ==> !enough
  {
    r := *;
    r := r && !enough;
  }

  predicate NoDuplicates<T(==)>(s: seq<T>) {
    forall i, j :: 0 <= i < j < |s| ==> s[i] != s[j]
  }

  lemma {:induction false} OnceIfDistinct<T>(s: seq<T>, x: T)
    requires NoDuplicates(s)
    ensures multiset(s)[x] == if x in s then 1 else 0
  {
    if s != [] {
      assert s == [s[0]] + s[1..];
      assert NoDuplicates(s[1..]) && s[0] !in s[1..];
      OnceIfDistinct(s[1..], x);
    }
  }

  lemma SubsetSize<T>(a: set<T>, b: set<T>)
    requires a <= b
    ensures |a| <= |b|
  {
    assert b == a + (b - a);
  }

  lemma Regroup<T>(a: seq<T>, b: seq<T>, c: seq<T>)
    ensures a + (b + c) == a + b + c
  {
  }

  /** Taking the first element off before or after another one is appended. */
  lemma TailAppend<T>(s: seq<T>, x: T)
    requires s != []
    ensures (s + [x])[0] == s[0] && (s + [x])[1..] == s[1..] + [x]
  {
  }

  lemma Overwrite<K, V>(m: map<K, V>, k: K, a: V, b: V)
    ensures m[k := a][k := b] == m[k := b]
  {
  }
}
