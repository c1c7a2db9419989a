/**
 The callbacks of the XML parser, and the stack of elements that they drive
 (bus/config-loader-expat.c, and the element handling of bus/config-parser.c).
*/
module ExpatLoader {
  import opened BusTypes

  datatype ElementType =
    | NoType   // a name that is not known
    | BusConfig | Include | User | Listen | Auth | Policy | Limit | Allow | Deny | Fork | PidFile | ServiceDir | ServiceHelper
    | IncludeDir | ConfigType | SELinux | Associate | StandardSessionServiceDirs | StandardSystemServiceDirs
    | KeepUmask | Syslog | AllowAnonymous | AppArmor

  datatype Element = Element(kind: ElementType, hadContent: bool)

  /** Outermost element first. */
  datatype Loader = Loader(stack: seq<Element>, content: string, failed: bool)

  /** Elements that stand for their text. */
  predicate HoldsText(t: ElementType) {
    t in {Include, User, ConfigType, Listen, PidFile, Auth, ServiceDir, ServiceHelper, IncludeDir, Limit}
  }

  predicate ChildOf(parent: ElementType, t: ElementType) {
    match parent
    case BusConfig => t !in {NoType, BusConfig, Allow, Deny, Associate}
    case Policy => t in {Allow, Deny}
    case SELinux => t == Associate
    case _ => false
  }

  predicate IsWhite(c: char) { c == ' ' || c == '\t' || c == '\n' || c == '\r' }

  predicate AllWhite(s: string) { forall i :: 0 <= i < |s| ==> IsWhite(s[i]) }

  function Top(m: Loader): ElementType { if m.stack == [] then NoType else m.stack[|m.stack| - 1].kind }

  /** The assertion that an element has but one block of content. */
  predicate SecondContent(m: Loader) {
    !m.failed && m.content != "" && m.stack != [] && m.stack[|m.stack| - 1].hadContent
  }

  function Fail(m: Loader): Loader { m.(failed := true) }

  /** process_content; good says whether the text is of any use to the element. */
  function WithContent(m: Loader, good: bool): Loader {
    if m.failed || m.content == "" then m
    else if m.stack == [] then Fail(m)
    else if HoldsText(Top(m)) then
      var m1 := m.(stack := m.stack[|m.stack| - 1 := Element(Top(m), true)]);
      if good then m1.(content := "") else Fail(m1)
    else if AllWhite(m.content) then m.(content := "")
    else Fail(m)
  }

  /** good: the text before it; attributes: those of the element; early: it is pushed before they are looked at. */
  datatype Callback =
    | Start(name: ElementType, good: bool, attributes: bool, early: bool)
    | End(name: ElementType, good: bool, limit: bool)   // limit: the value is one that set_limit accepts
    | Text(s: string, memory: bool)

  function Push(m: Loader, t: ElementType): Loader { m.(stack := m.stack + [Element(t, false)]) }

  function Started(m: Loader, name: ElementType, attributes: bool, early: bool): Loader {
    if (m.stack == [] && name == BusConfig) || ChildOf(Top(m), name) then
      if attributes then Push(m, name) else if early then Fail(Push(m, name)) else Fail(m)
    else Fail(m)
  }

  function Ended(m: Loader, name: ElementType, limit: bool): Loader {
    if m.stack == [] || Top(m) != name then Fail(m)
    else if HoldsText(name) && !m.stack[|m.stack| - 1].hadContent then Fail(m)
    else if name == Limit && !limit then Fail(m)
    else m.(stack := m.stack[..|m.stack| - 1])
  }

  function Apply(m: Loader, e: Callback): Loader {
    match e
    case Start(name, good, attributes, early) =>
      var m1 := WithContent(m, good);
      if m1.failed then m1 else Started(m1, name, attributes, early)
    case End(name, good, limit) =>
      var m1 := WithContent(m, good);
      if m1.failed then m1 else Ended(m1, name, limit)
    case Text(s, memory) => if m.failed then m else if memory then m.(content := m.content + s) else Fail(m)
  }

  function Run(m: Loader, es: seq<Callback>): Loader
    decreases |es|
  {
    if es == [] then m else Run(Apply(m, es[0]), es[1..])
  }

  const START := Loader([], "", false)

  // ---- Shapes ----

  /** At most three deep: nothing, the root, a child of the root, or a rule inside a policy or an association inside selinux. */
  predicate Shape(stack: seq<Element>) {
    || stack == []
    || (stack[0].kind == BusConfig &&
        (|| |stack| == 1
         || (|stack| == 2 && ChildOf(BusConfig, stack[1].kind))
         || (|stack| == 3 && stack[1].kind in {Policy, SELinux} && ChildOf(stack[1].kind, stack[2].kind))))
  }

  predicate Unread(stack: seq<Element>) { forall i :: 0 <= i < |stack| ==> !stack[i].hadContent }

  /** Between callbacks no element has had its content, unless parsing has failed; and then it is the innermost one, which holds text. */
  predicate Inv(m: Loader) {
    && Shape(m.stack)
    && (!m.failed ==> Unread(m.stack))
    && (m.stack != [] ==> Unread(m.stack[..|m.stack| - 1]) && (m.stack[|m.stack| - 1].hadContent ==> HoldsText(Top(m))))
  }

  /** In the middle of a callback: the innermost element may just have had its content. */
  predicate Ready(m: Loader) {
    && Shape(m.stack)
    && (m.stack != [] ==> Unread(m.stack[..|m.stack| - 1]) && (m.stack[|m.stack| - 1].hadContent ==> HoldsText(Top(m))))
  }

  lemma ContentKeepsInv(m: Loader, good: bool)
    requires Inv(m)
    ensures !SecondContent(m) && Ready(WithContent(m, good)) && (WithContent(m, good).failed ==> Inv(WithContent(m, good)))
  {
    if m.stack != [] {
      var n := |m.stack| - 1;
      assert m.stack[n := Element(Top(m), true)][..n] == m.stack[..n];
    }
  }

  /** Inside an element that holds text nothing can start, so whatever starts has only unread elements around it. */
  lemma ParentsAreUnread(m: Loader, name: ElementType)
    requires Ready(m) && ((m.stack == [] && name == BusConfig) || ChildOf(Top(m), name))
    ensures Unread(m.stack) && Shape(Push(m, name).stack)
  {
    if m.stack != [] {
      var n := |m.stack| - 1;
      assert !HoldsText(Top(m));
      assert forall i | 0 <= i < n :: m.stack[i] == m.stack[..n][i];
    }
  }

  lemma StartedKeeps(m: Loader, name: ElementType, attributes: bool, early: bool)
    requires Ready(m) && !m.failed
    ensures Inv(Started(m, name, attributes, early))
  {
    if (m.stack == [] && name == BusConfig) || ChildOf(Top(m), name) {
      ParentsAreUnread(m, name);
      hide Shape, ChildOf, HoldsText;
      assert Push(m, name).stack[..|m.stack|] == m.stack;
    }
  }

  lemma StartKeepsInv(m: Loader, name: ElementType, good: bool, attributes: bool, early: bool)
    requires Inv(m)
    ensures Inv(Apply(m, Start(name, good, attributes, early)))
  {
    hide Inv, Ready, WithContent, Started;
    ContentKeepsInv(m, good);
    if !WithContent(m, good).failed { StartedKeeps(WithContent(m, good), name, attributes, early); }
  }

  lemma EndedKeeps(m: Loader, name: ElementType, limit: bool)
    requires Ready(m) && !m.failed
    ensures Inv(Ended(m, name, limit))
  {
    if |m.stack| > 1 {
      var n := |m.stack| - 1;
      assert m.stack[..n][..n - 1] == m.stack[..n - 1];
    }
  }

  lemma EndKeepsInv(m: Loader, name: ElementType, good: bool, limit: bool)
    requires Inv(m)
    ensures Inv(Apply(m, End(name, good, limit)))
  {
    hide Inv, Ready, WithContent, Ended;
    ContentKeepsInv(m, good);
    if !WithContent(m, good).failed { EndedKeeps(WithContent(m, good), name, limit); }
  }

  lemma StepKeepsInv(m: Loader, e: Callback)
    requires Inv(m)
    ensures Inv(Apply(m, e))
  {
    match e {
      case Start(name, good, attributes, early) => StartKeepsInv(m, name, good, attributes, early);
      case End(name, good, limit) => EndKeepsInv(m, name, good, limit);
      case Text(s, memory) =>
    }
  }

  /** Whatever callbacks come, the stack has one of the few shapes, and neither assertion is reached. */
  lemma {:induction false} EveryRunKeepsShape(m: Loader, es: seq<Callback>)
    requires Inv(m)
    ensures var m' := Run(m, es);
            && Inv(m') && !SecondContent(m') && |m'.stack| <= 3
            && forall i :: 0 <= i < |m'.stack| ==> m'.stack[i].kind != NoType
    decreases |es|
  {
    if es == [] {
      ContentKeepsInv(m, true);
    } else {
      StepKeepsInv(m, es[0]);
      EveryRunKeepsShape(Apply(m, es[0]), es[1..]);
    }
  }

  // ---- What an accepted file is ----

  /** The names of the elements that are open after es, by matching every end with the latest start. */
  function Open(names: seq<ElementType>, es: seq<Callback>): seq<ElementType>
    decreases |es|
  {
    if es == [] then names
    else
      match es[0]
      case Start(name, _, _, _) => Open(names + [name], es[1..])
      case End(_, _, _) => Open(if names == [] then [] else names[..|names| - 1], es[1..])
      case Text(_, _) => Open(names, es[1..])
  }

  function Names(stack: seq<Element>): seq<ElementType> {
    seq(|stack|, i requires 0 <= i < |stack| => stack[i].kind)
  }

  lemma StepNames(m: Loader, e: Callback)
    requires !Apply(m, e).failed
    ensures !m.failed && Names(Apply(m, e).stack) == Open(Names(m.stack), [e])
    ensures e.End? ==> m.stack != [] && Top(m) == e.name
  {
    assert [e][1..] == [];
    assert Open(Names(Apply(m, e).stack), []) == Names(Apply(m, e).stack);
  }

  lemma FailedStays(m: Loader, es: seq<Callback>)
    requires m.failed
    ensures Run(m, es).failed
    decreases |es|
  {
    if es != [] { FailedStays(Apply(m, es[0]), es[1..]); }
  }

  /** Unless a callback has failed, the stack is the elements that have been started and not ended. */
  lemma {:induction false} StackIsOpenElements(m: Loader, es: seq<Callback>)
    requires !Run(m, es).failed
    ensures Names(Run(m, es).stack) == Open(Names(m.stack), es)
    decreases |es|
  {
    if es != [] {
      var m1 := Apply(m, es[0]);
      if m1.failed { FailedStays(m1, es[1..]); assert false; }
      StepNames(m, es[0]);
      StackIsOpenElements(m1, es[1..]);
      assert [es[0]][1..] == [];
      assert Open(Names(m.stack), es) == Open(Open(Names(m.stack), [es[0]]), es[1..]);
    }
  }

  /** So a file that loads has closed everything it opened. */
  lemma AcceptedIsBalanced(es: seq<Callback>)
    requires !Run(START, es).failed
    ensures Run(START, es).stack == [] <==> Open([], es) == []
  {
    StackIsOpenElements(START, es);
    assert Names(START.stack) == [];
  }

  // ---- Which files are accepted ----

  /** The text since the last start or end of an element. */
  function TextSince(es: seq<Callback>): string {
    if es == [] then ""
    else
      var e := es[|es| - 1];
      if e.Text? then TextSince(es[..|es| - 1]) + e.s else ""
  }

  /** The element that the next callback is in. */
  function Inside(es: seq<Callback>): ElementType {
    var names := Open([], es);
    if names == [] then NoType else names[|names| - 1]
  }

  predicate White(s: string) { forall i :: 0 <= i < |s| ==> s[i] in {' ', '\t', '\n', '\r'} }

  predicate IsText(t: ElementType) {
    || t == User || t == ConfigType || t == Listen || t == PidFile || t == Auth || t == ServiceDir || t == ServiceHelper
    || t == Include || t == IncludeDir || t == Limit
  }

  /** Text may stand where it does: anything the element can use in an element that is text, and blanks in any other. */
  predicate TextFits(es: seq<Callback>, good: bool) {
    var text := TextSince(es);
    text == "" || (Open([], es) != [] && if IsText(Inside(es)) then good else White(text))
  }

  /** An element may stand in another: busconfig outermost, rules in a policy, associations in selinux, and all the others in busconfig. */
  predicate Nests(es: seq<Callback>, t: ElementType) {
    match Inside(es)
    case NoType => Open([], es) == [] && t == BusConfig
    case BusConfig => !(t == NoType || t == BusConfig || t == Allow || t == Deny || t == Associate)
    case Policy => t == Allow || t == Deny
    case SELinux => t == Associate
    case _ => false
  }

  /** The callback at k is acceptable after those before it. */
  predicate Fine(es: seq<Callback>, k: nat)
    requires k < |es|
  {
    var before := es[..k];
    match es[k]
    case Text(_, memory) => memory
    case Start(t, good, attributes, _) => TextFits(before, good) && Nests(before, t) && attributes
    case End(t, good, limit) =>
      && TextFits(before, good) && Open([], before) != [] && Inside(before) == t
      && (IsText(t) ==> TextSince(before) != "") && (t == Limit ==> limit)
  }

  predicate AllFine(es: seq<Callback>) { forall k | 0 <= k < |es| :: Fine(es, k) }

  /** The state after es, as long as nothing has failed. */
  ghost predicate Tracks(m: Loader, es: seq<Callback>) {
    && !m.failed && Inv(m) && Names(m.stack) == Open([], es) && m.content == TextSince(es)
  }

  lemma {:induction false} OpenLast(names: seq<ElementType>, es: seq<Callback>, e: Callback)
    ensures Open(names, es + [e]) == Open(Open(names, es), [e])
    decreases |es|
  {
    if es == [] {
      assert es + [e] == [e];
    } else {
      assert (es + [e])[1..] == es[1..] + [e] && (es + [e])[0] == es[0];
      match es[0] {
        case Start(n, _, _, _) => OpenLast(names + [n], es[1..], e);
        case End(_, _, _) => OpenLast(if names == [] then [] else names[..|names| - 1], es[1..], e);
        case Text(_, _) => OpenLast(names, es[1..], e);
      }
    }
  }

  lemma {:induction false} RunLast(m: Loader, es: seq<Callback>, e: Callback)
    ensures Run(m, es + [e]) == Apply(Run(m, es), e)
    decreases |es|
  {
    hide Apply;
    if es == [] {
      assert es + [e] == [e] && [e][1..] == [];
      assert Run(Apply(m, e), []) == Apply(m, e);
    } else {
      assert (es + [e])[1..] == es[1..] + [e] && (es + [e])[0] == es[0];
      RunLast(Apply(m, es[0]), es[1..], e);
    }
  }

  lemma TopIsInside(m: Loader, es: seq<Callback>)
    requires Tracks(m, es)
    ensures Top(m) == Inside(es) && (m.stack == [] <==> Open([], es) == [])
  {
  }

  lemma NestsIff(m: Loader, es: seq<Callback>, t: ElementType)
    requires Tracks(m, es)
    ensures ((m.stack == [] && t == BusConfig) || ChildOf(Top(m), t)) <==> Nests(es, t)
  {
    TopIsInside(m, es);
    hide Open;
    if m.stack != [] { assert m.stack[|m.stack| - 1].kind != NoType; }
  }

  lemma TextFitsIff(m: Loader, es: seq<Callback>, good: bool)
    requires Tracks(m, es)
    ensures var m1 := WithContent(m, good);
            && (!m1.failed <==> TextFits(es, good))
            && (!m1.failed ==>
                  && m1.content == "" && |m1.stack| == |m.stack| && Names(m1.stack) == Names(m.stack)
                  && (m.stack != [] ==> (m1.stack[|m.stack| - 1].hadContent <==> IsText(Top(m)) && TextSince(es) != "")))
  {
    TopIsInside(m, es);
    hide Open, Shape;
    assert HoldsText(Top(m)) <==> IsText(Top(m));
    assert AllWhite(m.content) <==> White(m.content);
  }

  lemma TextAfter(es: seq<Callback>, e: Callback, t: ElementType)
    requires !e.Text?
    ensures TextSince(es + [e]) == "" && (HoldsText(t) <==> IsText(t))
  {
  }

  lemma StartFine(m: Loader, es: seq<Callback>, t: ElementType, good: bool, attributes: bool, early: bool)
    requires Tracks(m, es)
    ensures var e := Start(t, good, attributes, early);
            && (!Apply(m, e).failed <==> Fine(es + [e], |es|))
            && (!Apply(m, e).failed ==> Tracks(Apply(m, e), es + [e]))
  {
    hide Inv, WithContent, TextFits, Nests, ChildOf, Top, Open, Names, Inside, TextSince;
    var e, m1 := Start(t, good, attributes, early), WithContent(m, good);
    assert (es + [e])[..|es|] == es && (es + [e])[|es|] == e;
    OpenLast([], es, e);
    StepKeepsInv(m, e);
    TextFitsIff(m, es, good);
    NestsIff(m, es, t);
    TextAfter(es, e, t);
    if !m1.failed {
      TopSame(m, m1);
      if !Apply(m, e).failed { StepNames(m, e); }
    }
  }

  lemma EndFine(m: Loader, es: seq<Callback>, t: ElementType, good: bool, limit: bool)
    requires Tracks(m, es)
    ensures var e := End(t, good, limit);
            && (!Apply(m, e).failed <==> Fine(es + [e], |es|))
            && (!Apply(m, e).failed ==> Tracks(Apply(m, e), es + [e]))
  {
    hide Inv, WithContent, TextFits, Top, HoldsText, IsText, Open, Names, Inside, TextSince;
    var e, m1 := End(t, good, limit), WithContent(m, good);
    assert (es + [e])[..|es|] == es && (es + [e])[|es|] == e;
    OpenLast([], es, e);
    StepKeepsInv(m, e);
    TopIsInside(m, es);
    TextFitsIff(m, es, good);
    TextAfter(es, e, t);
    if !m1.failed {
      TopSame(m, m1);
      if !Apply(m, e).failed { StepNames(m, e); }
    }
  }

  lemma StepFine(m: Loader, es: seq<Callback>, e: Callback)
    requires Tracks(m, es)
    ensures !Apply(m, e).failed <==> Fine(es + [e], |es|)
    ensures !Apply(m, e).failed ==> Tracks(Apply(m, e), es + [e])
  {
    match e {
      case Text(t, memory) =>
        assert (es + [e])[..|es|] == es && (es + [e])[|es|] == e && [e][1..] == [];
        OpenLast([], es, e);
        StepKeepsInv(m, e);
        hide Inv;
      case Start(t, good, attributes, early) =>
        hide Apply, Fine, Tracks;
        StartFine(m, es, t, good, attributes, early);
      case End(t, good, limit) =>
        hide Apply, Fine, Tracks;
        EndFine(m, es, t, good, limit);
    }
  }

  lemma TopSame(m: Loader, m1: Loader)
    requires |m1.stack| == |m.stack| && Names(m1.stack) == Names(m.stack)
    ensures Top(m1) == Top(m)
  {
    if m.stack != [] { assert Names(m1.stack)[|m.stack| - 1] == Names(m.stack)[|m.stack| - 1]; }
  }

  lemma {:induction false} AcceptedSoFar(es: seq<Callback>)
    ensures !Run(START, es).failed <==> AllFine(es)
    ensures !Run(START, es).failed ==> Tracks(Run(START, es), es)
    decreases |es|
  {
    if es == [] {
      assert Names(START.stack) == [];
    } else {
      hide Fine, Apply, Tracks;
      var n := |es| - 1;
      AcceptedSoFar(es[..n]);
      assert es == es[..n] + [es[n]];
      RunLast(START, es[..n], es[n]);
      FinePrefix(es, n);
      if !Run(START, es[..n]).failed {
        StepFine(Run(START, es[..n]), es[..n], es[n]);
      } else {
        FailedStaysFailed(Run(START, es[..n]), es[n]);
      }
    }
  }

  lemma FinePrefix(es: seq<Callback>, n: nat)
    requires n < |es|
    ensures AllFine(es[..n]) <==> forall k | 0 <= k < n :: Fine(es, k)
  {
    forall k | 0 <= k < n ensures Fine(es[..n], k) == Fine(es, k) { assert es[..n][..k] == es[..k] && es[..n][k] == es[k]; }
  }

  lemma FailedStaysFailed(m: Loader, e: Callback)
    requires m.failed
    ensures Apply(m, e).failed
  {
  }

  /**
   A file is accepted exactly if every callback is acceptable where it stands, with elements that
   nest as they may and text where it may be, and all elements have ended.
   */
  lemma AcceptedIff(es: seq<Callback>)
    ensures !Run(START, es).failed && Run(START, es).stack == [] <==> AllFine(es) && Open([], es) == []
  {
    hide AllFine, Open;
    AcceptedSoFar(es);
    if !Run(START, es).failed { TopIsInside(Run(START, es), es); }
  }

  // ---- The handlers ----

  class ExpatContext {
    const enough: bool   // no allocation fails
    var stack: seq<Element>
    var content: string
    var failed: bool

    ghost function Abs(): Loader
      reads this
    {
      Loader(stack, content, failed)
    }

    constructor (enough: bool)
      ensures this.enough == enough && Abs() == START && Inv(Abs())
    {
      this.enough := enough;
      stack, content, failed := [], "", false;
    }

    /** bus_config_parser_content, for what is left of its text. */
    method Content(good: bool) returns (ok: bool)
      requires Inv(Abs()) && !failed && content != ""
      modifies `stack
      ensures Loader(stack, content, !ok).(content := if ok then "" else content) == WithContent(old(Abs()), good)
    {
      ContentKeepsInv(Abs(), good);
      if stack == [] {
        return false;
      }
      var e := stack[|stack| - 1];
      assert !e.hadContent;      // "Element had multiple content blocks"
      assert !e.kind.NoType?;    // "element at top of stack has no type"
      if !HoldsText(e.kind) {
        var i := 0;
        while i < |content| && IsWhite(content[i])
          invariant i <= |content| && forall j :: 0 <= j < i ==> IsWhite(content[j])
        {
          i := i + 1;
        }
        return i == |content|;
      }
      stack := stack[|stack| - 1 := e.(hadContent := true)];
      return good;
    }

    method ProcessContent(good: bool) returns (ok: bool)
      requires Inv(Abs())
      modifies this
      ensures Abs() == WithContent(old(Abs()), good) && ok == !failed
    {
      if failed {
        return false;
      }
      if |content| > 0 {
        ok := Content(good);
        if !ok {
          failed := true;
          return;
        }
        content := "";
      }
      return true;
    }

    method StartElement(name: ElementType, good: bool, attributes: bool, early: bool)
      requires Inv(Abs())
      modifies this
      ensures Inv(Abs()) && Abs() == Apply(old(Abs()), Start(name, good, attributes, early))
    {
      StartKeepsInv(Abs(), name, good, attributes, early);
      hide Inv, ChildOf, WithContent;
      if failed {
        return;
      }
      var ok := ProcessContent(good);
      if !ok {
        return;
      }
      var top := if stack == [] then NoType else stack[|stack| - 1].kind;
      if !((stack == [] && name == BusConfig) || ChildOf(top, name)) {
        failed := true;
        return;
      }
      if attributes || early {
        stack := stack + [Element(name, false)];
      }
      failed := !attributes;
    }

    method EndElement(name: ElementType, good: bool, limit: bool)
      requires Inv(Abs())
      modifies this
      ensures Inv(Abs()) && Abs() == Apply(old(Abs()), End(name, good, limit))
    {
      EndKeepsInv(Abs(), name, good, limit);
      hide Inv, WithContent;
      var ok := ProcessContent(good);
      if !ok {
        return;
      }
      if stack == [] || stack[|stack| - 1].kind != name {
        failed := true;
        return;
      }
      var e := stack[|stack| - 1];
      if (HoldsText(e.kind) && !e.hadContent) || (e.kind == Limit && !limit) {
        failed := true;
        return;
      }
      stack := stack[..|stack| - 1];
    }

    method CharacterData(s: string) returns (ghost memory: bool)
      requires Inv(Abs())
      modifies this
      ensures Inv(Abs()) && Abs() == Apply(old(Abs()), Text(s, memory)) && (enough ==> memory)
    {
      memory := true;
      if failed {
        return;
      }
      var full := Exhausted(enough);
      if full {
        failed := true;
        return false;
      }
      content := content + s;
    }
  }
}
