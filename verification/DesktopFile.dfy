/**
 Service files (bus/desktop-file.c): sections of key=value lines, with backslash escapes.
*/
module DesktopFile {
  import opened BusTypes

  type Byte = b: int | 0 <= b < 256

  type Text = seq<Byte>

  const NUL: Byte := 0
  const TAB: Byte := 9
  const LF: Byte := 10
  const FF: Byte := 12
  const CR: Byte := 13
  const SPACE: Byte := 32
  const HASH: Byte := 35
  const EQUALS: Byte := 61
  const OPEN: Byte := 91        // [
  const BACKSLASH: Byte := 92
  const CLOSE: Byte := 93       // ]

  datatype Line = Line(key: Text, value: Text)

  datatype Section = Section(name: Text, lines: seq<Line>)

  datatype Error = InvalidSyntax | InvalidEscapes | InvalidChars | KeyBeforeSection | OutOfMemory

  datatype Result<T> = Ok(value: T) | Err(error: Error)

  // ---- Escapes ----

  function Escape(b: Byte): Text {
    if b == SPACE then [BACKSLASH, 115]
    else if b == TAB then [BACKSLASH, 116]
    else if b == LF then [BACKSLASH, 110]
    else if b == CR then [BACKSLASH, 114]
    else if b == BACKSLASH then [BACKSLASH, BACKSLASH]
    else [b]
  }

  function Escaped(s: Text): Text { if s == [] then [] else Escape(s[0]) + Escaped(s[1..]) }

  /** The byte that a backslash and this code stand for. */
  function Decoded(code: Byte): Option<Byte> {
    if code == 115 then Some(SPACE)
    else if code == 116 then Some(TAB)
    else if code == 110 then Some(LF)
    else if code == 114 then Some(CR)
    else if code == BACKSLASH then Some(BACKSLASH)
    else None
  }

  function Unescape(s: Text): Option<Text> {
    if s == [] then Some([])
    else if s[0] == NUL then None
    else if s[0] != BACKSLASH then Prepend(s[0], Unescape(s[1..]))
    else if |s| == 1 || Decoded(s[1]).None? then None
    else Prepend(Decoded(s[1]).value, Unescape(s[2..]))
  }

  function Prepend(b: Byte, r: Option<Text>): Option<Text> { if r.None? then None else Some([b] + r.value) }

  predicate NoNul(s: Text) { NUL !in s }

  lemma {:induction false} UnescapeEscaped(s: Text)
    requires NoNul(s)
    ensures Unescape(Escaped(s)) == Some(s)
  {
    if s != [] {
      hide Unescape, Escape;
      UnescapeEscaped(s[1..]);
      UnescapeOne(s[0], Escaped(s[1..]));
      assert [s[0]] + s[1..] == s;
    }
  }

  lemma UnescapeOne(b: Byte, rest: Text)
    requires b != NUL
    ensures Unescape(Escape(b) + rest) == Prepend(b, Unescape(rest))
  {
    var t := Escape(b) + rest;
    if |Escape(b)| == 1 {
      assert t[1..] == rest && t[0] == b;
    } else {
      assert t[2..] == rest && t[0] == BACKSLASH && t[1] == Escape(b)[1];
    }
  }

  predicate OneLine(s: Text) { LF !in s && CR !in s }

  lemma {:induction false} EscapedIsOneLine(s: Text)
    ensures OneLine(Escaped(s)) && SPACE !in Escaped(s) && |Escaped(s)| >= |s|
  {
    if s != [] { EscapedIsOneLine(s[1..]); }
  }

  // ---- Lines ----

  /** Where the first line of s ends. */
  function LineEnd(s: Text): (e: nat)
    ensures e <= |s|
    ensures OneLine(s[..e])
    ensures e < |s| ==> s[e] == LF || s[e] == CR
  {
    if s == [] || s[0] == LF || s[0] == CR then 0
    else
      var e := LineEnd(s[1..]);
      assert s[..1 + e] == [s[0]] + s[1..][..e];
      1 + e
  }

  function EolLength(s: Text, e: nat): nat
    requires e <= |s|
  {
    if e == |s| then 0 else if s[e] == CR && e + 1 < |s| && s[e + 1] == LF then 2 else 1
  }

  /** What comes after the first line and its end; a proper part of s. */
  function After(s: Text): (r: Text)
    requires s != []
    ensures |r| < |s|
  {
    s[LineEnd(s) + EolLength(s, LineEnd(s))..]
  }

  /** is_blank_line, which does not stop at a carriage return. */
  predicate IsBlank(s: Text) {
    s == [] || s[0] == NUL || s[0] == LF || (s[0] in {SPACE, TAB, CR, FF} && IsBlank(s[1..]))
  }

  predicate IsKeyByte(b: Byte) { b == 45 || 48 <= b <= 57 || 65 <= b <= 90 || 97 <= b <= 122 }

  /** How many bytes at the front of s can be in a key. */
  function KeyLength(s: Text): (n: nat)
    ensures n <= |s| && (forall i :: 0 <= i < n ==> IsKeyByte(s[i])) && (n < |s| ==> !IsKeyByte(s[n]))
  {
    if s == [] || !IsKeyByte(s[0]) then 0
    else
      assert forall j :: 1 <= j < |s| ==> s[j] == s[1..][j - 1];
      1 + KeyLength(s[1..])
  }

  function SkipSpaces(s: Text): (n: nat)
    ensures n <= |s| && (forall i :: 0 <= i < n ==> s[i] == SPACE) && (n < |s| ==> s[n] != SPACE)
  {
    if s == [] || s[0] != SPACE then 0
    else
      assert forall j :: 1 <= j < |s| ==> s[j] == s[1..][j - 1];
      1 + SkipSpaces(s[1..])
  }

  /** is_valid_section_name, with its three conditions as they are written. */
  predicate IsSectionByte(b: Byte) { (65 <= b && b <= 90) || (97 <= b || b <= 122) || b == LF || b == TAB }

  predicate IsSectionName(s: Text) { forall i :: 0 <= i < |s| ==> IsSectionByte(s[i]) }

  /** It accepts every name. */
  lemma EverySectionName(s: Text)
    ensures IsSectionName(s)
  {
  }

  /** A line that starts with [. */
  function SectionHeader(line: Text): Result<Text> {
    if |line| <= 2 || line[|line| - 1] != CLOSE then Err(InvalidSyntax)
    else
      var name := Unescape(line[1..|line| - 1]);
      if name.None? then Err(InvalidEscapes)
      else if !IsSectionName(name.value) then Err(InvalidChars)
      else Ok(name.value)
  }

  /** A line with a key; None if it is for some locale, and ignored. */
  function KeyValue(line: Text): Result<Option<Line>> {
    var k := KeyLength(line);
    if k == 0 then Err(InvalidSyntax) else AfterKey(line[..k], line[k..])
  }

  function AfterKey(key: Text, s: Text): Result<Option<Line>> {
    var q := SkipSpaces(s);
    if s != [] && s[0] == OPEN then Ok(None)
    else if q == |s| then Err(InvalidSyntax)
    else if s[q] != EQUALS then Err(InvalidChars)
    else AfterEquals(key, s[q + 1..])
  }

  function AfterEquals(key: Text, s: Text): Result<Option<Line>> {
    var value := Unescape(s[SkipSpaces(s)..]);
    if value.None? then Err(InvalidEscapes) else Ok(Some(Line(key, value.value)))
  }

  function AddLine(secs: seq<Section>, l: Line): seq<Section>
    requires secs != []
  {
    var n := |secs| - 1;
    secs[n := secs[n].(lines := secs[n].lines + [l])]
  }

  /** One line of the load loop. */
  function ParseLine(s: Text, secs: seq<Section>): Result<seq<Section>>
    requires s != []
  {
    var line := s[..LineEnd(s)];
    if s[0] == OPEN then
      var h := SectionHeader(line);
      if h.Err? then Err(h.error) else Ok(secs + [Section(h.value, [])])
    else if IsBlank(s) || s[0] == HASH then Ok(secs)
    else if secs == [] then Err(KeyBeforeSection)
    else
      var kv := KeyValue(line);
      if kv.Err? then Err(kv.error) else if kv.value.None? then Ok(secs) else Ok(AddLine(secs, kv.value.value))
  }

  /** The rest of a file, given the sections read so far. */
  function Parse(s: Text, secs: seq<Section>): Result<seq<Section>>
    decreases |s|
  {
    if s == [] then Ok(secs)
    else
      var r := ParseLine(s, secs);
      if r.Err? then r else Parse(After(s), r.value)
  }

  // ---- Printing ----

  function PrintLine(l: Line): Text { l.key + [EQUALS] + Escaped(l.value) + [LF] }

  function PrintLines(ls: seq<Line>): Text { if ls == [] then [] else PrintLine(ls[0]) + PrintLines(ls[1..]) }

  function PrintHeader(name: Text): Text { [OPEN] + Escaped(name) + [CLOSE, LF] }

  function Print(secs: seq<Section>): Text {
    if secs == [] then [] else PrintHeader(secs[0].name) + PrintLines(secs[0].lines) + Print(secs[1..])
  }

  predicate IsKey(k: Text) { k != [] && forall i :: 0 <= i < |k| ==> IsKeyByte(k[i]) }

  predicate Printable(secs: seq<Section>) {
    forall i | 0 <= i < |secs| ::
      && secs[i].name != [] && NoNul(secs[i].name)
      && forall j | 0 <= j < |secs[i].lines| :: IsKey(secs[i].lines[j].key) && NoNul(secs[i].lines[j].value)
  }

  /** A newline, a carriage return and a newline, or a carriage return alone. */
  predicate IsEol(eol: Text, rest: Text) { eol == [LF] || eol == [CR, LF] || (eol == [CR] && (rest == [] || rest[0] != LF)) }

  lemma FirstLine(line: Text, eol: Text, rest: Text)
    requires OneLine(line) && IsEol(eol, rest)
    ensures var s := line + eol + rest; s != [] && LineEnd(s) == |line| && After(s) == rest && s[..|line|] == line
  {
    var s := line + eol + rest;
    LineEndIs(line, eol, rest);
    hide LineEnd;
    assert s[|line|] == eol[0];
    if eol == [CR] {
      assert |line| + 1 < |s| ==> s[|line| + 1] == rest[0];
    } else if eol == [CR, LF] {
      assert s[|line| + 1] == LF;
    }
    assert s[|line| + |eol|..] == rest;
  }

  lemma {:induction false} LineEndIs(line: Text, eol: Text, rest: Text)
    requires OneLine(line) && IsEol(eol, rest)
    ensures LineEnd(line + eol + rest) == |line|
  {
    var s := line + eol + rest;
    if line != [] {
      LineEndIs(line[1..], eol, rest);
      assert s[1..] == line[1..] + eol + rest;
      assert s[0] == line[0];
    } else {
      assert s[0] == eol[0];
    }
  }

  lemma HeaderParses(name: Text, rest: Text, secs: seq<Section>)
    requires name != [] && NoNul(name)
    ensures var s := PrintHeader(name) + rest; ParseLine(s, secs) == Ok(secs + [Section(name, [])]) && After(s) == rest
  {
    var line := [OPEN] + Escaped(name) + [CLOSE];
    EscapedIsOneLine(name);
    assert PrintHeader(name) + rest == line + [LF] + rest;
    FirstLine(line, [LF], rest);
    UnescapeEscaped(name);
    assert line[1..|line| - 1] == Escaped(name);
  }

  function Spaces(n: nat): Text { seq(n, _ => SPACE) }

  lemma SkipsAll(n: nat, rest: Text)
    requires rest == [] || rest[0] != SPACE
    ensures SkipSpaces(Spaces(n) + rest) == n
  {
    hide SkipSpaces;
    var s := Spaces(n) + rest;
    var k := SkipSpaces(s);
    assert n < |s| ==> s[n] == rest[0];
    assert forall i :: 0 <= i < n ==> s[i] == SPACE;
  }

  /** A line with any number of spaces around the equals sign. */
  function Spaced(l: Line, before: nat, after: nat): Text {
    l.key + (Spaces(before) + ([EQUALS] + (Spaces(after) + Escaped(l.value))))
  }

  lemma KeyEnds(key: Text, rest: Text)
    requires IsKey(key) && (rest == [] || !IsKeyByte(rest[0]))
    ensures KeyLength(key + rest) == |key| && (key + rest)[..|key|] == key && (key + rest)[|key|..] == rest
  {
    hide KeyLength;
    var s := key + rest;
    var k := KeyLength(s);
    assert forall i :: 0 <= i < |key| ==> s[i] == key[i];
    assert |key| < |s| ==> s[|key|] == rest[0];
  }

  lemma KeyParses(l: Line, before: nat, after: nat)
    requires IsKey(l.key) && NoNul(l.value)
    ensures KeyValue(Spaced(l, before, after)) == Ok(Some(l))
  {
    hide KeyLength, AfterKey;
    KeyEnds(l.key, Spaces(before) + ([EQUALS] + (Spaces(after) + Escaped(l.value))));
    EqualsParses(l, before, after);
  }

  lemma EqualsParses(l: Line, before: nat, after: nat)
    requires NoNul(l.value)
    ensures AfterKey(l.key, Spaces(before) + ([EQUALS] + (Spaces(after) + Escaped(l.value)))) == Ok(Some(l))
  {
    hide SkipSpaces, AfterEquals, Escaped;
    var tail := Spaces(after) + Escaped(l.value);
    var s := Spaces(before) + ([EQUALS] + tail);
    SkipsAll(before, [EQUALS] + tail);
    assert s[before + 1..] == tail;
    ValueParses(l, after);
  }

  lemma ValueParses(l: Line, after: nat)
    requires NoNul(l.value)
    ensures AfterEquals(l.key, Spaces(after) + Escaped(l.value)) == Ok(Some(l))
  {
    hide SkipSpaces, Escaped, Unescape;
    var v := Escaped(l.value);
    EscapedIsOneLine(l.value);
    assert v != [] ==> v[0] in v;
    SkipsAll(after, v);
    assert (Spaces(after) + v)[after..] == v;
    UnescapeEscaped(l.value);
  }

  lemma SpacedIsOneLine(l: Line, before: nat, after: nat)
    requires IsKey(l.key)
    ensures OneLine(Spaced(l, before, after)) && Spaced(l, before, after)[0] == l.key[0]
  {
    EscapedIsOneLine(l.value);
  }

  lemma LineParses(l: Line, before: nat, after: nat, eol: Text, rest: Text, secs: seq<Section>)
    requires IsKey(l.key) && NoNul(l.value) && secs != [] && IsEol(eol, rest)
    ensures var s := Spaced(l, before, after) + eol + rest; s != [] && ParseLine(s, secs) == Ok(AddLine(secs, l)) && After(s) == rest
  {
    var line := Spaced(l, before, after);
    SpacedIsOneLine(l, before, after);
    FirstLine(line, eol, rest);
    KeyParses(l, before, after);
    hide LineEnd, After, KeyValue, Spaced;
    assert (line + eol + rest)[0] == l.key[0] && IsKeyByte(l.key[0]);
  }

  /** However it is spaced, and however it ends, a line is read as its key and its value. */
  lemma LaidOutLine(l: Line, before: nat, after: nat, eol: Text, rest: Text, secs: seq<Section>)
    requires IsKey(l.key) && NoNul(l.value) && secs != [] && IsEol(eol, rest)
    ensures Parse(Spaced(l, before, after) + eol + rest, secs) == Parse(rest, AddLine(secs, l))
  {
    hide ParseLine, After, Spaced;
    LineParses(l, before, after, eol, rest, secs);
  }

  /** Comments are skipped. */
  lemma CommentSkipped(text: Text, eol: Text, rest: Text, secs: seq<Section>)
    requires OneLine(text) && IsEol(eol, rest)
    ensures Parse([HASH] + text + eol + rest, secs) == Parse(rest, secs)
  {
    FirstLine([HASH] + text, eol, rest);
    hide LineEnd, After, KeyValue, IsBlank;
    assert ([HASH] + text + eol + rest)[0] == HASH;
  }

  /** A line for some locale is skipped, whatever its value. */
  lemma LocaleSkipped(key: Text, text: Text, eol: Text, rest: Text, secs: seq<Section>)
    requires IsKey(key) && OneLine(text) && IsEol(eol, rest) && secs != []
    ensures Parse(key + ([OPEN] + text) + eol + rest, secs) == Parse(rest, secs)
  {
    var line := key + ([OPEN] + text);
    KeyEnds(key, [OPEN] + text);
    assert OneLine(line);
    FirstLine(line, eol, rest);
    hide LineEnd, After, KeyLength;
    assert line[|key|] == OPEN;
    assert (line + eol + rest)[0] == key[0] && IsKeyByte(key[0]);
  }

  lemma HeaderStep(name: Text, rest: Text, secs: seq<Section>)
    requires name != [] && NoNul(name)
    ensures Parse(PrintHeader(name) + rest, secs) == Parse(rest, secs + [Section(name, [])])
  {
    hide ParseLine, After;
    HeaderParses(name, rest, secs);
  }

  lemma LineStep(l: Line, rest: Text, secs: seq<Section>)
    requires IsKey(l.key) && NoNul(l.value) && secs != []
    ensures Parse(PrintLine(l) + rest, secs) == Parse(rest, AddLine(secs, l))
  {
    assert Spaces(0) == [] && PrintLine(l) == Spaced(l, 0, 0) + [LF];
    hide Parse, PrintLine, Spaced;
    LaidOutLine(l, 0, 0, [LF], rest, secs);
  }

  function AddLines(secs: seq<Section>, ls: seq<Line>): seq<Section>
    requires secs != []
  {
    var n := |secs| - 1;
    secs[n := secs[n].(lines := secs[n].lines + ls)]
  }

  lemma AddLinesNone(secs: seq<Section>)
    requires secs != []
    ensures AddLines(secs, []) == secs
  {
    assert secs[|secs| - 1].lines + [] == secs[|secs| - 1].lines;
  }

  lemma AddLinesOne(secs: seq<Section>, ls: seq<Line>)
    requires secs != [] && ls != []
    ensures AddLines(AddLine(secs, ls[0]), ls[1..]) == AddLines(secs, ls)
  {
    assert secs[|secs| - 1].lines + [ls[0]] + ls[1..] == secs[|secs| - 1].lines + ls;
  }

  lemma PrintLinesOne(ls: seq<Line>, rest: Text)
    requires ls != []
    ensures PrintLines(ls) + rest == PrintLine(ls[0]) + (PrintLines(ls[1..]) + rest)
  {
    hide PrintLine;
  }

  lemma {:induction false} LinesParse(ls: seq<Line>, rest: Text, secs: seq<Section>)
    requires secs != [] && forall j | 0 <= j < |ls| :: IsKey(ls[j].key) && NoNul(ls[j].value)
    ensures Parse(PrintLines(ls) + rest, secs) == Parse(rest, AddLines(secs, ls))
  {
    if ls == [] {
      assert PrintLines(ls) + rest == rest;
      AddLinesNone(secs);
    } else {
      hide Parse, PrintLine, PrintLines, AddLines, IsKey, NoNul;
      PrintLinesOne(ls, rest);
      LineStep(ls[0], PrintLines(ls[1..]) + rest, secs);
      LinesParse(ls[1..], rest, AddLine(secs, ls[0]));
      AddLinesOne(secs, ls);
    }
  }

  lemma PrintOne(secs: seq<Section>)
    requires secs != []
    ensures Print(secs) == PrintHeader(secs[0].name) + (PrintLines(secs[0].lines) + Print(secs[1..]))
  {
    hide PrintHeader, PrintLines;
  }

  lemma SectionStep(x: Section, rest: Text, before: seq<Section>)
    requires Printable([x])
    ensures Parse(PrintHeader(x.name) + (PrintLines(x.lines) + rest), before) == Parse(rest, before + [x])
  {
    hide Parse, PrintHeader, PrintLines;
    assert [x][0] == x;
    var begun := before + [Section(x.name, [])];
    HeaderStep(x.name, PrintLines(x.lines) + rest, before);
    LinesParse(x.lines, rest, begun);
    assert [] + x.lines == x.lines;
    assert AddLines(begun, x.lines) == before + [x];
  }

  lemma PrintableParts(secs: seq<Section>)
    requires Printable(secs) && secs != []
    ensures Printable(secs[1..]) && Printable([secs[0]])
  {
  }

  /** Reading back what was printed gives the same sections, in the same order. */
  lemma {:induction false} RoundTrip(secs: seq<Section>, before: seq<Section>)
    requires Printable(secs)
    ensures Parse(Print(secs), before) == Ok(before + secs)
  {
    hide Parse, Print, PrintHeader, PrintLines, Printable;
    if secs == [] {
      PrintNothing();
      ParseNothing(before);
      assert before + secs == before;
    } else {
      PrintableParts(secs);
      PrintOne(secs);
      SectionStep(secs[0], Print(secs[1..]), before);
      RoundTrip(secs[1..], before + [secs[0]]);
      Regroup(before, secs);
    }
  }

  lemma PrintNothing()
    ensures Print([]) == []
  {
  }

  lemma Regroup(before: seq<Section>, secs: seq<Section>)
    requires secs != []
    ensures before + [secs[0]] + secs[1..] == before + secs
  {
  }

  // ---- Blank lines ----

  /**
   A blank line that ends with a carriage return alone is skipped exactly if the text after it,
   up to the next newline, is blank as well; otherwise the file is rejected.
   */
  lemma LoneCarriageReturn(s: Text, secs: seq<Section>)
    requires s == [] || s[0] != LF
    ensures IsBlank(s) ==> Parse([CR] + s, secs) == Parse(s, secs)
    ensures !IsBlank(s) ==> Parse([CR] + s, secs).Err?
  {
    var t := [CR] + s;
    assert t[1..] == s;
    assert LineEnd(t) == 0;
    if IsBlank(s) {
      assert After(t) == s;
      assert ParseLine(t, secs) == Ok(secs);
    } else {
      assert t[..0] == [];
      assert KeyLength([]) == 0;
      assert ParseLine(t, secs).Err?;
    }
  }

  /** So a blank line between a header and a line is fine if it is a newline, and is not if it is a carriage return. */
  lemma BlankLineRejected(name: Text, l: Line)
    requires name != [] && NoNul(name) && IsKey(l.key) && NoNul(l.value)
    ensures Parse(PrintHeader(name) + ([LF] + PrintLine(l)), []) == Ok([Section(name, [l])])
    ensures Parse(PrintHeader(name) + ([CR] + PrintLine(l)), []).Err?
  {
    var secs, kv := [Section(name, [])], PrintLine(l);
    KeyNotBlank(l);
    hide Parse, PrintLine, PrintHeader, IsBlank;
    HeaderStep(name, [CR] + kv, []);
    HeaderStep(name, [LF] + kv, []);
    assert [] + secs == secs;
    LoneCarriageReturn(kv, secs);
    NewlineSkipped(kv, secs);
    LineStep(l, [], secs);
    assert kv + [] == kv;
    FirstOfSection(name, l);
    ParseNothing([Section(name, [l])]);
  }

  lemma FirstOfSection(name: Text, l: Line)
    ensures AddLine([Section(name, [])], l) == [Section(name, [l])]
  {
    assert [] + [l] == [l];
  }

  lemma ParseNothing(secs: seq<Section>)
    ensures Parse([], secs) == Ok(secs)
  {
  }

  lemma KeyNotBlank(l: Line)
    requires IsKey(l.key)
    ensures var s := PrintLine(l); s != [] && s[0] != LF && !IsBlank(s)
  {
    assert PrintLine(l)[0] == l.key[0] && IsKeyByte(l.key[0]);
  }

  lemma NewlineSkipped(s: Text, secs: seq<Section>)
    ensures Parse([LF] + s, secs) == Parse(s, secs)
  {
    FirstLine([], [LF], s);
    assert [] + [LF] + s == [LF] + s;
  }
}
