/**
 Service files byte by byte: which bytes stand for which, which bytes a key is made of, and which
 lines are errors, in the numbers of the bytes themselves.
*/
module DesktopMeaning {
  import opened BusTypes
  import opened DesktopFile

  // ---- Escapes ----

  /** Backslash s, t, n, r and backslash stand for a space, a tab, a newline, a carriage return and a backslash. */
  function Meaning(code: int): Option<int> {
    match code
    case 115 => Some(32)
    case 116 => Some(9)
    case 110 => Some(10)
    case 114 => Some(13)
    case 92 => Some(92)
    case _ => None
  }

  /** The text s is read as r: every byte as itself, but a backslash and the byte after it as what they stand for; and there is no NUL. */
  predicate ReadAs(s: Text, r: Text) {
    if s == [] then r == []
    else if s[0] == 0 then false
    else if s[0] == 92 then |s| > 1 && r != [] && Meaning(s[1]) == Some(r[0]) && ReadAs(s[2..], r[1..])
    else r != [] && r[0] == s[0] && ReadAs(s[1..], r[1..])
  }

  ghost predicate Unreadable(s: Text) { forall r: Text :: !ReadAs(s, r) }

  /** Unescaping gives what the text is read as, if there is such a thing. */
  lemma {:induction false} UnescapeIff(s: Text, r: Text)
    ensures Unescape(s) == Some(r) <==> ReadAs(s, r)
    decreases |s|
  {
    if s != [] {
      if s[0] == 92 {
        if |s| > 1 && r != [] { UnescapeIff(s[2..], r[1..]); }
        if |s| > 1 && Unescape(s[2..]).Some? && Decoded(s[1]).Some? { Consed(Decoded(s[1]).value, Unescape(s[2..]).value, r); }
      } else {
        if r != [] { UnescapeIff(s[1..], r[1..]); }
        if Unescape(s[1..]).Some? { Consed(s[0], Unescape(s[1..]).value, r); }
      }
    }
  }

  lemma Consed(b: Byte, rest: Text, r: Text)
    ensures [b] + rest == r <==> r != [] && r[0] == b && r[1..] == rest
  {
    if r != [] && r[0] == b && r[1..] == rest { assert r == [b] + rest; }
  }

  // ---- Lines ----

  /** A letter, a digit or a minus sign. */
  predicate InKey(b: int) { b == 45 || 48 <= b <= 57 || 65 <= b <= 90 || 97 <= b <= 122 }

  predicate KeyOnly(s: Text) { forall i | 0 <= i < |s| :: InKey(s[i]) }

  lemma InKeyIff(b: Byte)
    ensures IsKeyByte(b) <==> InKey(b)
  {
  }

  predicate NoBreak(s: Text) { 10 !in s && 13 !in s }

  /** A line and its newline, with the rest of the file after it. */
  function Before(line: Text, rest: Text): Text { line + [10] + rest }

  lemma OneLineFirst(line: Text, rest: Text)
    requires NoBreak(line)
    ensures var s := Before(line, rest); s != [] && LineEnd(s) == |line| && s[..|line|] == line && After(s) == rest
  {
    FirstLine(line, [10], rest);
  }

  /** A line ends before a newline, a carriage return with a newline, a carriage return alone, or at the end of the file. */
  lemma EndsOfLine(line: Text, rest: Text)
    requires NoBreak(line)
    ensures var s := line + [10] + rest; LineEnd(s) == |line| && After(s) == rest
    ensures var s := line + [13, 10] + rest; LineEnd(s) == |line| && After(s) == rest
    ensures rest == [] || rest[0] != 10 ==> var s := line + [13] + rest; LineEnd(s) == |line| && After(s) == rest
    ensures line != [] ==> LineEnd(line) == |line| && After(line) == []
  {
    FirstLine(line, [10], rest);
    FirstLine(line, [13, 10], rest);
    if rest == [] || rest[0] != 10 { FirstLine(line, [13], rest); }
    if line != [] { WholeLine(line); }
  }

  lemma {:induction false} WholeLine(line: Text)
    requires NoBreak(line)
    ensures LineEnd(line) == |line|
  {
    if line != [] { WholeLine(line[1..]); }
  }

  /**
   A line that begins with an opening bracket: it starts a section if it ends with a closing one,
   has something in between, and that can be read; otherwise the file is rejected.
   */
  lemma HeaderLine(line: Text, rest: Text, secs: seq<Section>, name: Text)
    requires NoBreak(line) && line != [] && line[0] == 91
    ensures |line| <= 2 || line[|line| - 1] != 93 ==> Parse(Before(line, rest), secs) == Err(InvalidSyntax)
    ensures |line| > 2 && line[|line| - 1] == 93 && ReadAs(line[1..|line| - 1], name) ==>
              Parse(Before(line, rest), secs) == Parse(rest, secs + [Section(name, [])])
    ensures |line| > 2 && line[|line| - 1] == 93 && Unreadable(line[1..|line| - 1]) ==>
              Parse(Before(line, rest), secs) == Err(InvalidEscapes)
  {
    hide Unescape, ReadAs;
    OneLineFirst(line, rest);
    assert Before(line, rest)[0] == line[0];
    hide LineEnd, After, IsBlank, KeyValue;
    if |line| > 2 {
      var u := Unescape(line[1..|line| - 1]);
      UnescapeIff(line[1..|line| - 1], name);
      if u.Some? {
        UnescapeIff(line[1..|line| - 1], u.value);
        EverySectionName(u.value);
      }
    }
  }

  /** A line that begins with none of the special bytes, and is neither blank nor a comment, has to be in a section. */
  lemma KeyNeedsSection(line: Text, rest: Text)
    requires NoBreak(line) && line != [] && line[0] !in {0, 9, 12, 32, 35, 91}
    ensures Parse(Before(line, rest), []) == Err(KeyBeforeSection)
  {
    OneLineFirst(line, rest);
    assert Before(line, rest)[0] == line[0] && line[0] != 10 && line[0] != 13;
    hide LineEnd, After, KeyValue;
  }

  /** A line whose first byte cannot be in a key is an error. */
  lemma NoKey(line: Text, rest: Text, secs: seq<Section>)
    requires NoBreak(line) && line != [] && line[0] !in {0, 9, 12, 32, 35, 91} && !InKey(line[0]) && secs != []
    ensures Parse(Before(line, rest), secs) == Err(InvalidSyntax)
  {
    OneLineFirst(line, rest);
    InKeyIff(line[0]);
    assert Before(line, rest)[0] == line[0] && line[0] != 10 && line[0] != 13;
    hide LineEnd, After;
  }

  lemma KeyAlone(key: Text)
    requires key != [] && KeyOnly(key)
    ensures IsKey(key) && NoBreak(key)
  {
    forall i | 0 <= i < |key| ensures IsKeyByte(key[i]) && key[i] != 10 && key[i] != 13 { InKeyIff(key[i]); }
  }

  lemma KeyThen(key: Text, tail: Text, rest: Text, secs: seq<Section>)
    requires key != [] && KeyOnly(key) && NoBreak(tail) && (tail == [] || !InKey(tail[0])) && secs != []
    ensures var kv := AfterKey(key, tail);
            Parse(Before(key + tail, rest), secs) ==
            if kv.Err? then Err(kv.error) else Parse(rest, if kv.value.None? then secs else AddLine(secs, kv.value.value))
  {
    KeyAlone(key);
    if tail != [] { InKeyIff(tail[0]); }
    KeyEnds(key, tail);
    assert NoBreak(key + tail);
    OneLineFirst(key + tail, rest);
    assert Before(key + tail, rest)[0] == key[0] && IsKeyByte(key[0]);
    hide LineEnd, After, KeyLength, AfterKey;
  }

  predicate Blanks(s: Text) { forall i | 0 <= i < |s| :: s[i] == 32 }

  /** Spaces come before what they come before. */
  lemma SpacesThen(blanks: Text, tail: Text)
    requires Blanks(blanks) && (tail == [] || tail[0] != 32)
    ensures SkipSpaces(blanks + tail) == |blanks| && (blanks + tail)[|blanks|..] == tail
  {
    hide SkipSpaces;
    var s := blanks + tail;
    var k := SkipSpaces(s);
    assert |blanks| < |s| ==> s[|blanks|] == tail[0];
    assert forall i | 0 <= i < |blanks| :: s[i] == 32;
  }

  /** A key and nothing but spaces after it is an error. */
  lemma NoEqualsSign(key: Text, blanks: Text, rest: Text, secs: seq<Section>)
    requires key != [] && KeyOnly(key) && Blanks(blanks) && secs != []
    ensures Parse(Before(key + blanks, rest), secs) == Err(InvalidSyntax)
  {
    KeyThen(key, blanks, rest, secs);
    SpacesThen(blanks, []);
    assert blanks + [] == blanks;
    hide SkipSpaces, Parse;
  }

  /** So is anything but an equals sign after the key and its spaces, except for a bracket right after the key. */
  lemma NotAnEqualsSign(key: Text, blanks: Text, b: Byte, tail: Text, rest: Text, secs: seq<Section>)
    requires key != [] && KeyOnly(key) && Blanks(blanks) && NoBreak([b] + tail) && b != 32 && b != 61 && secs != []
    requires blanks == [] ==> !InKey(b) && b != 91
    ensures Parse(Before(key + (blanks + ([b] + tail)), rest), secs) == Err(InvalidChars)
  {
    var t := blanks + ([b] + tail);
    assert blanks != [] ==> t[0] == blanks[0];
    assert blanks == [] ==> t[0] == b;
    assert NoBreak(t);
    KeyThen(key, t, rest, secs);
    SpacesThen(blanks, [b] + tail);
    assert t[|blanks|] == b;
    hide SkipSpaces, Parse;
  }

  /** After the equals sign and its spaces comes the value, if it can be read. */
  lemma ValueLine(key: Text, blanks: Text, more: Text, value: Text, rest: Text, secs: seq<Section>, r: Text)
    requires key != [] && KeyOnly(key) && Blanks(blanks) && Blanks(more) && NoBreak(value) && (value == [] || value[0] != 32) && secs != []
    ensures var line := key + (blanks + ([61] + (more + value)));
            && (ReadAs(value, r) ==>
                  var n := |secs| - 1;
                  Parse(Before(line, rest), secs) == Parse(rest, secs[..n] + [Section(secs[n].name, secs[n].lines + [Line(key, r)])]))
            && (Unreadable(value) ==> Parse(Before(line, rest), secs) == Err(InvalidEscapes))
  {
    hide ReadAs, Unescape, Parse, AfterKey, NoBreak, Blanks;
    var t := blanks + ([61] + (more + value));
    EqualsLine(key, blanks, more, value, r);
    KeyThen(key, t, rest, secs);
    if ReadAs(value, r) {
      var n := |secs| - 1;
      assert AddLine(secs, Line(key, r)) == secs[..n] + [Section(secs[n].name, secs[n].lines + [Line(key, r)])];
    }
  }

  lemma EqualsLine(key: Text, blanks: Text, more: Text, value: Text, r: Text)
    requires Blanks(blanks) && Blanks(more) && NoBreak(value) && (value == [] || value[0] != 32)
    ensures var t := blanks + ([61] + (more + value));
            && t != [] && !InKey(t[0]) && NoBreak(t)
            && (ReadAs(value, r) ==> AfterKey(key, t) == Ok(Some(Line(key, r))))
            && (Unreadable(value) ==> AfterKey(key, t) == Err(InvalidEscapes))
  {
    hide ReadAs, Unescape, SkipSpaces;
    var t := blanks + ([61] + (more + value));
    assert t[0] == if blanks != [] then blanks[0] else 61;
    assert NoBreak(more + value) && NoBreak(t);
    SpacesThen(blanks, [61] + (more + value));
    SpacesThen(more, value);
    assert t[|blanks|] == 61 && t[|blanks| + 1..] == more + value;
    UnescapeIff(value, r);
    var u := Unescape(value);
    if u.Some? { UnescapeIff(value, u.value); }
  }

  /** A bracket right after the key: the line is for some locale, and is skipped. */
  lemma BracketLine(key: Text, tail: Text, rest: Text, secs: seq<Section>)
    requires key != [] && KeyOnly(key) && NoBreak(tail) && secs != []
    ensures Parse(Before(key + ([91] + tail), rest), secs) == Parse(rest, secs)
  {
    assert NoBreak([91] + tail);
    KeyThen(key, [91] + tail, rest, secs);
    hide SkipSpaces, Parse;
  }

  lemma {:induction false} BlankLine(line: Text, rest: Text)
    requires forall i | 0 <= i < |line| :: line[i] in {32, 9, 12}
    ensures IsBlank(Before(line, rest))
  {
    var s := Before(line, rest);
    if line != [] {
      BlankLine(line[1..], rest);
      assert s[1..] == Before(line[1..], rest) && s[0] == line[0];
    } else {
      assert s[0] == 10;
    }
  }

  /** Lines of blanks, and lines that begin with a hash sign, are skipped. */
  lemma Skipped(line: Text, rest: Text, secs: seq<Section>)
    requires NoBreak(line) && ((forall i | 0 <= i < |line| :: line[i] in {32, 9, 12}) || line[0] == 35)
    ensures Parse(Before(line, rest), secs) == Parse(rest, secs)
  {
    OneLineFirst(line, rest);
    if forall i | 0 <= i < |line| :: line[i] in {32, 9, 12} { BlankLine(line, rest); }
    assert Before(line, rest)[0] == if line == [] then 10 else line[0];
    hide LineEnd, After, KeyValue, IsBlank;
  }
}
