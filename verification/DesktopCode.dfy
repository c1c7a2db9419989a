/** The service-file parser as it runs: a position that moves, a buffer that is filled, arrays that grow. */
module DesktopCode {
  import opened BusTypes
  import opened DesktopFile

  /** A section with the size of its array of lines. */
  datatype Room = Room(section: Section, allocatedLines: nat)

  function Sections(rooms: seq<Room>): seq<Section> { seq(|rooms|, i requires 0 <= i < |rooms| => rooms[i].section) }

  function Doubled(n: nat): nat { if n == 0 then 1 else n * 2 }

  /**
   unescape_string: the text between pos and end, written byte by byte into a buffer of one byte
   more than its length.
   */
  method UnescapeString(enough: bool, data: Text, start: nat, end: nat) returns (r: Result<Text>)
    requires start <= end <= |data|
    ensures r.Ok? ==> Unescape(data[start..end]) == Some(r.value)
    ensures r.Err? ==> (r.error == OutOfMemory && !enough) || (r.error == InvalidEscapes && Unescape(data[start..end]).None?)
    ensures r.Ok? ==> |r.value| <= end - start
  {
    var full := Exhausted(enough);
    if full {
      return Err(OutOfMemory);
    }
    var buffer := new Byte[end - start + 1];
    var q, pos := 0, start;
    assert buffer[..0] == [];
    JoinNothing(Unescape(data[start..end]));
    while pos < end
      invariant start <= pos <= end && 0 <= q <= pos - start
      invariant Unescape(data[start..end]) == Join(buffer[..q], Unescape(data[pos..end]))
    {
      ghost var done, rest := buffer[..q], data[pos..end];
      if data[pos] == NUL {
        return Err(InvalidEscapes);
      }
      var b := data[pos];
      if b == BACKSLASH {
        pos := pos + 1;
        if pos >= end {
          return Err(InvalidEscapes);
        }
        assert rest[1] == data[pos];
        var code := Decoded(data[pos]);
        if code.None? {
          return Err(InvalidEscapes);
        }
        b := code.value;
        assert rest[2..] == data[pos + 1..end];
      } else {
        assert rest[1..] == data[pos + 1..end];
      }
      buffer[q] := b;
      assert buffer[..q + 1] == done + [b];
      JoinPrepend(done, b, Unescape(data[pos + 1..end]));
      q, pos := q + 1, pos + 1;
    }
    assert data[pos..end] == [] && buffer[..q] + [] == buffer[..q];
    buffer[q] := NUL;
    return Ok(buffer[..q]);
  }

  function Join(done: Text, rest: Option<Text>): Option<Text> { if rest.None? then None else Some(done + rest.value) }

  lemma JoinNothing(rest: Option<Text>)
    ensures Join([], rest) == rest
  {
    if rest.Some? { assert [] + rest.value == rest.value; }
  }

  lemma JoinPrepend(done: Text, b: Byte, rest: Option<Text>)
    ensures Join(done, Prepend(b, rest)) == Join(done + [b], rest)
  {
    if rest.Some? { assert done + ([b] + rest.value) == done + [b] + rest.value; }
  }

  /** _dbus_string_find_eol */
  method FindEol(data: Text, start: nat) returns (lineEnd: nat, eolLength: nat)
    requires start <= |data|
    ensures lineEnd == start + LineEnd(data[start..]) && lineEnd <= |data|
    ensures eolLength == EolLength(data[start..], LineEnd(data[start..]))
  {
    lineEnd := start;
    while lineEnd < |data|
      invariant start <= lineEnd <= |data|
      invariant LineEnd(data[start..]) == lineEnd - start + LineEnd(data[lineEnd..])
    {
      assert data[lineEnd..][1..] == data[lineEnd + 1..];
      if data[lineEnd] == CR {
        if lineEnd + 1 < |data| && data[lineEnd + 1] == LF {
          return lineEnd, 2;
        }
        return lineEnd, 1;
      }
      if data[lineEnd] == LF {
        return lineEnd, 1;
      }
      lineEnd := lineEnd + 1;
    }
    eolLength := 0;
  }

  method IsBlankLine(data: Text, start: nat) returns (blank: bool)
    requires start <= |data|
    ensures blank == IsBlank(data[start..])
  {
    var p := start;
    while p < |data| && data[p] != NUL && data[p] != LF
      invariant start <= p <= |data| && IsBlank(data[start..]) == IsBlank(data[p..])
    {
      assert data[p..][1..] == data[p + 1..];
      if !(data[p] == SPACE || data[p] == TAB || data[p] == CR || data[p] == FF) {
        return false;
      }
      p := p + 1;
    }
    return true;
  }

  lemma Inside(data: Text, start: nat, end: nat)
    requires start + 2 < end <= |data|
    ensures data[start..end][1..end - start - 1] == data[start + 1..end - 1]
  {
    var a, b := data[start..end][1..end - start - 1], data[start + 1..end - 1];
    assert |a| == |b| && forall k | 0 <= k < |a| :: a[k] == b[k] == data[start + 1 + k];
  }

  /** What a line that starts a section comes to. */
  lemma SectionLine(data: Text, pos: nat, secs: seq<Section>)
    requires pos < |data| && data[pos] == OPEN
    ensures var end := pos + LineEnd(data[pos..]);
            if end - pos <= 2 || data[end - 1] != CLOSE then ParseLine(data[pos..], secs) == Err(InvalidSyntax)
            else
              var name := Unescape(data[pos + 1..end - 1]);
              ParseLine(data[pos..], secs) == if name.None? then Err(InvalidEscapes) else Ok(secs + [Section(name.value, [])])
  {
    hide LineEnd, Unescape;
    var end := pos + LineEnd(data[pos..]);
    var line := data[pos..end];
    assert data[pos..][..end - pos] == line;
    if end - pos > 2 && data[end - 1] == CLOSE {
      Inside(data, pos, end);
      var name := Unescape(data[pos + 1..end - 1]);
      if name.Some? { EverySectionName(name.value); }
    }
  }

  /** An array with room for n, which was doubled no more often than needed. */
  predicate Fits(n: nat, room: nat) { n <= room <= (if n == 0 then 1 else 2 * n) }

  class Parser {
    const enough: bool   // no allocation fails
    const data: Text
    var pos: nat
    var lineNum: nat
    var rooms: seq<Room>          // the sections, the last of which is the current one
    var allocatedSections: nat

    ghost predicate Valid()
      reads this
    {
      && pos <= |data|
      && Fits(|rooms|, allocatedSections)
      && forall i | 0 <= i < |rooms| :: Fits(|rooms[i].section.lines|, rooms[i].allocatedLines)
    }

    /** What is left, and what the whole file comes to from here. */
    ghost function Outcome(): Result<seq<Section>>
      requires Valid()
      reads this
    {
      Parse(data[pos..], Sections(rooms))
    }

    constructor (enough: bool, data: Text)
      ensures Valid() && this.enough == enough && this.data == data && pos == 0 && rooms == []
    {
      this.enough, this.data, pos, lineNum, rooms, allocatedSections := enough, data, 0, 1, [], 0;
    }

    method NewSection(name: Text) returns (ok: bool)
      requires Valid()
      modifies `rooms, `allocatedSections
      ensures Valid() && (enough ==> ok)
      ensures Sections(rooms) == if ok then Sections(old(rooms)) + [Section(name, [])] else Sections(old(rooms))
    {
      if allocatedSections == |rooms| {
        var full := Exhausted(enough);
        if full {
          return false;
        }
        allocatedSections := Doubled(allocatedSections);
      }
      var failed := Exhausted(enough);
      if failed {
        return false;
      }
      rooms := rooms + [Room(Section(name, []), Doubled(0))];
      return true;
    }

    method NewLine(l: Line) returns (ok: bool)
      requires Valid() && rooms != []
      modifies `rooms
      ensures Valid() && rooms != [] && (enough ==> ok)
      ensures Sections(rooms) == if ok then AddLine(Sections(old(rooms)), l) else Sections(old(rooms))
    {
      var n := |rooms| - 1;
      var room := rooms[n];
      if room.allocatedLines == |room.section.lines| {
        var full := Exhausted(enough);
        if full {
          return false;
        }
        room := room.(allocatedLines := Doubled(room.allocatedLines));
      }
      room := room.(section := room.section.(lines := room.section.lines + [l]));
      rooms := rooms[n := room];
      return true;
    }

    /** Past the line that ends at lineEnd; always further than before. */
    method Advance(lineEnd: nat, eolLength: nat)
      requires pos < |data| && lineEnd == pos + LineEnd(data[pos..]) && eolLength == EolLength(data[pos..], LineEnd(data[pos..]))
      modifies `pos, `lineNum
      ensures old(pos) < pos <= |data| && data[pos..] == After(data[old(pos)..])
    {
      ghost var s := data[pos..];
      assert |After(s)| < |s|;
      if lineEnd == |data| {
        pos := |data|;
      } else {
        pos := lineEnd + eolLength;
      }
      lineNum := lineNum + 1;
    }

    /** parse_comment_or_blank */
    method SkipLine()
      requires Valid() && pos < |data|
      modifies `pos, `lineNum
      ensures Valid() && old(pos) < pos && data[pos..] == After(data[old(pos)..])
    {
      var lineEnd, eolLength := FindEol(data, pos);
      Advance(lineEnd, eolLength);
    }

    method ParseSectionStart() returns (r: Result<()>)
      requires Valid() && pos < |data| && data[pos] == OPEN
      modifies this
      ensures Valid()
      ensures r.Ok? ==> old(pos) < pos && data[pos..] == After(data[old(pos)..]) && ParseLine(data[old(pos)..], Sections(old(rooms))) == Ok(Sections(rooms))
      ensures r.Err? ==> (r.error == OutOfMemory && !enough) || ParseLine(data[old(pos)..], Sections(old(rooms))) == Err(r.error)
    {
      hide LineEnd, After, EolLength, Unescape, ParseLine, Sections;
      var lineEnd, eolLength := FindEol(data, pos);
      SectionLine(data, pos, Sections(rooms));
      if lineEnd - pos <= 2 || data[lineEnd - 1] != CLOSE {
        return Err(InvalidSyntax);
      }
      var name := UnescapeString(enough, data, pos + 1, lineEnd - 1);
      if name.Err? {
        return Err(name.error);
      }
      var ok := NewSection(name.value);
      if !ok {
        return Err(OutOfMemory);
      }
      Advance(lineEnd, eolLength);
      return Ok(());
    }

    /** Where the key of the line at pos ends. */
    method ScanKey(lineEnd: nat) returns (p: nat)
      requires pos <= lineEnd <= |data|
      ensures p == pos + KeyLength(data[pos..lineEnd])
    {
      p := pos;
      assert data[pos..lineEnd] == data[p..lineEnd];
      while p < lineEnd && IsKeyByte(data[p])
        invariant pos <= p <= lineEnd && KeyLength(data[pos..lineEnd]) == p - pos + KeyLength(data[p..lineEnd])
      {
        assert data[p..lineEnd][1..] == data[p + 1..lineEnd];
        p := p + 1;
      }
    }

    method ScanSpaces(start: nat, lineEnd: nat) returns (p: nat)
      requires start <= lineEnd <= |data|
      ensures p == start + SkipSpaces(data[start..lineEnd])
    {
      p := start;
      while p < lineEnd && data[p] == SPACE
        invariant start <= p <= lineEnd && SkipSpaces(data[start..lineEnd]) == p - start + SkipSpaces(data[p..lineEnd])
      {
        assert data[p..lineEnd][1..] == data[p + 1..lineEnd];
        p := p + 1;
      }
    }

    /** The key and the value of the line between pos and lineEnd. */
    method ReadKeyValue(lineEnd: nat) returns (r: Result<Option<Line>>)
      requires pos <= lineEnd <= |data|
      ensures r.Ok? ==> KeyValue(data[pos..lineEnd]) == r
      ensures r.Err? ==> (r.error == OutOfMemory && !enough) || KeyValue(data[pos..lineEnd]) == r
    {
      hide KeyLength, SkipSpaces, AfterEquals;
      ghost var line := data[pos..lineEnd];
      var keyEnd := ScanKey(lineEnd);
      ghost var k := keyEnd - pos;
      if keyEnd == pos {
        return Err(InvalidSyntax);
      }
      assert line[..k] == data[pos..keyEnd] && line[k..] == data[keyEnd..lineEnd];
      if keyEnd < lineEnd && data[keyEnd] == OPEN {
        return Ok(None);
      }
      var p := ScanSpaces(keyEnd, lineEnd);
      if p < lineEnd && data[p] != EQUALS {
        return Err(InvalidChars);
      }
      if p == lineEnd {
        return Err(InvalidSyntax);
      }
      assert data[keyEnd..lineEnd][p - keyEnd + 1..] == data[p + 1..lineEnd];
      r := ReadValue(data[pos..keyEnd], p + 1, lineEnd);
    }

    /** What comes after the equals sign. */
    method ReadValue(key: Text, start: nat, lineEnd: nat) returns (r: Result<Option<Line>>)
      requires start <= lineEnd <= |data|
      ensures r.Ok? ==> AfterEquals(key, data[start..lineEnd]) == r
      ensures r.Err? ==> (r.error == OutOfMemory && !enough) || AfterEquals(key, data[start..lineEnd]) == r
    {
      var valueStart := ScanSpaces(start, lineEnd);
      assert data[start..lineEnd][valueStart - start..] == data[valueStart..lineEnd];
      var value := UnescapeString(enough, data, valueStart, lineEnd);
      if value.Err? {
        return Err(value.error);
      }
      return Ok(Some(Line(key, value.value)));
    }

    method ParseKeyValue() returns (r: Result<()>)
      requires Valid() && pos < |data| && data[pos] != OPEN && data[pos] != HASH && !IsBlank(data[pos..]) && rooms != []
      modifies this
      ensures Valid()
      ensures r.Ok? ==> old(pos) < pos && data[pos..] == After(data[old(pos)..]) && ParseLine(data[old(pos)..], Sections(old(rooms))) == Ok(Sections(rooms))
      ensures r.Err? ==> (r.error == OutOfMemory && !enough) || ParseLine(data[old(pos)..], Sections(old(rooms))) == Err(r.error)
    {
      hide LineEnd, After, EolLength, KeyValue, IsBlank;
      ghost var s := data[pos..];
      var lineEnd, eolLength := FindEol(data, pos);
      assert s[..LineEnd(s)] == data[pos..lineEnd];
      var kv := ReadKeyValue(lineEnd);
      if kv.Err? {
        return Err(kv.error);
      }
      if kv.value.Some? {
        var ok := NewLine(kv.value.value);
        if !ok {
          return Err(OutOfMemory);
        }
      }
      Advance(lineEnd, eolLength);
      return Ok(());
    }

    /** One turn of the load loop. */
    method ParseNext() returns (r: Result<()>)
      requires Valid() && pos < |data|
      modifies this
      ensures Valid()
      ensures r.Ok? ==> old(pos) < pos && data[pos..] == After(data[old(pos)..]) && ParseLine(data[old(pos)..], Sections(old(rooms))) == Ok(Sections(rooms))
      ensures r.Err? ==> (r.error == OutOfMemory && !enough) || ParseLine(data[old(pos)..], Sections(old(rooms))) == Err(r.error)
    {
      hide LineEnd, After, KeyValue, SectionHeader, IsBlank;
      assert data[pos..][0] == data[pos];
      if data[pos] == OPEN {
        r := ParseSectionStart();
        return;
      }
      var blank := IsBlankLine(data, pos);
      if blank || data[pos] == HASH {
        SkipLine();
        return Ok(());
      }
      if |rooms| == 0 {
        assert Sections(rooms) == [];
        return Err(KeyBeforeSection);
      }
      r := ParseKeyValue();
    }

    /** The loop ends, with every turn further on in the file, and finds what the grammar says. */
    method Load() returns (r: Result<seq<Section>>)
      requires Valid() && pos == 0 && rooms == []
      modifies this
      ensures Valid()
      ensures r.Ok? ==> Parse(data, []) == r
      ensures r.Err? ==> (r.error == OutOfMemory && !enough) || Parse(data, []) == r
    {
      hide ParseLine, After, Sections;
      assert data[0..] == data;
      assert Sections(rooms) == [] by { NoSections(); }
      while pos < |data|
        invariant Valid() && Parse(data, []) == Parse(data[pos..], Sections(rooms))
        decreases |data| - pos
      {
        var turn := ParseNext();
        if turn.Err? {
          return Err(turn.error);
        }
      }
      assert data[pos..] == [];
      return Ok(Sections(rooms));
    }
  }

  lemma NoSections()
    ensures Sections([]) == []
  {
  }

  // ---- Lookup ----

  method LookupSection(secs: seq<Section>, name: Text) returns (r: Option<nat>)
    ensures r.Some? ==> r.value < |secs| && secs[r.value].name == name && forall i :: 0 <= i < r.value ==> secs[i].name != name
    ensures r.None? ==> forall i :: 0 <= i < |secs| ==> secs[i].name != name
  {
    var i := 0;
    while i < |secs|
      invariant i <= |secs| && forall j :: 0 <= j < i ==> secs[j].name != name
    {
      if secs[i].name == name {
        return Some(i);
      }
      i := i + 1;
    }
    return None;
  }

  /** The value of the first such key in the first such section; later sections of the same name are not looked at. */
  method GetRaw(secs: seq<Section>, name: Text, key: Text) returns (r: Option<Text>)
    ensures r == Raw(secs, name, key)
    ensures r.Some? ==> exists i, j :: IsFirst(secs, name, key, i, j) && r.value == secs[i].lines[j].value
    ensures r.None? ==> forall i, j :: !IsFirst(secs, name, key, i, j)
  {
    var s := LookupSection(secs, name);
    RawIs(secs, name, key, s);
    if s.None? {
      return None;
    }
    var lines := secs[s.value].lines;
    var i := 0;
    assert lines[0..] == lines;
    while i < |lines|
      invariant i <= |lines| && FirstValue(lines, key) == FirstValue(lines[i..], key) && forall j :: 0 <= j < i ==> lines[j].key != key
    {
      assert lines[i..][1..] == lines[i + 1..];
      if lines[i].key == key {
        assert IsFirst(secs, name, key, s.value, i);
        return Some(lines[i].value);
      }
      i := i + 1;
    }
    return None;
  }

  /** Line j of section i is the first one with this key, in the first section with this name. */
  predicate IsFirst(secs: seq<Section>, name: Text, key: Text, i: int, j: int) {
    && 0 <= i < |secs| && secs[i].name == name && (forall k :: 0 <= k < i ==> secs[k].name != name)
    && 0 <= j < |secs[i].lines| && secs[i].lines[j].key == key && forall k :: 0 <= k < j ==> secs[i].lines[k].key != key
  }

  function FirstValue(lines: seq<Line>, key: Text): Option<Text> {
    if lines == [] then None else if lines[0].key == key then Some(lines[0].value) else FirstValue(lines[1..], key)
  }

  function Raw(secs: seq<Section>, name: Text, key: Text): Option<Text> {
    if secs == [] then None else if secs[0].name == name then FirstValue(secs[0].lines, key) else Raw(secs[1..], name, key)
  }

  lemma {:induction false} RawIs(secs: seq<Section>, name: Text, key: Text, s: Option<nat>)
    requires s.Some? ==> s.value < |secs| && secs[s.value].name == name && forall i :: 0 <= i < s.value ==> secs[i].name != name
    requires s.None? ==> forall i :: 0 <= i < |secs| ==> secs[i].name != name
    ensures Raw(secs, name, key) == if s.Some? then FirstValue(secs[s.value].lines, key) else None
  {
    if secs != [] && secs[0].name != name {
      RawIs(secs[1..], name, key, if s.Some? then Some(s.value - 1) else None);
    }
  }

  /** Whatever was printed can be looked up again. */
  lemma LookupAfterPrint(secs: seq<Section>, name: Text, key: Text)
    requires Printable(secs)
    ensures var r := Parse(Print(secs), []); r.Ok? && Raw(r.value, name, key) == Raw(secs, name, key)
  {
    RoundTrip(secs, []);
    assert [] + secs == secs;
  }
}
