/** The text of a local environment file: parsing and serializing. */
module EnvironmentText {
  import opened Options

  /** One assignment. A file is a `Map` in insertion order, here the list of its entries. */
  datatype Entry = Entry(name: string, value: string)

  datatype Error = Invalid | Duplicate(name: string) | EnabledInvalid

  datatype Result<+T> = Ok(value: T) | Err(error: Error)

  // ----- Lines ---------------------------------------------------------------------

  /** `text.split(/\r?\n/u)`. */
  function SplitLines(text: string): (lines: seq<string>)
    ensures |lines| >= 1
  {
    if text == "" then [""]
    else if text[0] == '\n' then [""] + SplitLines(text[1..])
    else if |text| >= 2 && text[0] == '\r' && text[1] == '\n' then [""] + SplitLines(text[2..])
    else var rest := SplitLines(text[1..]); [[text[0]] + rest[0]] + rest[1..]
  }

  predicate IsSpace(c: char) {
    || '\t' <= c <= '\r' || c == ' ' || c == '\U{a0}' || c == '\U{1680}' || '\U{2000}' <= c <= '\U{200a}'
    || c == '\U{2028}' || c == '\U{2029}' || c == '\U{202f}' || c == '\U{205f}' || c == '\U{3000}'
    || c == '\U{feff}'
  }

  function TrimStart(s: string): (r: string)
    ensures r == "" || !IsSpace(r[0])
  {
    if s != "" && IsSpace(s[0]) then TrimStart(s[1..]) else s
  }

  predicate EndsTrimmed(s: string) {
    s == "" || !IsSpace(s[|s| - 1])
  }

  function TrimEnd(s: string): (r: string)
    ensures EndsTrimmed(r) && r <= s
  {
    if EndsTrimmed(s) then s else TrimEnd(s[..|s| - 1])
  }

  function Trim(s: string): string {
    TrimEnd(TrimStart(s))
  }

  /** The position of the first `=`, or the length when there is none. */
  function FirstEquals(s: string): (i: nat)
    ensures i <= |s| && (forall k | 0 <= k < i :: s[k] != '=') && (i < |s| ==> s[i] == '=')
  {
    if s == "" || s[0] == '=' then 0
    else 1 + FirstEquals(s[1..])
  }

  datatype Line = Ignored | Malformed | Assignment(entry: Entry)

  function ParseLine(rawLine: string): Line {
    var line := Trim(rawLine);
    if line == "" || line[0] == '#' then Ignored
    else
      var separator := FirstEquals(line);
      if separator == 0 || separator == |line| then Malformed
      else Assignment(Entry(Trim(line[..separator]), line[separator + 1..]))
  }

  predicate Has(entries: seq<Entry>, name: string) {
    exists e | e in entries :: e.name == name
  }

  /** What the parser does with the lines still to come. */
  function ParseLines(entries: seq<Entry>, lines: seq<string>): Result<seq<Entry>>
    decreases lines
  {
    if lines == [] then Ok(entries)
    else match ParseLine(lines[0])
      case Ignored => ParseLines(entries, lines[1..])
      case Malformed => Err(Invalid)
      case Assignment(e) =>
        if Has(entries, e.name) then Err(Duplicate(e.name)) else ParseLines(entries + [e], lines[1..])
  }

  function Parse(text: string): Result<seq<Entry>> {
    ParseLines([], SplitLines(text))
  }

  function Joined(entries: seq<Entry>): string {
    if entries == [] then ""
    else
      entries[0].name + "=" + entries[0].value
      + (if |entries| == 1 then "" else "\n" + Joined(entries[1..]))
  }

  function Serialize(entries: seq<Entry>): string {
    Joined(entries) + "\n"
  }

  // ----- What the parser can produce -----------------------------------------------

  predicate IsName(name: string) {
    && name != "" && name[0] != '#' && !IsSpace(name[0]) && EndsTrimmed(name)
    && '=' !in name && '\n' !in name
  }

  predicate IsValue(value: string) {
    EndsTrimmed(value) && '\n' !in value
  }

  predicate UniqueNames(entries: seq<Entry>) {
    forall i, j | 0 <= i < j < |entries| :: entries[i].name != entries[j].name
  }

  predicate WellFormed(entries: seq<Entry>) {
    UniqueNames(entries) && forall e | e in entries :: IsName(e.name) && IsValue(e.value)
  }

  lemma {:induction false} LinesHaveNoNewline(text: string)
    ensures forall l | l in SplitLines(text) :: '\n' !in l
  {
    if text != "" {
      if text[0] == '\n' { LinesHaveNoNewline(text[1..]); }
      else if |text| >= 2 && text[0] == '\r' && text[1] == '\n' { LinesHaveNoNewline(text[2..]); }
      else { LinesHaveNoNewline(text[1..]); }
    }
  }

  lemma {:induction false} TrimStartIsSuffix(s: string)
    ensures forall c | c in TrimStart(s) :: c in s
    ensures EndsTrimmed(s) ==> EndsTrimmed(TrimStart(s))
  {
    if s != "" && IsSpace(s[0]) { TrimStartIsSuffix(s[1..]); }
  }

  lemma TrimIsPart(s: string)
    ensures forall c | c in Trim(s) :: c in s
    ensures Trim(s) != "" ==> !IsSpace(Trim(s)[0])
    ensures EndsTrimmed(Trim(s))
  {
    TrimStartIsSuffix(s);
    var t := TrimStart(s);
    assert TrimEnd(t) == t[..|TrimEnd(t)|];
  }

  lemma TrimIsIdentity(s: string)
    requires s == "" || (!IsSpace(s[0]) && EndsTrimmed(s))
    ensures Trim(s) == s
  {
  }

  lemma ParsedEntryIsWellFormed(rawLine: string)
    requires '\n' !in rawLine && ParseLine(rawLine).Assignment?
    ensures IsName(ParseLine(rawLine).entry.name) && IsValue(ParseLine(rawLine).entry.value)
  {
    var line := Trim(rawLine);
    TrimIsPart(rawLine);
    var separator := FirstEquals(line);
    var head := line[..separator];
    TrimIsPart(head);
    TrimKeepsFirst(head);
  }

  lemma TrimKeepsFirst(s: string)
    requires s != "" && !IsSpace(s[0])
    ensures Trim(s) != "" && Trim(s)[0] == s[0]
  {
    TrimEndKeepsFirst(s);
  }

  lemma {:induction false} TrimEndKeepsFirst(s: string)
    requires s != "" && !IsSpace(s[0])
    ensures TrimEnd(s) != "" && TrimEnd(s)[0] == s[0]
  {
    if !EndsTrimmed(s) { TrimEndKeepsFirst(s[..|s| - 1]); }
  }

  lemma {:induction false} ParsedIsWellFormed(entries: seq<Entry>, lines: seq<string>)
    requires WellFormed(entries) && forall l | l in lines :: '\n' !in l
    requires ParseLines(entries, lines).Ok?
    ensures WellFormed(ParseLines(entries, lines).value)
    decreases lines
  {
    if lines != [] {
      var line := ParseLine(lines[0]);
      if line.Assignment? {
        ParsedEntryIsWellFormed(lines[0]);
        ParsedIsWellFormed(entries + [line.entry], lines[1..]);
      } else {
        ParsedIsWellFormed(entries, lines[1..]);
      }
    }
  }

  /** Whatever the text, the parser yields trimmed unique names and values it would keep. */
  lemma ParseIsWellFormed(text: string)
    requires Parse(text).Ok?
    ensures WellFormed(Parse(text).value)
  {
    LinesHaveNoNewline(text);
    ParsedIsWellFormed([], SplitLines(text));
  }

  // ----- Round trip ----------------------------------------------------------------

  function LineOf(e: Entry): string {
    e.name + "=" + e.value
  }

  lemma FirstEqualsAfter(name: string, value: string)
    requires '=' !in name
    ensures FirstEquals(name + "=" + value) == |name|
  {
    var line := name + "=" + value;
    assert line[|name|] == '=';
    assert forall k | 0 <= k < |name| :: line[k] == name[k] && name[k] in name;
  }

  lemma LineReadsBack(e: Entry)
    requires IsName(e.name) && IsValue(e.value)
    ensures ParseLine(LineOf(e)) == Assignment(e)
    ensures '\n' !in LineOf(e) && LineOf(e)[|LineOf(e)| - 1] != '\r'
  {
    var line := LineOf(e);
    assert line[0] == e.name[0];
    assert EndsTrimmed(line) by {
      assert line[|line| - 1] == if e.value == "" then '=' else e.value[|e.value| - 1];
    }
    TrimIsIdentity(line);
    FirstEqualsAfter(e.name, e.value);
    assert line[..|e.name|] == e.name && line[|e.name| + 1..] == e.value;
    TrimIsIdentity(e.name);
  }

  lemma {:induction false} SplitAtNewline(line: string, tail: string)
    requires '\n' !in line && (line == "" || line[|line| - 1] != '\r')
    ensures SplitLines(line + "\n" + tail) == [line] + SplitLines(tail)
  {
    var text := line + "\n" + tail;
    if line == "" {
      assert text[1..] == tail;
    } else {
      assert text[0] == line[0] && text[1..] == line[1..] + "\n" + tail;
      assert |line| >= 2 ==> text[1] == line[1];
      SplitAtNewline(line[1..], tail);
      assert [line[0]] + line[1..] == line;
      assert ([line[1..]] + SplitLines(tail))[1..] == SplitLines(tail);
    }
  }

  function LinesOf(entries: seq<Entry>): seq<string> {
    if entries == [] then [""] else [LineOf(entries[0])] + LinesOf(entries[1..])
  }

  lemma {:induction false} SplitSerialized(entries: seq<Entry>)
    requires WellFormed(entries) && entries != []
    ensures SplitLines(Serialize(entries)) == LinesOf(entries)
  {
    var e, rest := entries[0], entries[1..];
    assert e in entries;
    LineReadsBack(e);
    SerializeUnfolds(entries);
    SplitAtNewline(LineOf(e), if rest == [] then "" else Serialize(rest));
    if rest != [] { SplitSerialized(rest); }
  }

  lemma SerializeUnfolds(entries: seq<Entry>)
    requires entries != []
    ensures Serialize(entries) ==
            LineOf(entries[0]) + "\n" + (if entries[1..] == [] then "" else Serialize(entries[1..]))
  {
  }

  lemma {:induction false} ParseWritten(done: seq<Entry>, rest: seq<Entry>)
    requires WellFormed(done + rest)
    ensures ParseLines(done, LinesOf(rest)) == Ok(done + rest)
    decreases |rest|
  {
    var lines := LinesOf(rest);
    if rest == [] {
      assert ParseLine("") == Ignored;
      assert done + rest == done && lines[1..] == [];
    } else {
      var e := rest[0];
      assert e == (done + rest)[|done|];
      LineReadsBack(e);
      forall i | 0 <= i < |done| ensures done[i].name != e.name {
        assert (done + rest)[i] == done[i];
      }
      assert done + rest == (done + [e]) + rest[1..];
      assert lines[1..] == LinesOf(rest[1..]);
      ParseWritten(done + [e], rest[1..]);
    }
  }

  /** What is written is read back, entry by entry and in order. */
  lemma ParseInvertsSerialize(entries: seq<Entry>)
    requires WellFormed(entries)
    ensures Parse(Serialize(entries)) == Ok(entries)
  {
    if entries == [] {
      BlankFileIsEmpty();
    } else {
      SplitSerialized(entries);
      ParseWritten([], entries);
      assert [] + entries == entries;
    }
  }

  lemma BlankFileIsEmpty()
    ensures Parse(Serialize([])) == Ok([])
  {
    assert Serialize([]) == "\n" && "\n"[1..] == "";
    assert SplitLines("\n") == [""] + [""];
    assert ParseLine("") == Ignored;
    var lines := [""] + [""];
    assert lines[1..] == [""] && lines[1..][1..] == [];
  }

  // ----- How a file is read --------------------------------------------------------

  /** The code points that `trim` takes off. */
  lemma WhiteSpace(c: char)
    ensures IsSpace(c) <==>
            c as int in {9, 10, 11, 12, 13, 32, 160, 5760, 8192, 8193, 8194, 8195, 8196, 8197, 8198, 8199, 8200,
                         8201, 8202, 8232, 8233, 8239, 8287, 12288, 65279}
  {
  }

  predicate IsPadding(s: string) {
    forall c | c in s :: IsSpace(c)
  }

  predicate IsTrimmed(s: string) {
    s == "" || (!IsSpace(s[0]) && !IsSpace(s[|s| - 1]))
  }

  /** Padding goes at both ends, and nothing else. */
  lemma TrimTakesPadding(before: string, s: string, after: string)
    requires IsPadding(before) && IsTrimmed(s) && IsPadding(after)
    ensures Trim(before + s + after) == s
  {
    assert before + s + after == before + (s + after);
    TrimStartTakesPadding(before, s + after);
    if s == "" {
      assert s + after == after == after + "";
      TrimStartTakesPadding(after, "");
    } else {
      assert (s + after)[0] == s[0];
      TrimEndTakesPadding(s, after);
    }
  }

  lemma {:induction false} TrimStartTakesPadding(before: string, s: string)
    requires IsPadding(before)
    ensures TrimStart(before + s) == TrimStart(s)
  {
    if before == "" {
      assert before + s == s;
    } else {
      assert (before + s)[0] == before[0] && before[0] in before && (before + s)[1..] == before[1..] + s;
      TrimStartTakesPadding(before[1..], s);
    }
  }

  lemma {:induction false} TrimEndTakesPadding(s: string, after: string)
    requires IsTrimmed(s) && IsPadding(after)
    ensures TrimEnd(s + after) == s
  {
    if after == "" {
      assert s + after == s;
    } else {
      var last := |after| - 1;
      assert (s + after)[|s + after| - 1] == after[last] && after[last] in after;
      assert (s + after)[..|s + after| - 1] == s + after[..last];
      TrimEndTakesPadding(s, after[..last]);
    }
  }

  /** How a padded line reads: blank lines and comments are skipped, a line without a name or without
      `=` is malformed, and otherwise the name is trimmed and the value is what follows the first `=`. */
  lemma PaddedLine(before: string, line: string, after: string)
    requires IsPadding(before) && IsTrimmed(line) && IsPadding(after)
    ensures line == "" || "#" <= line ==> ParseLine(before + line + after) == Ignored
    ensures line != "" && line[0] != '#' && ('=' !in line || line[0] == '=') ==>
              ParseLine(before + line + after) == Malformed
  {
    TrimTakesPadding(before, line, after);
    if line != "" && '=' !in line {
      assert FirstEquals(line) == |line|;
    }
  }

  lemma PaddedAssignment(before: string, name: string, middle: string, value: string, after: string)
    requires IsPadding(before) && IsPadding(middle) && IsPadding(after)
    requires name != "" && IsTrimmed(name) && name[0] != '#' && '=' !in name && '=' !in middle
    requires EndsTrimmed(value)
    ensures ParseLine(before + (name + middle + "=" + value) + after) == Assignment(Entry(name, value))
  {
    var head := name + middle;
    AssignmentIsTrimmed(head, value);
    TrimTakesPadding(before, head + "=" + value, after);
    assert "" + name + middle == head;
    TrimTakesPadding("", name, middle);
    TrimmedAssignment(before + (head + "=" + value) + after, head, value);
  }

  lemma AssignmentIsTrimmed(head: string, value: string)
    requires head != "" && !IsSpace(head[0]) && EndsTrimmed(value)
    ensures IsTrimmed(head + "=" + value)
  {
    var line := head + "=" + value;
    assert line[0] == head[0];
    assert line[|line| - 1] == if value == "" then '=' else value[|value| - 1];
  }

  lemma TrimmedAssignment(raw: string, head: string, value: string)
    requires Trim(raw) == head + "=" + value && head != "" && head[0] != '#' && '=' !in head
    ensures ParseLine(raw) == Assignment(Entry(Trim(head), value))
  {
    var line := head + "=" + value;
    FirstEqualsAfter(head, value);
    assert line[0] == head[0] && line[..|head|] == head && line[|head| + 1..] == value;
  }

  /** Lines end at a line feed, with a carriage return before it or not. */
  lemma {:induction false} SplitAtCarriageReturn(line: string, tail: string)
    requires '\n' !in line
    ensures SplitLines(line + "\r\n" + tail) == [line] + SplitLines(tail)
  {
    var text := line + "\r\n" + tail;
    if line == "" {
      assert text[0] == '\r' && text[1] == '\n' && text[2..] == tail;
    } else {
      assert text[0] == line[0] && line[0] in line && text[1..] == line[1..] + "\r\n" + tail;
      assert text[1] == if |line| > 1 then line[1] else '\r';
      assert |line| > 1 ==> line[1] in line;
      assert forall c | c in line[1..] :: c in line;
      SplitAtCarriageReturn(line[1..], tail);
      assert line == [line[0]] + line[1..];
    }
  }

  /** The assignments among the lines, in order. */
  function Assignments(lines: seq<string>): seq<Entry> {
    if lines == [] then []
    else (match ParseLine(lines[0]) case Assignment(e) => [e] case _ => []) + Assignments(lines[1..])
  }

  lemma {:induction false} ParseLinesIff(entries: seq<Entry>, lines: seq<string>)
    requires UniqueNames(entries)
    ensures ParseLines(entries, lines).Ok? <==>
            && (forall l | l in lines :: ParseLine(l) != Malformed)
            && UniqueNames(entries + Assignments(lines))
    ensures ParseLines(entries, lines).Ok? ==> ParseLines(entries, lines).value == entries + Assignments(lines)
    decreases lines
  {
    if lines == [] {
      assert entries + [] == entries;
    } else {
      var rest := lines[1..];
      assert forall l :: l in lines <==> l == lines[0] || l in rest;
      match ParseLine(lines[0])
      case Ignored =>
        assert Assignments(lines) == [] + Assignments(rest) == Assignments(rest);
        ParseLinesIff(entries, rest);
      case Malformed =>
      case Assignment(e) =>
        assert entries + Assignments(lines) == (entries + [e]) + Assignments(rest);
        if Has(entries, e.name) {
          var k :| 0 <= k < |entries| && entries[k].name == e.name;
          var all := entries + Assignments(lines);
          assert all[k].name == all[|entries|].name;
        } else {
          assert forall k | 0 <= k < |entries| :: entries[k] in entries;
          ParseLinesIff(entries + [e], rest);
        }
    }
  }

  /** A file is read exactly when no line is malformed and no name is assigned twice, and then as its
      assignments in order. */
  lemma ParsesIff(text: string)
    ensures Parse(text).Ok? <==>
            && (forall l | l in SplitLines(text) :: ParseLine(l) != Malformed)
            && UniqueNames(Assignments(SplitLines(text)))
    ensures Parse(text).Ok? ==> Parse(text).value == Assignments(SplitLines(text))
  {
    ParseLinesIff([], SplitLines(text));
    assert [] + Assignments(SplitLines(text)) == Assignments(SplitLines(text));
  }
}
