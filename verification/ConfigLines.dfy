/** config.ini as lines (core/src/config_write.cpp): taken apart so that one of them can be changed and
    everything else put back byte for byte, and what the parser reads off them. */
module ConfigLines {
  import opened Options
  import opened ConfigText

  // ----- What is read off lines -----

  /** A line that means something: a section opened, or a key set in the one that is open. */
  datatype Event = Opened(section: Section) | Set(section: Section, key: string, value: string)

  function Next(line: string, at: Section): Section {
    if ItemOf(line).Header? then ItemOf(line).section else at
  }

  function EventOf(line: string, at: Section): seq<Event> {
    match ItemOf(line)
    case Nothing => []
    case Header(section) => [Opened(section)]
    case Setting(key, value) => [Set(at, key, value)]
  }

  function Reading(lines: seq<string>, at: Section): seq<Event> {
    if lines == [] then [] else EventOf(lines[0], at) + Reading(lines[1..], Next(lines[0], at))
  }

  /** The section that is open after some lines. */
  function After(lines: seq<string>, at: Section): Section {
    if lines == [] then at else After(lines[1..], Next(lines[0], at))
  }

  lemma {:induction false} ReadingConcat(a: seq<string>, b: seq<string>, at: Section)
    ensures Reading(a + b, at) == Reading(a, at) + Reading(b, After(a, at))
    ensures After(a + b, at) == After(b, After(a, at))
  {
    hide EventOf, Next;
    if a == [] {
      assert a + b == b;
      assert [] + Reading(b, at) == Reading(b, at);
    } else {
      assert a + b == [a[0]] + (a[1..] + b) && a == [a[0]] + a[1..];
      FirstLine(a[0], a[1..] + b, at);
      FirstLine(a[0], a[1..], at);
      ReadingConcat(a[1..], b, Next(a[0], at));
      Regrouped(EventOf(a[0], at), Reading(a[1..], Next(a[0], at)), Reading(b, After(a, at)));
    }
  }

  lemma FirstLine(line: string, rest: seq<string>, at: Section)
    ensures Reading([line] + rest, at) == EventOf(line, at) + Reading(rest, Next(line, at))
    ensures After([line] + rest, at) == After(rest, Next(line, at))
  {
    hide EventOf, Next;
    assert ([line] + rest)[1..] == rest;
  }

  lemma Regrouped<T>(a: seq<T>, b: seq<T>, c: seq<T>)
    ensures (a + b) + c == a + (b + c)
  {
  }

  lemma OneLine(line: string, at: Section)
    ensures Reading([line], at) == EventOf(line, at) && After([line], at) == Next(line, at)
  {
    assert [line][1..] == [];
  }

  lemma AfterNext(lines: seq<string>, i: nat, at: Section)
    requires i < |lines|
    ensures After(lines[..i + 1], at) == Next(lines[i], After(lines[..i], at))
  {
    assert lines[..i + 1] == lines[..i] + [lines[i]];
    ReadingConcat(lines[..i], [lines[i]], at);
    OneLine(lines[i], After(lines[..i], at));
  }

  // ----- Lines and their ends -----

  datatype Line = Line(text: string, terminator: string)

  function Joined(lines: seq<Line>): string {
    if lines == [] then "" else lines[0].text + lines[0].terminator + Joined(lines[1..])
  }

  function Texts(lines: seq<Line>): (texts: seq<string>)
    ensures |texts| == |lines|
  {
    seq(|lines|, i requires 0 <= i < |lines| => lines[i].text)
  }

  /** Only the last line may be without an end. */
  ghost predicate WellFormed(lines: seq<Line>) {
    forall i :: 0 <= i < |lines| ==>
      '\n' !in lines[i].text && (lines[i].terminator in {"\n", "\r\n"} || (i == |lines| - 1 && lines[i].terminator == ""))
  }

  /** The last line has an end of its own. */
  predicate EndsIt(lines: seq<Line>) { lines != [] && lines[|lines| - 1].terminator != "" }

  lemma {:induction false} JoinedLast(lines: seq<Line>, line: Line)
    ensures Joined(lines + [line]) == Joined(lines) + line.text + line.terminator
  {
    if lines == [] {
      assert [line][1..] == [] && lines + [line] == [line];
    } else {
      assert (lines + [line])[0] == lines[0] && (lines + [line])[1..] == lines[1..] + [line];
      JoinedLast(lines[1..], line);
    }
  }

  const BOM := "\U{00EF}\U{00BB}\U{00BF}"

  function WithoutBom(text: string): string { if |text| >= 3 && text[..3] == BOM then text[3..] else text }

  /** The lines the parser walks: split at every line feed, and no more than that. */
  function ParserLines(text: string): seq<string> {
    var newline := IndexOf(text, '\n');
    if newline == |text| then [text] else [text[..newline]] + ParserLines(text[newline + 1..])
  }

  /** What the parser reads off a text. */
  function Read(text: string): seq<Event> { Reading(ParserLines(WithoutBom(text)), NoSection) }

  /** One line of a text, with its end, as the parser walks it. */
  lemma ParserLine(line: Line, rest: string)
    requires '\n' !in line.text && line.terminator in {"\n", "\r\n"}
    ensures var first := if line.terminator == "\n" then line.text else line.text + "\r";
            ParserLines(line.text + line.terminator + rest) == [first] + ParserLines(rest) && ItemOf(first) == ItemOf(line.text)
  {
    hide ItemOf;
    var first := if line.terminator == "\n" then line.text else line.text + "\r";
    var text := first + "\n" + rest;
    assert line.text + line.terminator + rest == text;
    IndexAfter(first, '\n', rest);
    assert text[..|first|] == first && text[|first| + 1..] == rest;
    ReturnIsSpace(line.text);
  }

  lemma SameItem(a: string, b: string, rest: seq<string>, at: Section)
    requires ItemOf(a) == ItemOf(b)
    ensures Reading([a] + rest, at) == EventOf(b, at) + Reading(rest, Next(b, at))
  {
    hide ItemOf;
    assert ([a] + rest)[1..] == rest;
  }

  /** The parser, which leaves a carriage return on its lines, reads what the editor's lines say. */
  lemma {:induction false} ParserReads(lines: seq<Line>, at: Section)
    requires WellFormed(lines)
    ensures Reading(ParserLines(Joined(lines)), at) == Reading(Texts(lines), at)
  {
    hide ItemOf, IndexOf, EventOf, Next;
    if lines == [] {
      NothingRead(at);
    } else {
      var line, rest := lines[0], lines[1..];
      assert Texts(lines) == [line.text] + Texts(rest);
      SameItem(line.text, line.text, Texts(rest), at);
      if line.terminator == "" {
        assert rest == [] && Joined(lines) == line.text;
        NoneFound(line.text, '\n');
        OneLine(line.text, at);
        assert Texts(lines) == [line.text];
      } else {
        ParserLine(line, Joined(rest));
        var first := if line.terminator == "\n" then line.text else line.text + "\r";
        SameItem(first, line.text, ParserLines(Joined(rest)), at);
        ParserReads(rest, Next(line.text, at));
      }
    }
  }

  lemma NothingRead(at: Section)
    ensures Reading(ParserLines(""), at) == []
  {
    OneLine("", at);
    BlankReads();
  }

  lemma NoneFound(s: string, c: char)
    requires c !in s
    ensures IndexOf(s, c) == |s|
  {
  }

  // ----- A document -----

  /** Line `i` sets `key` in `section`. */
  ghost predicate Assigned(texts: seq<string>, i: int, section: Section, key: string) {
    && 0 <= i < |texts| && After(texts[..i], NoSection) == section
    && ItemOf(texts[i]).Setting? && ItemOf(texts[i]).key == key
  }

  /** Line `i` opens `section`, or sets a key in it. */
  ghost predicate Means(texts: seq<string>, i: int, section: Section) {
    && 0 <= i < |texts|
    && (ItemOf(texts[i]) == Header(section) || (ItemOf(texts[i]).Setting? && After(texts[..i], NoSection) == section))
  }

  lemma KnownIsNamed(section: string)
    requires Named(section) != Unknown
    ensures section != "" && Named(section) != NoSection && After([], NoSection) == NoSection
  {
  }

  lemma SameName(current: string, section: string)
    requires Named(section) != Unknown
    ensures current == section <==> Named(current) == Named(section)
  {
    if Named(current) == Named(section) { NamesAreDistinct(current, section); }
  }

  function Assignments(body: seq<(string, string)>): (texts: seq<string>)
    ensures |texts| == |body|
  {
    seq(|body|, i requires 0 <= i < |body| => NewAssignment(body[i].0, body[i].1))
  }

  ghost predicate NoFeeds(body: seq<(string, string)>) {
    forall i :: 0 <= i < |body| ==> '\n' !in body[i].0 && '\n' !in body[i].1
  }

  lemma AssignmentsLast(body: seq<(string, string)>, i: nat)
    requires i < |body|
    ensures Assignments(body[..i + 1]) == Assignments(body[..i]) + [NewAssignment(body[i].0, body[i].1)]
    ensures NoFeeds(body) ==> '\n' !in NewAssignment(body[i].0, body[i].1)
  {
    assert forall k :: 0 <= k < i ==> body[..i + 1][k] == body[k] && body[..i][k] == body[k];
  }

  lemma NoneInSlice(s: string, c: char, i: nat, j: nat)
    requires c !in s && i <= j <= |s|
    ensures c !in s[i..j]
  {
  }

  lemma NoFeedRewritten(line: string, value: string)
    requires '\n' !in line && '\n' !in value
    ensures '\n' !in Rewritten(line, value)
  {
    hide TrimLeft, TrimRight, CommentFrom, IndexOf, LeadOf, TailOf, Trim;
    var content := Strip(line);
    var equals := IndexOf(content, '=');
    if equals < |content| {
      var after := content[equals + 1..];
      var lead, tail := LeadOf(after), TailOf(after);
      assert forall i :: 0 <= i < |lead| ==> IsSpace(lead[i]);
      assert forall i :: 0 <= i < |tail| ==> IsSpace(tail[i]);
      NoneInSlice(line, '\n', 0, |content|);
      NoneInSlice(content, '\n', 0, equals + 1);
      NoneInSlice(line, '\n', |content|, |line|);
      var rebuilt := content[..equals + 1] + lead + value + tail + line[|content|..];
      RightTrimmed(rebuilt);
      NoneInSlice(rebuilt, '\n', 0, |TrimRight(rebuilt)|);
    }
  }

  class Document {
    var bom: string
    var lines: seq<Line>
    /** What a new line ends with. */
    var terminator: string

    constructor ()
      ensures bom == "" && lines == [] && terminator == "\n"
    {
      bom, lines, terminator := "", [], "\n";
    }

    ghost predicate Valid()
      reads this
    {
      WellFormed(lines) && bom in {"", BOM} && terminator in {"\n", "\r\n"}
    }

    ghost function Text(): string
      reads this
    {
      bom + Joined(lines)
    }

    method Render() returns (text: string)
      ensures text == Text()
    {
      text := bom;
      for i := 0 to |lines|
        invariant text == bom + Joined(lines[..i])
      {
        assert lines[..i + 1] == lines[..i] + [lines[i]];
        JoinedLast(lines[..i], lines[i]);
        text := text + lines[i].text + lines[i].terminator;
      }
      assert lines[..|lines|] == lines;
    }

    /** The lines of `section` that set `key`, found by the editor's own reading of headers and keys: they
        are the lines the parser takes it from. */
    method AssignmentLines(section: string, key: string) returns (hits: seq<nat>)
      requires Named(section) != Unknown && key != ""
      ensures forall i :: i in hits <==> Assigned(Texts(lines), i, Named(section), key)
      ensures forall i, j :: 0 <= i < j < |hits| ==> hits[i] < hits[j]
    {
      hide OpensSection, KeyOf, ItemOf, Named;
      ghost var texts := Texts(lines);
      hits := [];
      var current := "";
      KnownIsNamed(section);
      for i := 0 to |lines|
        invariant current == section <==> After(texts[..i], NoSection) == Named(section)
        invariant forall k :: k in hits <==> k < i && Assigned(texts, k, Named(section), key)
        invariant forall k :: 0 <= k < |hits| ==> hits[k] < i
        invariant forall k, m :: 0 <= k < m < |hits| ==> hits[k] < hits[m]
      {
        AfterNext(texts, i, NoSection);
        ReadersAgree(lines[i].text);
        var header := OpensSection(lines[i].text);
        if header.Some? {
          current := header.value;
          SameName(current, section);
        } else if current == section && KeyOf(lines[i].text) == key {
          hits := hits + [i];
        }
      }
    }

    /** The place for a new key: behind all that the section has so far. */
    method InsertPoint(section: string) returns (found: bool, at: nat)
      requires Named(section) != Unknown
      ensures found ==> 0 < at <= |lines| && After(Texts(lines)[..at], NoSection) == Named(section)
      ensures found ==> Means(Texts(lines), at - 1, Named(section))
      ensures forall i :: (if found then at else 0) <= i < |lines| ==> !Means(Texts(lines), i, Named(section))
    {
      hide OpensSection, KeyOf, ItemOf, Named;
      ghost var texts := Texts(lines);
      found, at := false, 0;
      var current := "";
      KnownIsNamed(section);
      for i := 0 to |lines|
        invariant current == section <==> After(texts[..i], NoSection) == Named(section)
        invariant current == section ==> found
        invariant found ==> 0 < at <= i && After(texts[..at], NoSection) == Named(section) && Means(texts, at - 1, Named(section))
        invariant forall k :: (if found then at else 0) <= k < i ==> !Means(texts, k, Named(section))
      {
        AfterNext(texts, i, NoSection);
        ReadersAgree(lines[i].text);
        var header := OpensSection(lines[i].text);
        if header.Some? {
          current := header.value;
          SameName(current, section);
          if current == section {
            found, at := true, i + 1;
          }
        } else if current == section && KeyOf(lines[i].text) != "" {
          at := i + 1;
        }
      }
    }

    method Insert(at: nat, text: string)
      requires Valid() && at <= |lines| && '\n' !in text
      modifies this`lines
      ensures lines != [] && (old(lines) != [] ==> EndsIt(lines) == EndsIt(old(lines)))
      ensures Valid() && Texts(lines) == Texts(old(lines))[..at] + [text] + Texts(old(lines))[at..]
    {
      var line := Line(text, terminator);
      if at == |lines| && lines != [] && lines[|lines| - 1].terminator == "" {
        lines := lines[|lines| - 1 := Line(lines[|lines| - 1].text, terminator)];
        line := Line(text, "");
      }
      lines := lines[..at] + [line] + lines[at..];
      assert Texts(lines) == Texts(old(lines))[..at] + [text] + Texts(old(lines))[at..];
    }

    method Erase(at: nat)
      requires Valid() && at < |lines|
      modifies this`lines
      ensures lines != [] ==> EndsIt(lines) == EndsIt(old(lines))
      ensures Valid() && Texts(lines) == Texts(old(lines))[..at] + Texts(old(lines))[at + 1..]
    {
      if at + 1 == |lines| && lines[at].terminator == "" && at > 0 {
        lines := lines[at - 1 := Line(lines[at - 1].text, "")];
      }
      lines := lines[..at] + lines[at + 1..];
      assert Texts(lines) == Texts(old(lines))[..at] + Texts(old(lines))[at + 1..];
    }

    method Rewrite(at: nat, value: string)
      requires Valid() && at < |lines| && '\n' !in value
      modifies this`lines
      ensures Valid() && Texts(lines) == Texts(old(lines))[at := Rewritten(Texts(old(lines))[at], value)]
    {
      NoFeedRewritten(lines[at].text, value);
      lines := lines[at := Line(Rewritten(lines[at].text, value), lines[at].terminator)];
      assert Texts(lines) == Texts(old(lines))[at := Rewritten(Texts(old(lines))[at], value)];
    }

    lemma Further<T>(a: seq<T>, b: seq<T>, x: T, c: seq<T>, was: seq<T>)
      requires was == a + b + c
      ensures was[..|a| + |b|] + [x] + was[|a| + |b|..] == a + (b + [x]) + c
    {
      assert was[..|a| + |b|] == a + b && was[|a| + |b|..] == c;
    }

    lemma NoAssignments()
      ensures Assignments([]) == []
    {
    }

    /** New lines, one under the other. */
    method InsertBody(at: nat, body: seq<(string, string)>)
      requires Valid() && at <= |lines| && NoFeeds(body)
      modifies this`lines
      ensures old(lines) != [] ==> lines != [] && EndsIt(lines) == EndsIt(old(lines))
      ensures Valid() && Texts(lines) == Texts(old(lines))[..at] + Assignments(body) + Texts(old(lines))[at..]
    {
      hide EndsIt, WellFormed, NewAssignment, Assignments, Texts;
      NoAssignments();
      ghost var texts := Texts(lines);
      for i := 0 to |body|
        invariant Valid() && Texts(lines) == texts[..at] + Assignments(body[..i]) + texts[at..]
        invariant old(lines) != [] ==> lines != [] && EndsIt(lines) == EndsIt(old(lines))
      {
        AssignmentsLast(body, i);
        ghost var was := Texts(lines);
        Further(texts[..at], Assignments(body[..i]), NewAssignment(body[i].0, body[i].1), texts[at..], was);
        Insert(at + i, NewAssignment(body[i].0, body[i].1));
      }
      assert body[..|body|] == body;
    }

    /** A blank line after the last one, unless that is blank, or there is none. */
    method Gap() returns (ghost blank: seq<string>)
      requires Valid()
      modifies this`lines
      ensures Valid() && Texts(lines) == Texts(old(lines)) + blank
      ensures blank == if old(lines) != [] && Trim(old(lines)[|old(lines)| - 1].text) != "" then [""] else []
      ensures old(lines) != [] ==> EndsIt(lines) == EndsIt(old(lines))
    {
      ghost var texts := Texts(lines);
      blank := [];
      assert texts + [] == texts;
      if lines != [] && Trim(lines[|lines| - 1].text) != "" {
        Insert(|lines|, "");
        blank := [""];
        assert texts[..|texts|] == texts && texts[|texts|..] == [];
      }
    }

    /** A new section at the end. */
    method AppendSection(section: string, body: seq<(string, string)>) returns (ghost blank: seq<string>)
      requires Valid() && '\n' !in section && NoFeeds(body)
      modifies this`lines
      ensures Valid() && blank == if old(lines) != [] && Trim(old(lines)[|old(lines)| - 1].text) != "" then [""] else []
      ensures old(lines) != [] ==> EndsIt(lines) == EndsIt(old(lines))
      ensures Texts(lines) == Texts(old(lines)) + blank + [HeaderLine(section)] + Assignments(body)
    {
      hide WellFormed, Texts;
      blank := Gap();
      ghost var more := Texts(lines);
      Insert(|lines|, HeaderLine(section));
      assert more[..|more|] == more && more[|more|..] == [];
      ghost var last := Texts(lines);
      assert last == more + [HeaderLine(section)];
      InsertBody(|lines|, body);
      assert last[..|last|] == last && last[|last|..] == [];
    }
  }

  method FindFrom(text: string, c: char, begin: nat) returns (at: nat)
    requires begin <= |text|
    ensures begin <= at <= |text| && (at < |text| ==> text[at] == c) && c !in text[begin..at]
  {
    at := begin;
    while at < |text| && text[at] != c
      invariant begin <= at <= |text| && c !in text[begin..at]
    {
      assert text[begin..at + 1] == text[begin..at] + [text[at]];
      at := at + 1;
    }
  }

  /** Some line feed before `upTo` has a carriage return right before it. */
  ghost predicate EndsInReturn(text: string, upTo: nat) {
    exists i :: 0 < i < upTo <= |text| && ReturnAt(text, i)
  }

  ghost predicate ReturnAt(text: string, i: int) { 0 < i < |text| && text[i - 1] == '\r' && text[i] == '\n' }

  lemma OneMoreReturn(text: string, begin: nat, newline: nat, next: nat)
    requires begin <= newline <= next <= |text| && next == if newline < |text| then newline + 1 else newline
    requires '\n' !in text[begin..newline] && (newline < |text| ==> text[newline] == '\n')
    requires 0 < begin < |text| ==> text[begin - 1] == '\n'
    ensures EndsInReturn(text, next) <==> EndsInReturn(text, begin) || (begin < newline < |text| && text[newline - 1] == '\r')
  {
    assert forall i :: begin <= i < newline ==> text[i] == text[begin..newline][i - begin];
    if begin < newline < |text| && text[newline - 1] == '\r' { assert ReturnAt(text, newline); }
    if EndsInReturn(text, begin) {
      var i :| 0 < i < begin <= |text| && ReturnAt(text, i);
      assert i < next;
    }
  }

  /** The line feed that ends a line has no carriage return left before it. */
  ghost predicate Bare(lines: seq<Line>) {
    forall i :: 0 <= i < |lines| && lines[i].terminator == "\n" ==> lines[i].text == "" || lines[i].text[|lines[i].text| - 1] != '\r'
  }

  lemma OneMoreBare(lines: seq<Line>, line: Line)
    requires Bare(lines) && (line.terminator == "\n" ==> line.text == "" || line.text[|line.text| - 1] != '\r')
    ensures Bare(lines + [line])
  {
  }

  /** Take a text apart: put together again it is the same text, whatever it was. */
  method Split(text: string) returns (doc: Document)
    ensures fresh(doc) && doc.Valid() && doc.Text() == text
    ensures doc.bom == "" ==> WithoutBom(text) == text
    ensures doc.terminator == if EndsInReturn(WithoutBom(text), |WithoutBom(text)|) then "\r\n" else "\n"
    ensures Bare(doc.lines)
  {
    hide WellFormed, Joined, EndsInReturn, Bare, SoFar;
    doc := new Document();
    var body := WithoutBom(text);
    if body != text {
      doc.bom := BOM;
    }
    assert doc.bom + body == text;
    var begin := 0;
    NoLines(body);
    while begin < |body|
      invariant begin <= |body| && doc.bom in {"", BOM} && SoFar(body, begin, doc.lines, doc.terminator)
      modifies doc`lines, doc`terminator
    {
      var line, next := LineFrom(body, begin, doc.lines, doc.terminator);
      if line.terminator == "\r\n" {
        doc.terminator := "\r\n";
      }
      doc.lines := doc.lines + [line];
      begin := next;
    }
    AllLines(body, doc.lines, doc.terminator);
  }

  /** The text up to `begin` is taken apart, and a line feed is right before `begin`. */
  ghost predicate SoFar(body: string, begin: nat, lines: seq<Line>, terminator: string) {
    && begin <= |body| && WellFormed(lines) && Bare(lines) && Joined(lines) == body[..begin]
    && (begin < |body| ==> AllEnd(lines) && (begin > 0 ==> body[begin - 1] == '\n'))
    && terminator == if EndsInReturn(body, begin) then "\r\n" else "\n"
  }

  method LineFrom(body: string, begin: nat, ghost lines: seq<Line>, ghost terminator: string) returns (line: Line, next: nat)
    requires begin < |body| && SoFar(body, begin, lines, terminator)
    ensures begin < next <= |body|
    ensures SoFar(body, next, lines + [line], if line.terminator == "\r\n" then "\r\n" else terminator)
  {
    hide WellFormed, Joined, AllEnd, EndsInReturn, Bare;
    var newline := FindFrom(body, '\n', begin);
    var end := newline;
    if newline < |body| && end > begin && body[end - 1] == '\r' {
      end := end - 1;
    }
    next := if newline < |body| then newline + 1 else newline;
    line := Line(body[begin..end], body[end..next]);
    Ends(body, end, newline, next);
    OneLineOff(body, begin, end, newline, next, lines, line);
    OneMoreReturn(body, begin, newline, next);
    OneMoreBare(lines, line);
  }

  lemma AllLines(body: string, lines: seq<Line>, terminator: string)
    requires SoFar(body, |body|, lines, terminator)
    ensures WellFormed(lines) && Bare(lines) && Joined(lines) == body
    ensures terminator == if EndsInReturn(body, |body|) then "\r\n" else "\n"
  {
    hide WellFormed, Joined, EndsInReturn, Bare;
    assert body[..|body|] == body;
  }

  /** Every line so far has an end of its own. */
  ghost predicate AllEnd(lines: seq<Line>) { forall i :: 0 <= i < |lines| ==> lines[i].terminator != "" }

  lemma OneLineOff(body: string, begin: nat, end: nat, newline: nat, next: nat, lines: seq<Line>, line: Line)
    requires begin <= end <= newline <= next <= |body| && next == if newline < |body| then newline + 1 else newline
    requires newline < |body| ==> body[newline] == '\n'
    requires end == newline || (end + 1 == newline < |body| && body[end] == '\r')
    requires '\n' !in body[begin..newline] && line == Line(body[begin..end], body[end..next])
    requires WellFormed(lines) && Joined(lines) == body[..begin] && AllEnd(lines)
    ensures WellFormed(lines + [line]) && Joined(lines + [line]) == body[..next] && (next < |body| ==> AllEnd(lines + [line]))
  {
    hide Joined;
    Ends(body, end, newline, next);
    assert body[begin..newline] == body[begin..end] + body[end..newline];
    JoinedLast(lines, line);
    assert body[..next] == body[..begin] + body[begin..end] + body[end..next];
  }

  lemma NoLines(body: string)
    ensures SoFar(body, 0, [], "\n")
  {
  }

  lemma Ends(body: string, end: nat, newline: nat, next: nat)
    requires end <= newline <= next <= |body| && next == if newline < |body| then newline + 1 else newline
    requires newline < |body| ==> body[newline] == '\n'
    requires end == newline || (end + 1 == newline < |body| && body[end] == '\r')
    ensures body[end..next] == if newline == |body| then "" else if end == newline then "\n" else "\r\n"
  {
  }

  /** Nothing is lost or added by taking a text apart. */
  method RoundTrip(text: string) returns (same: string)
    ensures same == text
  {
    var doc := Split(text);
    same := doc.Render();
  }
}
