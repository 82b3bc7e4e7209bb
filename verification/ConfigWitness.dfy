/** Where an accepted edit of config.ini does more than it was asked, at files that show it. */
module ConfigWitness {
  import opened Options
  import opened ConfigText
  import opened ConfigLines
  import opened ConfigMeaning
  import opened ConfigEdit
  import opened ConfigOutcome

  // ----- A choice in an empty platform section -----

  /** One assignment means nothing but itself exactly when it does not turn a platform's folders on. */
  lemma OneMeansSame(w: Writer, text: string, edit: seq<Assignment>, resolved: seq<Resolved>,
                     bom: string, before: seq<Line>, after: seq<Line>, written: string)
    requires Sensible(w) && |edit| == 1 && !edit[0].remove && Edited(w, text, edit, resolved, bom, before, after, written)
    ensures MeansSame(w.rules, Read(text), Read(written), Named(resolved[0].section), resolved[0].key) <==> !TurnsOn(w, resolved[0], Read(text))
    ensures TurnsOn(w, resolved[0], Read(text)) ==> TurnedOn(w, resolved[0], Read(text), Read(written))
  {
    hide Survives, KeysIn, Reading, Read, Texts, Named, CanonicalSection, Lower, Trim, Keeps, MeansSame, WellFormed, Joined, Placed, Sensible, BuiltIn, FolderList, HasBuiltIn, BodyOf, Empties, MappedFor;
    var target := resolved[0];
    assert Resolves(w, edit[0], target);
    if TurnsOn(w, target, Read(text)) {
      if text == "" {
        CreatedReads();
        NothingEmpties(w.rules, Named(target.section).slug);
        assert false;
      }
      assert BodyOf(w, target, Read(text), Texts(before)) == [(target.key, target.value)] by { ChoiceIsOneLine(w, target, Read(text), Texts(before)); }
      ChosenTurnsOn(w, target, Texts(before), Texts(after));
    }
  }

  lemma NothingEmpties(rules: Rules, slug: string)
    ensures !Empties(rules, [], slug)
  {
  }

  lemma ChoiceIsOneLine(w: Writer, target: Resolved, inForce: seq<Event>, was: seq<string>)
    requires KindOf(w, target.section, target.key) == Choice
    ensures BodyOf(w, target, inForce, was) == [(target.key, target.value)]
  {
  }

  ghost predicate TurnedOn(w: Writer, target: Resolved, was: seq<Event>, now: seq<Event>) {
    var section := Named(target.section);
    && section.Platform? && !MeansSame(w.rules, was, now, section, target.key)
    && forall k :: FolderKey(k) ==> FolderList(w.rules, was, section.slug, k) == [] && FolderList(w.rules, now, section.slug, k) == BuiltIn(w.rules, section.slug, k)
  }

  lemma ChosenTurnsOn(w: Writer, target: Resolved, was: seq<string>, now: seq<string>)
    requires Askable(w, target) && !target.remove && TurnsOn(w, target, Reading(was, NoSection)) && Sensible(w)
    requires Placed(target, [(target.key, target.value)], was, now)
    ensures TurnedOn(w, target, Reading(was, NoSection), Reading(now, NoSection))
  {
    hide Survives, Reading, Sensible, PlainKey, TurnedOn, Reset, Joins, Begins, TurnsOn;
    KeysArePlain(w, target.section, target.key);
    if at: nat :| Reset(target, was, now, at) {
      NotReset(w, target, was, now, at);
    } else if at: nat :| Joins(target, [(target.key, target.value)], was, now, at) {
      JoinTurnsOn(w, target, was, now, at);
    } else {
      var blank :| Begins(target, [(target.key, target.value)], was, now, blank);
      OpenedOnce(w, target, was, now, blank);
    }
  }

  lemma NotReset(w: Writer, target: Resolved, was: seq<string>, now: seq<string>, at: nat)
    requires TurnsOn(w, target, Reading(was, NoSection))
    ensures !Reset(target, was, now, at)
  {
    hide Assigned, Reading, KeysIn, Claimed, HeadersOf, HasBuiltIn, SetsFolders, LastFlag, ValuesOf;
    if Reset(target, was, now, at) { AssignedIsRead(was, at, Named(target.section), target.key); }
  }

  lemma OpenedOnce(w: Writer, target: Resolved, was: seq<string>, now: seq<string>, blank: seq<string>)
    requires TurnsOn(w, target, Reading(was, NoSection))
    ensures !Begins(target, [(target.key, target.value)], was, now, blank)
  {
    hide Reading, KeysIn, Claimed, HeadersOf, HasBuiltIn, SetsFolders, LastFlag, ValuesOf, Means, Assignments, HeaderLine;
    if Begins(target, [(target.key, target.value)], was, now, blank) {
      UnmeantIsUnread(was, Named(target.section));
      ClaimedAreNamed(HeadersOf(Reading(was, NoSection)), w.rules.cap, Named(target.section).slug);
    }
  }

  lemma JoinTurnsOn(w: Writer, target: Resolved, was: seq<string>, now: seq<string>, at: nat)
    requires Joins(target, [(target.key, target.value)], was, now, at) && PlainKey(target.key) && Survives(target.value)
    requires TurnsOn(w, target, Reading(was, NoSection))
    ensures TurnedOn(w, target, Reading(was, NoSection), Reading(now, NoSection))
  {
    hide KeysIn, Reading, FolderList, BuiltIn, MeansSame, Assignments, SetsFor, PlainKey, Survives, SetsOf, Empties, Swapped, After, Writable, FolderKey;
    var section, key, body := Named(target.section), target.key, [(target.key, target.value)];
    var a, b := was[..at], was[at..];
    assert a + b == was;
    OneIsWritable(key, target.value);
    BodyReads(body, section);
    PutInReads(a, Assignments(body), b, section);
    OneSet(key, target.value, section, key);
    ChoiceTurnsOn(w.rules, Reading(was, NoSection), Reading(now, NoSection), Reading(a, NoSection), SetsFor(body, section), Reading(b, section), section.slug, key);
  }

  // ----- One file and one edit that show it -----

  const GB := "platform.gb"
  const EMPTY_SECTION := HeaderLine(GB) + "\n"

  lemma PlainTextSurvives(text: string)
    requires text != "" && forall i :: 0 <= i < |text| ==> !Control(text[i]) && !IsSpace(text[i]) && text[i] != ';' && text[i] != '#'
    ensures Survives(text) && Trim(text) == text
  {
    hide TrimLeft, TrimRight, CommentFrom;
    CommentIs(text, |text|);
    assert Strip(text) == text;
    TrimIs("", text, "");
    assert "" + text + "" == text;
  }

  lemma GbIsPlatform()
    ensures Survives(GB) && Trim(GB) == GB && CanonicalSection(GB) == GB && Named(GB) == Platform("gb") && '[' !in GB && ']' !in GB
  {
    hide Trim, Survives;
    PlainTextSurvives(GB);
    assert Lower(GB) == GB && GB[..9] == PLATFORM && GB[9..] == "gb" && PLATFORM + "gb" == GB;
    assert GB != "server" && GB != "sync" && GB != "downloads" && GB != "sources" && GB != "tico";
  }

  lemma EmptySectionReads()
    ensures Read(EMPTY_SECTION) == [Opened(Platform("gb"))] && WithoutBom(EMPTY_SECTION) == EMPTY_SECTION
  {
    hide ItemOf, ParserLines, Survives, Trim, CanonicalSection, Named;
    GbIsPlatform();
    HeaderReads(GB) by { assert Named(GB) != Unknown; }
    var lines := [Line(HeaderLine(GB), "\n")];
    assert lines[1..] == [] && Joined(lines) == EMPTY_SECTION && Texts(lines) == [HeaderLine(GB)];
    assert WithoutBom(EMPTY_SECTION) == EMPTY_SECTION by { assert EMPTY_SECTION[..3][0] == '[' != BOM[0]; }
    assert '\n' !in HeaderLine(GB);
    ParserReads(lines, NoSection);
    OneLine(HeaderLine(GB), NoSection);
    NothingRead(After([HeaderLine(GB)], NoSection));
  }

  lemma ChoicesArePlain(key: string)
    requires ChoiceKey(key)
    ensures Lower(Trim(key)) == key && !FolderKey(key)
  {
    hide Trim, Survives;
    NotTheSwitch();
    WordsArePlain();
    PlainTextSurvives(key);
  }

  /** The reading of a writer that maps one platform, and takes every value for what it is. */
  function OnePlatform(): Writer {
    Writer(Rules((s, k, v) => Some(v), (s, k) => "", v => if v == "" || '\n' in v then [] else [v], v => None, v => false,
                 map["gb" := Folders(["/gb"], [], [])], {"gb"}, 1),
           (s, k) => false, (s, k, v) => if FolderKey(k) then None else Some(v), 1, 65536)
  }

  lemma OnePlatformIsSensible()
    ensures Sensible(OnePlatform()) && HasBuiltIn(OnePlatform().rules, "gb") && BuiltIn(OnePlatform().rules, "gb", ROMS) == ["/gb"]
  {
    hide Survives, Trim;
    var w := OnePlatform();
    Distinctly();
    PlainTextSurvives("/gb");
    assert Join(["/gb"]) == "/gb" by { assert ["/gb"][..0] == []; }
    assert FolderKey(ROMS) && BuiltIn(w.rules, "gb", ROMS) == ["/gb"];
    forall slug, k | FolderKey(k) && BuiltIn(w.rules, slug, k) != [] ensures slug == "gb" && BuiltIn(w.rules, slug, k) == ["/gb"] {}
  }

  /** An emulator, or where to play, chosen in an empty section of a platform that is on by default. */
  function Choosing(key: string, value: string): seq<Assignment> { [Assignment(GB, key, value, false)] }

  function Size(texts: seq<string>): nat { if texts == [] then 0 else |texts[0]| + Size(texts[1..]) }

  lemma {:induction false} SizeConcat(a: seq<string>, b: seq<string>)
    ensures Size(a + b) == Size(a) + Size(b)
  {
    if a == [] {
      assert a + b == b;
    } else {
      assert (a + b)[0] == a[0] && (a + b)[1..] == a[1..] + b;
      SizeConcat(a[1..], b);
    }
  }

  lemma {:induction false} JoinedSize(lines: seq<Line>)
    requires WellFormed(lines)
    ensures |Joined(lines)| <= Size(Texts(lines)) + 2 * |lines| && Size(Texts(lines)) + |lines| <= |Joined(lines)| + 1
  {
    if lines != [] {
      assert Texts(lines)[1..] == Texts(lines[1..]);
      assert WellFormed(lines[1..]);
      JoinedSize(lines[1..]);
      if |lines| == 1 { assert lines[1..] == []; }
    }
  }

  /** One line more makes a text longer by no more than the line and one more end for every line. */
  lemma JoinedLonger(target: Resolved, text: string, written: string, bom: string, before: seq<Line>, after: seq<Line>, at: nat)
    requires LinesOf(text, bom, before) && LinesOf(written, bom, after)
    requires Joins(target, [(target.key, target.value)], Texts(before), Texts(after), at)
    ensures |written| <= 2 * |text| + |target.key| + |target.value| + 16
  {
    hide Joined, Texts, WellFormed, Size, Assignments, After;
    var was, now, line := Texts(before), Texts(after), Assignments([(target.key, target.value)]);
    JoinedSize(before);
    JoinedSize(after);
    OneSize(target);
    InsertedSize(was[..at], line, was[at..]);
    assert was[..at] + was[at..] == was;
  }

  lemma InsertedSize(a: seq<string>, line: seq<string>, b: seq<string>)
    ensures Size(a + line + b) == Size(a + b) + Size(line)
  {
    SizeConcat(a, b);
    SizeConcat(a, line);
    SizeConcat(a + line, b);
  }

  lemma OneSize(target: Resolved)
    ensures var line := Assignments([(target.key, target.value)]); |line| == 1 && Size(line) <= |target.key| + |target.value| + 4
  {
    var line := NewAssignment(target.key, target.value);
    assert Assignments([(target.key, target.value)]) == [line] && [line][1..] == [];
  }

  lemma EmptySectionEmpties(rules: Rules)
    requires "gb" in rules.on && HasBuiltIn(rules, "gb") && rules.cap > 0
    ensures Empties(rules, Read(EMPTY_SECTION), "gb") && Claimable(rules, Read(EMPTY_SECTION), "gb") && !Newer(rules, Read(EMPTY_SECTION))
    ensures forall section, key :: ValuesOf(Read(EMPTY_SECTION), section, key) == []
  {
    hide Read;
    EmptySectionReads();
    var events, gb := [Opened(Platform("gb"))], Platform("gb");
    OneHeader(gb, gb, ENABLED);
    assert HeadersOf(events) == [gb] && [gb][..0] == [];
    ClaimedOne([], gb, rules.cap);
    assert [] + [gb] == [gb];
    ClaimedOne([gb], gb, rules.cap);
    forall section, key ensures ValuesOf(events, section, key) == [] { OneHeader(gb, section, key); }
  }

  lemma ChoosingIsAccepted(w: Writer, key: string, out: Option<string>, target: Resolved, bom: string, before: seq<Line>, after: seq<Line>, written: string)
    requires w == OnePlatform() && ChoiceKey(key) && target == Resolved(GB, key, "tico", false)
    requires Decided(w, EMPTY_SECTION, Choosing(key, "tico"), out, [target], bom, before, after, written)
    ensures out == Some(written)
  {
    hide Read, Sensible, Trim, Lower, CanonicalSection, Keeps, MeansSame, Joined, WellFormed, Texts, Reading, Survives, Claimable, BodyFor, AllHold, Newer, ValuesOf, Reset, Begins, Joins, HasBuiltIn, Unassigned, Resolves, Assigned, LastFlag, SetsFolders, KeysIn, Claimed, HeadersOf;
    var was, now, body := Texts(before), Texts(after), [(target.key, target.value)];
    OnePlatformIsSensible();
    GbIsPlatform();
    EmptySectionEmpties(w.rules);
    NotTheSwitch();
    assert Base(EMPTY_SECTION) == EMPTY_SECTION;
    assert TurnsOn(w, target, Read(EMPTY_SECTION));
    forall at: nat ensures !Spoils(target, was, at) && !Reset(target, was, now, at) { NotReset(w, target, was, now, at); NotSpoiled(w, target, was, at); }
    forall blank ensures !Begins(target, body, was, now, blank) { OpenedOnce(w, target, was, now, blank); }
    ChoiceIsOneLine(w, target, Read(EMPTY_SECTION), was);
    var at: nat :| Joins(target, body, was, now, at);
    JoinedLonger(target, EMPTY_SECTION, written, bom, before, after, at);
    assert |EMPTY_SECTION| == 14 && |written| <= w.maxBytes;
    assert Receptive(w, target, Read(EMPTY_SECTION));
    OneIsAccepted(w, EMPTY_SECTION, Choosing(key, "tico"), out, [target], bom, before, after, written);
  }

  lemma NotSpoiled(w: Writer, target: Resolved, was: seq<string>, at: nat)
    requires TurnsOn(w, target, Reading(was, NoSection))
    ensures !Spoils(target, was, at)
  {
    hide Assigned, Reading, KeysIn, Claimed, HeadersOf, HasBuiltIn, SetsFolders, LastFlag, ValuesOf, Absorbs;
    if Spoils(target, was, at) { AssignedIsRead(was, at, Named(target.section), target.key); }
  }

  /** The edit is not turned away, and whatever was decided of it, it was accepted, and the platform's folders,
      that the file had unmapped, are mapped. */
  lemma ChoosingTurnsOn(key: string, out: Option<string>, resolved: seq<Resolved>, bom: string, before: seq<Line>, after: seq<Line>, written: string)
    requires ChoiceKey(key) && Decided(OnePlatform(), EMPTY_SECTION, Choosing(key, "tico"), out, resolved, bom, before, after, written)
    ensures out == Some(written) && resolved == [Resolved(GB, key, "tico", false)]
    ensures TurnedOn(OnePlatform(), resolved[0], Read(EMPTY_SECTION), Read(written))
    ensures FolderList(OnePlatform().rules, Read(EMPTY_SECTION), "gb", ROMS) == [] && FolderList(OnePlatform().rules, Read(written), "gb", ROMS) == ["/gb"]
  {
    hide Read, Sensible, HasBuiltIn, Trim, Lower, CanonicalSection, Named, Placed, Keeps, MeansSame, Joined, WellFormed, Texts, Reading, FolderList, Survives, BuiltIn, Empties, Claimable, BodyOf, Joins, HeaderLine, AllHold, Newer;
    var w, edit := OnePlatform(), Choosing(key, "tico");
    OnePlatformIsSensible();
    GbIsPlatform();
    ChoicesArePlain(key);
    assert Resolves(w, edit[0], resolved[0]);
    assert resolved == [resolved[0]];
    EmptySectionEmpties(w.rules);
    assert out == Some(written) by { ChoosingIsAccepted(w, key, out, resolved[0], bom, before, after, written); }
    OneMeansSame(w, EMPTY_SECTION, edit, resolved, bom, before, after, written);
  }

  lemma ChoosingIsNotTurnedAway(key: string)
    requires ChoiceKey(key)
    ensures !TurnedAway(OnePlatform(), EMPTY_SECTION, Choosing(key, "tico"))
  {
    hide Read, Trim, Lower, CanonicalSection, Newer, Survives, HasBuiltIn, Empties, Claimable;
    GbIsPlatform();
    ChoicesArePlain(key);
    OnePlatformIsSensible();
    EmptySectionEmpties(OnePlatform().rules);
    PlainTextSurvives("tico");
    assert Acceptable(OnePlatform(), Choosing(key, "tico")[0]);
  }

  /** The editor itself, at that file. */
  method ChooseEmulator(key: string) returns (out: Option<string>)
    requires ChoiceKey(key)
    ensures out.Some? && FolderList(OnePlatform().rules, Read(EMPTY_SECTION), "gb", ROMS) == []
    ensures FolderList(OnePlatform().rules, Read(out.value), "gb", ROMS) == ["/gb"]
  {
    hide Decided, TurnedAway, Sensible, HasBuiltIn, BuiltIn, FolderList, Read;
    OnePlatformIsSensible();
    ChoosingIsNotTurnedAway(key);
    out := ApplyEdit(OnePlatform(), EMPTY_SECTION, Choosing(key, "tico"));
    ghost var resolved, bom, before, after, written :| Decided(OnePlatform(), EMPTY_SECTION, Choosing(key, "tico"), out, resolved, bom, before, after, written);
    ChoosingTurnsOn(key, out, resolved, bom, before, after, written);
  }

  // ----- A comment that runs into a value -----

  const NOTED := "enabled = ; note"

  /** Set to `true`, an empty value with a comment behind it reads as something else. */
  lemma CommentRunsIn()
    ensures ItemOf(NOTED) == Setting("enabled", "") && Survives("true") && Absorbs(NOTED, "true")
    ensures ItemOf(Rewritten(NOTED, "true")).Setting? && ItemOf(Rewritten(NOTED, "true")).key == "enabled"
    ensures ItemOf(Rewritten(NOTED, "true")).value != "true"
  {
    hide Trim, TrimLeft, TrimRight, CommentFrom, Rewritten, IndexOf;
    NotedReads();
    PlainTextSurvives("true");
    RewrittenReads(NOTED, "true");
  }

  lemma NotedReads()
    ensures Strip(NOTED) == "enabled = " && ItemOf(NOTED) == Setting("enabled", "") && Absorbs(NOTED, "true")
  {
    hide TrimLeft, TrimRight, Trim, CommentFrom, ItemOf, IndexOf, Lower;
    NotedIsStripped();
    ItemOfStripped(NOTED);
    IndexAfter("enabled ", '=', " ");
    TrimIs("", "enabled", " ");
    TrimIs("", "", " ");
    assert "" + "enabled" + " " == "enabled " && "" + "" + " " == " " && "enabled " + "=" + " " == "enabled = ";
    assert "enabled = "[..8] == "enabled " && "enabled = "[9..] == " ";
    PlainWord("enabled");
  }

  lemma NotedIsStripped()
    ensures Strip(NOTED) == "enabled = "
  {
    hide CommentFrom;
    CommentIs(NOTED, 10);
  }
}
