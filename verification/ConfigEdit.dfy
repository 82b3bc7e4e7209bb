/** Editing config.ini (core/src/config_write.cpp): one setting means something else afterwards, and
    every line that was not asked about is still there, as it was and where it was. */
module ConfigEdit {
  import opened Options
  import opened ConfigText
  import opened ConfigLines
  import opened ConfigMeaning

  // ----- Lines that stay -----

  /** `a` is `b` with some of it left out. */
  ghost predicate Sub(a: seq<string>, b: seq<string>) {
    a == [] || (b != [] && ((a[0] == b[0] && Sub(a[1..], b[1..])) || Sub(a, b[1..])))
  }

  lemma {:induction false} SubSame(a: seq<string>)
    ensures Sub(a, a)
  {
    if a != [] { SubSame(a[1..]); }
  }

  lemma {:induction false} SubAfter(y: seq<string>, z: seq<string>)
    ensures Sub(z, y + z)
  {
    if y == [] {
      assert y + z == z;
      SubSame(z);
    } else {
      assert (y + z)[1..] == y[1..] + z;
      SubAfter(y[1..], z);
    }
  }

  lemma {:induction false} SubInsert(x: seq<string>, y: seq<string>, z: seq<string>)
    ensures Sub(x + z, x + y + z)
  {
    if x == [] {
      assert x + z == z && x + y + z == y + z;
      SubAfter(y, z);
    } else {
      assert (x + z)[0] == x[0] == (x + y + z)[0];
      assert (x + z)[1..] == x[1..] + z && (x + y + z)[1..] == x[1..] + y + z;
      SubInsert(x[1..], y, z);
    }
  }

  lemma {:induction false} SubAgain(a: seq<string>, b: seq<string>, c: seq<string>)
    requires Sub(a, b) && Sub(b, c)
    ensures Sub(a, c)
    decreases |c|
  {
    if a != [] {
      if b[0] == c[0] && Sub(b[1..], c[1..]) {
        if a[0] == b[0] && Sub(a[1..], b[1..]) { SubAgain(a[1..], b[1..], c[1..]); } else { SubAgain(a, b[1..], c[1..]); }
      } else {
        SubAgain(a, b, c[1..]);
      }
    }
  }

  /** A setting, by its section and its key. */
  datatype Name = Name(section: Section, key: string)

  ghost predicate Sets(line: string, at: Section, names: set<Name>) {
    ItemOf(line).Setting? && Name(at, ItemOf(line).key) in names
  }

  /** The lines that set none of `names`, in order. */
  ghost function Kept(lines: seq<string>, at: Section, names: set<Name>): seq<string> {
    if lines == [] then []
    else (if Sets(lines[0], at, names) then [] else [lines[0]]) + Kept(lines[1..], Next(lines[0], at), names)
  }

  lemma {:induction false} KeptConcat(a: seq<string>, b: seq<string>, at: Section, names: set<Name>)
    ensures Kept(a + b, at, names) == Kept(a, at, names) + Kept(b, After(a, at), names)
  {
    hide ItemOf;
    if a == [] {
      assert a + b == b;
    } else {
      assert (a + b)[0] == a[0] && (a + b)[1..] == a[1..] + b;
      KeptConcat(a[1..], b, Next(a[0], at), names);
    }
  }

  /** Lines of one section put in, or taken out, that set `names` or come on top. */
  lemma PutIn(a: seq<string>, more: seq<string>, b: seq<string>, section: Section, names: set<Name>)
    requires After(a, NoSection) == section == After(more, section)
    ensures Sub(Kept(a + b, NoSection, names), Kept(a + more + b, NoSection, names))
  {
    ReadingConcat(a, more, NoSection);
    KeptConcat(a, b, NoSection, names);
    KeptConcat(a, more, NoSection, names);
    KeptConcat(a + more, b, NoSection, names);
    SubInsert(Kept(a, NoSection, names), Kept(more, section, names), Kept(b, section, names));
  }

  lemma PutAtEnd(a: seq<string>, more: seq<string>, names: set<Name>)
    ensures Sub(Kept(a, NoSection, names), Kept(a + more, NoSection, names))
  {
    KeptConcat(a, more, NoSection, names);
    var kept := Kept(a, NoSection, names);
    SubInsert(kept, Kept(more, After(a, NoSection), names), []);
    assert kept + [] == kept && kept + Kept(more, After(a, NoSection), names) + [] == kept + Kept(more, After(a, NoSection), names);
  }

  /** A line that sets one of `names`, replaced by another that sets it, or taken out. */
  lemma OneOut(lines: seq<string>, i: nat, now: seq<string>, section: Section, key: string, names: set<Name>)
    requires Assigned(lines, i, section, key) && Name(section, key) in names
    requires now == [] || (|now| == 1 && ItemOf(now[0]).Setting? && ItemOf(now[0]).key == key)
    ensures Kept(lines[..i] + now + lines[i + 1..], NoSection, names) == Kept(lines, NoSection, names)
  {
    hide ItemOf;
    var a, b := lines[..i], lines[i + 1..];
    assert lines == a + [lines[i]] + b;
    KeptConcat(a, [lines[i]], NoSection, names);
    KeptConcat(a + [lines[i]], b, NoSection, names);
    KeptConcat(a, now, NoSection, names);
    KeptConcat(a + now, b, NoSection, names);
    ReadingConcat(a, [lines[i]], NoSection);
    ReadingConcat(a, now, NoSection);
    KeptOne(lines[i], section, names);
    if now != [] {
      assert now == [now[0]];
      KeptOne(now[0], section, names);
    }
  }

  lemma KeptOne(line: string, at: Section, names: set<Name>)
    ensures Kept([line], at, names) == if Sets(line, at, names) then [] else [line]
    ensures After([line], at) == Next(line, at)
  {
    assert [line][1..] == [];
  }

  // ----- The same, in events -----

  lemma ReplacedReads(lines: seq<string>, i: nat, now: string, section: Section, key: string)
    requires Assigned(lines, i, section, key) && ItemOf(now).Setting? && ItemOf(now).key == key
    ensures Swapped(Reading(lines, NoSection), Reading(lines[i := now], NoSection), Reading(lines[..i], NoSection),
                    EventOf(lines[i], section), EventOf(now, section), Reading(lines[i + 1..], section))
  {
    hide ItemOf;
    var a, b := lines[..i], lines[i + 1..];
    assert lines == a + [lines[i]] + b && lines[i := now] == a + [now] + b;
    ReadingConcat(a, [lines[i]], NoSection);
    ReadingConcat(a + [lines[i]], b, NoSection);
    ReadingConcat(a, [now], NoSection);
    ReadingConcat(a + [now], b, NoSection);
    OneLine(lines[i], section);
    OneLine(now, section);
  }

  lemma PutInReads(a: seq<string>, more: seq<string>, b: seq<string>, section: Section)
    requires After(a, NoSection) == section == After(more, section)
    ensures Swapped(Reading(a + b, NoSection), Reading(a + more + b, NoSection), Reading(a, NoSection), [], Reading(more, section), Reading(b, section))
  {
    ReadingConcat(a, b, NoSection);
    ReadingConcat(a, more, NoSection);
    ReadingConcat(a + more, b, NoSection);
    assert Reading(a, NoSection) + [] == Reading(a, NoSection);
  }

  /** What new assignments say, and that they open nothing. */
  ghost predicate Writable(body: seq<(string, string)>) {
    forall i :: 0 <= i < |body| ==> PlainKey(body[i].0) && Survives(body[i].1)
  }

  ghost function SetsFor(body: seq<(string, string)>, section: Section): (events: seq<Event>)
    ensures |events| == |body|
  {
    seq(|body|, i requires 0 <= i < |body| => Set(section, body[i].0, body[i].1))
  }

  lemma {:induction false} BodyReads(body: seq<(string, string)>, section: Section)
    requires Writable(body)
    ensures Reading(Assignments(body), section) == SetsFor(body, section) && After(Assignments(body), section) == section
    ensures SetsOf(SetsFor(body, section), section) && NoFeeds(body)
  {
    hide ItemOf, PlainKey, Survives, NewAssignment, Reading, After;
    NoFeedsWritten(body);
    if body == [] {
      NoneAfter(section);
      assert Assignments(body) == [] && SetsFor(body, section) == [];
    } else {
      var first, rest := NewAssignment(body[0].0, body[0].1), body[1..];
      assert Assignments(body) == [first] + Assignments(rest);
      NewAssignmentReads(body[0].0, body[0].1);
      BodyReads(rest, section);
      ReadingConcat([first], Assignments(rest), section);
      OneLine(first, section);
      assert SetsFor(body, section) == [Set(section, body[0].0, body[0].1)] + SetsFor(rest, section);
    }
  }

  lemma NoneAfter(at: Section)
    ensures After([], at) == at && Reading([], at) == []
  {
  }

  lemma NoFeedsWritten(body: seq<(string, string)>)
    requires Writable(body)
    ensures NoFeeds(body)
  {
    hide PlainKey, Survives;
    forall i | 0 <= i < |body| ensures '\n' !in body[i].0 && '\n' !in body[i].1 {
      NoFeedIn(body[i].0, body[i].1);
    }
  }

  lemma NoFeedIn(key: string, value: string)
    ensures (PlainKey(key) ==> '\n' !in key) && (Survives(value) ==> '\n' !in value)
  {
    hide Trim, Strip;
    assert Control('\n');
  }

  // ----- What is asked, and what may be -----

  datatype Assignment = Assignment(section: string, key: string, value: string, remove: bool)

  /** An assignment with its names in canonical form and its value as it will be written. */
  datatype Resolved = Resolved(section: string, key: string, value: string, remove: bool)

  function NameOf(target: Resolved): Name { Name(Named(target.section), target.key) }

  datatype Kind = Scalar | PathList | Choice | NotASetting

  /** The settings this build has, how their values are normalised, and how much is accepted. */
  datatype Writer = Writer(rules: Rules, known: (Section, string) -> bool, normal: (Section, string, string) -> Option<string>,
                           maxEdit: nat, maxBytes: nat)

  function KindOf(w: Writer, section: string, key: string): Kind {
    match Named(section)
    case Platform(_) => if FolderKey(key) then PathList else if ChoiceKey(key) then Choice else NotASetting
    case Unknown => NotASetting
    case other => if w.known(other, key) then Scalar else NotASetting
  }

  /** The text of a folder list. */
  function Join(paths: seq<string>): string {
    if paths == [] then ""
    else
      var before := Join(paths[..|paths| - 1]);
      (if before == "" then "" else before + ", ") + paths[|paths| - 1]
  }

  /** What holds of the tables: keys are plain words, built-in folders and normal values read back as
      themselves, and no path has a line feed in it. */
  ghost predicate Sensible(w: Writer) {
    && (forall s, k :: w.known(s, k) ==> PlainKey(k))
    && (forall slug, k :: FolderKey(k) && BuiltIn(w.rules, slug, k) != [] ==>
                            Survives(Join(BuiltIn(w.rules, slug, k)))
                            && w.rules.paths(Join(BuiltIn(w.rules, slug, k))) == BuiltIn(w.rules, slug, k))
    && (forall s, k, value :: (w.known(s, k) || (s.Platform? && ChoiceKey(k))) && w.normal(s, k, value).Some? ==>
                                w.rules.usable(s, k, w.normal(s, k, value).value) == w.normal(s, k, value))
    && (forall slug, k, value :: FolderKey(k) && w.normal(Platform(slug), k, value).Some? ==>
                                   Join(w.rules.paths(w.normal(Platform(slug), k, value).value)) == w.normal(Platform(slug), k, value).value)
    && (forall slug, k :: FolderKey(k) ==> NoFeedInAny(BuiltIn(w.rules, slug, k)))
    && (forall value :: NoFeedInAny(w.rules.paths(value))) && !w.rules.newer("1")
  }

  ghost predicate NoFeedInAny(paths: seq<string>) { forall path :: path in paths ==> '\n' !in path }

  lemma KeysArePlain(w: Writer, section: string, key: string)
    requires Sensible(w) && KindOf(w, section, key) != NotASetting
    ensures PlainKey(key)
  {
    if FolderKey(key) || ChoiceKey(key) { WordsArePlain(); }
  }

  lemma WordsArePlain()
    ensures PlainKey(ROMS) && PlainKey(SAVES) && PlainKey(STATES) && PlainKey(EMULATOR) && PlainKey(PLAY_WITH)
  {
    PlainWord(ROMS);
    PlainWord(SAVES);
    PlainWord(STATES);
    PlainWord(EMULATOR);
    PlainWord(PLAY_WITH);
  }

  lemma PlainWord(word: string)
    requires word != "" && forall i :: 0 <= i < |word| ==> 'a' <= word[i] <= 'z' || word[i] == '_'
    ensures PlainKey(word)
  {
    assert Lower(word) == word;
  }

  // ----- The lines of a section that had no folders -----

  function LineFor(name: string, key: string, value: string, paths: seq<string>): seq<(string, string)> {
    if name == key then [(name, value)] else if paths != [] then [(name, Join(paths))] else []
  }

  /** The lines for a folder: those of every list in force, with the new one among them. */
  function BodyFor(key: string, value: string, mapped: Folders): seq<(string, string)> {
    if mapped == Folders([], [], []) then [(key, value)]
    else LineFor(ROMS, key, value, mapped.roms) + LineFor(SAVES, key, value, mapped.saves) + LineFor(STATES, key, value, mapped.states)
  }

  function InForce(rules: Rules, events: seq<Event>, slug: string): Folders {
    Folders(FolderList(rules, events, slug, ROMS), FolderList(rules, events, slug, SAVES), FolderList(rules, events, slug, STATES))
  }

  ghost predicate Lines(body: seq<(string, string)>) {
    forall i :: 0 <= i < |body| ==> PlainKey(body[i].0) && '\n' !in body[i].1
  }

  /** What the last assignment of an edit for `name` of `section` makes of it, or what was in force. */
  method BodyLine(name: string, section: string, edit: seq<Resolved>, paths: seq<string>) returns (body: seq<(string, string)>)
    requires PlainKey(name) && NoFeedInAny(paths) && forall r :: r in edit ==> '\n' !in r.value
    ensures Lines(body)
    ensures forall target :: edit == [target] && !target.remove && target.section == section ==> body == LineFor(name, target.key, target.value, paths)
  {
    hide PlainKey;
    var asked: Option<Resolved> := None;
    for i := 0 to |edit|
      invariant asked.Some? ==> asked.value in edit
      invariant |edit| == 1 && i == 1 ==> asked == if edit[0].section == section && edit[0].key == name then Some(edit[0]) else None
      invariant i == 0 ==> asked == None
    {
      if edit[i].section == section && edit[i].key == name {
        asked := Some(edit[i]);
      }
    }
    JoinHasNoFeed(paths);
    if asked.Some? {
      body := if asked.value.remove then [] else [(name, asked.value.value)];
    } else {
      body := if paths != [] then [(name, Join(paths))] else [];
    }
  }

  lemma {:induction false} JoinHasNoFeed(paths: seq<string>)
    requires NoFeedInAny(paths)
    ensures '\n' !in Join(paths)
  {
    if paths != [] {
      JoinHasNoFeed(paths[..|paths| - 1]);
      assert paths[|paths| - 1] in paths;
    }
  }

  method NewSectionBody(w: Writer, target: Resolved, edit: seq<Resolved>, mapped: Folders) returns (body: seq<(string, string)>)
    requires Sensible(w) && KindOf(w, target.section, target.key) != NotASetting
    requires '\n' !in target.value && forall r :: r in edit ==> '\n' !in r.value
    requires NoFeedInAny(mapped.roms) && NoFeedInAny(mapped.saves) && NoFeedInAny(mapped.states)
    ensures Lines(body)
    ensures KindOf(w, target.section, target.key) != PathList ==> body == [(target.key, target.value)]
    ensures KindOf(w, target.section, target.key) == PathList && edit == [target] && !target.remove ==>
              body == BodyFor(target.key, target.value, mapped)
  {
    hide Sensible, PlainKey;
    KeysArePlain(w, target.section, target.key);
    if KindOf(w, target.section, target.key) != PathList || mapped == Folders([], [], []) {
      body := [(target.key, target.value)];
    } else {
      WordsArePlain();
      var roms := BodyLine(ROMS, target.section, edit, mapped.roms);
      var saves := BodyLine(SAVES, target.section, edit, mapped.saves);
      var states := BodyLine(STATES, target.section, edit, mapped.states);
      body := roms + saves + states;
    }
  }

  // ----- What those lines mean -----

  lemma SetsForConcat(a: seq<(string, string)>, b: seq<(string, string)>, s: Section)
    ensures SetsFor(a + b, s) == SetsFor(a, s) + SetsFor(b, s)
  {
  }

  lemma OneSet(name: string, value: string, s: Section, k: string)
    ensures ValuesOf(SetsFor([(name, value)], s), s, k) == if name == k then [value] else []
    ensures KeysIn(SetsFor([(name, value)], s), s) == {name}
  {
    var events := SetsFor([(name, value)], s);
    assert events == [Set(s, name, value)] && events[1..] == [];
  }

  lemma LineSets(name: string, key: string, value: string, paths: seq<string>, s: Section, k: string)
    ensures var body := LineFor(name, key, value, paths);
            ValuesOf(SetsFor(body, s), s, k)
            == if name != k then [] else if name == key then [value] else if paths != [] then [Join(paths)] else []
    ensures KeysIn(SetsFor(LineFor(name, key, value, paths), s), s) == if name == key || paths != [] then {name} else {}
  {
    hide ValuesOf, KeysIn, Join;
    OneSet(name, value, s, k);
    OneSet(name, Join(paths), s, k);
    NoneSet(s, k);
  }

  lemma NoneSet(s: Section, k: string)
    ensures ValuesOf(SetsFor([], s), s, k) == [] && KeysIn(SetsFor([], s), s) == {}
  {
  }

  lemma BodySets(key: string, value: string, mapped: Folders, s: Section, k: string)
    requires FolderKey(key) && FolderKey(k) && mapped != Folders([], [], [])
    ensures var sets := SetsFor(BodyFor(key, value, mapped), s);
            ValuesOf(sets, s, k) == if k == key then [value] else if At(mapped, k) != [] then [Join(At(mapped, k))] else []
    ensures var keys := KeysIn(SetsFor(BodyFor(key, value, mapped), s), s);
            key in keys && forall k :: k in keys ==> FolderKey(k)
  {
    hide ValuesOf, KeysIn, Join, LineFor;
    var a, b, c := LineFor(ROMS, key, value, mapped.roms), LineFor(SAVES, key, value, mapped.saves), LineFor(STATES, key, value, mapped.states);
    LineSets(ROMS, key, value, mapped.roms, s, k);
    LineSets(SAVES, key, value, mapped.saves, s, k);
    LineSets(STATES, key, value, mapped.states, s, k);
    SetsForConcat(a, b, s);
    SetsForConcat(a + b, c, s);
    ValuesConcat(SetsFor(a, s), SetsFor(b, s), s, k);
    ValuesConcat(SetsFor(a + b, s), SetsFor(c, s), s, k);
    KeysConcat(SetsFor(a, s), SetsFor(b, s), s);
    KeysConcat(SetsFor(a + b, s), SetsFor(c, s), s);
    Distinctly();
  }

  lemma Distinctly()
    ensures ROMS != SAVES && ROMS != STATES && SAVES != STATES
  {
    assert ROMS[0] == 'r' && SAVES[1] == 'a' && STATES[1] == 't' && SAVES[0] == 's' && STATES[0] == 's';
  }

  /** A platform without a folder line of its own has its built-in folders, or none. */
  lemma InForceIsBuiltIn(rules: Rules, events: seq<Event>, slug: string, k: string)
    requires ValuesOf(events, Platform(slug), k) == []
    ensures FolderList(rules, events, slug, k) in {[], BuiltIn(rules, slug, k)}
  {
  }

  lemma BodyCarries(w: Writer, was: seq<Event>, slug: string, key: string, value: string)
    requires Sensible(w) && FolderKey(key) && Survives(value)
    requires forall k :: FolderKey(k) ==> ValuesOf(was, Platform(slug), k) == []
    ensures var body := BodyFor(key, value, InForce(w.rules, was, slug));
            Writable(body) && Carries(w.rules, was, SetsFor(body, Platform(slug)), slug, key)
  {
    hide ValuesOf, KeysIn, Join, PlainKey, Survives, FolderList, BuiltIn;
    var mapped, s := InForce(w.rules, was, slug), Platform(slug);
    var body := BodyFor(key, value, mapped);
    WordsArePlain();
    forall k | FolderKey(k) ensures At(mapped, k) == FolderList(w.rules, was, slug, k)
                            ensures At(mapped, k) != [] ==> Survives(Join(At(mapped, k))) && w.rules.paths(Join(At(mapped, k))) == At(mapped, k)
    {
      Distinctly();
      InForceIsBuiltIn(w.rules, was, slug, k);
    }
    assert FolderKey(ROMS) && FolderKey(SAVES) && FolderKey(STATES);
    OneSet(key, value, s, key);
    if mapped != Folders([], [], []) { BodySets(key, value, mapped, s, key); }
    forall k | FolderKey(k) && k != key
      ensures var values := ValuesOf(SetsFor(body, s), s, k);
              if values == [] then FolderList(w.rules, was, slug, k) == []
              else w.rules.paths(values[|values| - 1]) == FolderList(w.rules, was, slug, k)
    {
      if mapped == Folders([], [], []) {
        OneSet(key, value, s, k);
      } else {
        BodySets(key, value, mapped, s, k);
      }
    }
    AreSets(body, s);
  }

  lemma AreSets(body: seq<(string, string)>, s: Section)
    ensures SetsOf(SetsFor(body, s), s)
  {
  }

  // ----- One assignment -----

  lemma {:induction false} LinesAreSettings(body: seq<(string, string)>, section: Section)
    requires Lines(body)
    ensures After(Assignments(body), section) == section && NoFeeds(body)
  {
    hide PlainKey, ItemOf;
    forall i | 0 <= i < |body| ensures '\n' !in body[i].0 { NoFeedIn(body[i].0, ""); }
    if body != [] {
      var first, rest := NewAssignment(body[0].0, body[0].1), body[1..];
      assert Assignments(body) == [first] + Assignments(rest);
      assert ([first] + Assignments(rest))[1..] == Assignments(rest);
      NewAssignmentSets(body[0].0, body[0].1);
      LinesAreSettings(rest, section);
    }
  }

  /** The first line is the one an edit never reaches. */
  ghost predicate SameStart(was: seq<string>, now: seq<string>) { was != [] ==> now != [] && now[0] == was[0] }

  /** What every assignment keeps: all the lines but those that set a name of the edit. */
  ghost predicate Keeps(was: seq<string>, now: seq<string>, names: set<Name>) {
    SameStart(was, now) && Sub(Kept(was, NoSection, names), Kept(now, NoSection, names))
  }

  lemma KeepsSame(lines: seq<string>, names: set<Name>)
    ensures Keeps(lines, lines, names)
  {
    SubSame(Kept(lines, NoSection, names));
  }

  lemma KeepsAgain(a: seq<string>, b: seq<string>, c: seq<string>, names: set<Name>)
    requires Keeps(a, b, names) && Keeps(b, c, names)
    ensures Keeps(a, c, names)
  {
    SubAgain(Kept(a, NoSection, names), Kept(b, NoSection, names), Kept(c, NoSection, names));
  }

  lemma NeverFirst(lines: seq<string>, i: int, section: Section, key: string)
    requires Assigned(lines, i, section, key) && section != NoSection
    ensures i > 0
  {
    assert lines[..0] == [] && After([], NoSection) == NoSection;
  }

  lemma OneOutKeeps(lines: seq<string>, i: nat, now: seq<string>, section: Section, key: string, names: set<Name>)
    requires Assigned(lines, i, section, key) && Name(section, key) in names && section != NoSection
    requires now == [] || (|now| == 1 && ItemOf(now[0]).Setting? && ItemOf(now[0]).key == key)
    ensures Keeps(lines, lines[..i] + now + lines[i + 1..], names)
  {
    NeverFirst(lines, i, section, key);
    OneOut(lines, i, now, section, key, names);
    SubSame(Kept(lines, NoSection, names));
  }

  ghost predicate Unassigned(lines: seq<string>, section: Section, key: string) {
    forall i :: 0 <= i < |lines| ==> !Assigned(lines, i, section, key)
  }

  ghost predicate AssignedAt(lines: seq<string>, hits: seq<nat>, section: Section, key: string) {
    && (forall i :: i in hits <==> Assigned(lines, i, section, key))
    && (forall i, j :: 0 <= i < j < |hits| ==> hits[i] < hits[j])
  }

  /** Remove every line that sets the key, the last one first: all the others are left, and no more. */
  method RemoveAll(doc: Document, hits: seq<nat>, ghost target: Resolved, ghost names: set<Name>)
    requires doc.Valid() && NameOf(target) in names && Named(target.section) != NoSection
    requires AssignedAt(Texts(doc.lines), hits, Named(target.section), target.key)
    modifies doc`lines
    ensures doc.Valid() && Keeps(Texts(old(doc.lines)), Texts(doc.lines), names)
    ensures Texts(doc.lines) == Kept(Texts(old(doc.lines)), NoSection, {NameOf(target)})
  {
    hide ItemOf, Keeps, WellFormed, Texts, AssignedAt, Kept, Assigned;
    ghost var was, section, only := Texts(doc.lines), Named(target.section), {NameOf(target)};
    KeepsSame(was, names);
    var left := |hits|;
    assert hits[..left] == hits;
    while left > 0
      invariant left <= |hits| && doc.Valid() && Keeps(was, Texts(doc.lines), names)
      invariant AssignedAt(Texts(doc.lines), hits[..left], section, target.key)
      invariant Kept(Texts(doc.lines), NoSection, only) == Kept(was, NoSection, only)
    {
      left := left - 1;
      ghost var lines, i := Texts(doc.lines), hits[left];
      assert hits[..left + 1][left] == i && hits[..left + 1][..left] == hits[..left];
      LastOut(lines, hits[..left + 1], section, target.key);
      OneOutKeeps(lines, i, [], section, target.key, names);
      OneOut(lines, i, [], section, target.key, only);
      assert lines[..i] + [] == lines[..i];
      doc.Erase(hits[left]);
      KeepsAgain(was, lines, Texts(doc.lines), names);
    }
    NoneLeft(Texts(doc.lines), hits[..0], section, target.key);
  }

  lemma LastOut(lines: seq<string>, hits: seq<nat>, section: Section, key: string)
    requires hits != [] && AssignedAt(lines, hits, section, key)
    ensures var i := hits[|hits| - 1];
            i < |lines| && Assigned(lines, i, section, key) && AssignedAt(lines[..i] + lines[i + 1..], hits[..|hits| - 1], section, key)
  {
    hide ItemOf;
    var n, before := |hits| - 1, hits[..|hits| - 1];
    var gone := hits[n];
    assert gone in hits && Assigned(lines, gone, section, key);
    var now := lines[..gone] + lines[gone + 1..];
    forall i ensures i in before <==> Assigned(now, i, section, key) {
      if 0 <= i < gone {
        assert now[..i] == lines[..i] && now[i] == lines[i];
        assert i in before <==> i in hits;
      } else if gone <= i < |now| {
        PastOut(lines, gone, i, section, key);
        assert i + 1 !in hits;
      }
    }
  }

  lemma PastOut(lines: seq<string>, gone: nat, i: nat, section: Section, key: string)
    requires Assigned(lines, gone, section, key) && gone <= i < |lines| - 1
    ensures Assigned(lines[..gone] + lines[gone + 1..], i, section, key) <==> Assigned(lines, i + 1, section, key)
  {
    hide ItemOf;
    var now, between := lines[..gone] + lines[gone + 1..], lines[gone + 1..i + 1];
    assert now[i] == lines[i + 1] && now[..i] == lines[..gone] + between && lines[..i + 1] == lines[..gone] + [lines[gone]] + between;
    ReadingConcat(lines[..gone], between, NoSection);
    ReadingConcat(lines[..gone], [lines[gone]], NoSection);
    ReadingConcat(lines[..gone] + [lines[gone]], between, NoSection);
    OneLine(lines[gone], section);
  }

  lemma NoneLeft(lines: seq<string>, hits: seq<nat>, section: Section, key: string)
    requires AssignedAt(lines, hits, section, key) && hits == []
    ensures Kept(lines, NoSection, {Name(section, key)}) == lines
  {
    hide Kept, Assigned;
    assert forall i :: i in hits <==> Assigned(lines, i, section, key);
    UnassignedAreKept(lines, section, key);
  }

  lemma {:induction false} UnassignedAreKept(lines: seq<string>, section: Section, key: string)
    requires Unassigned(lines, section, key)
    ensures Kept(lines, NoSection, {Name(section, key)}) == lines
  {
    hide ItemOf;
    if lines != [] {
      var n := |lines| - 1;
      var a, last := lines[..n], lines[n];
      assert lines == a + [last] && !Assigned(lines, n, section, key);
      forall i | 0 <= i < n ensures !Assigned(a, i, section, key) {
        assert a[..i] == lines[..i] && !Assigned(lines, i, section, key);
      }
      UnassignedAreKept(a, section, key);
      KeptConcat(a, [last], NoSection, {Name(section, key)});
      KeptOne(last, After(a, NoSection), {Name(section, key)});
    }
  }

  /** One line differs, and keeps its text up to the `=` and its comment. */
  ghost predicate Reworded(was: seq<string>, now: seq<string>, at: nat) {
    at < |was| == |now| && now == was[at := now[at]] && KeepsAround(was[at], now[at])
  }

  ghost predicate LastAssigned(lines: seq<string>, at: nat, section: Section, key: string) {
    Assigned(lines, at, section, key) && forall i :: at < i < |lines| ==> !Assigned(lines, i, section, key)
  }

  /** The last line that sets the key is worded anew. */
  ghost predicate Reset(target: Resolved, was: seq<string>, now: seq<string>, at: nat) {
    LastAssigned(was, at, Named(target.section), target.key) && now == was[at := Rewritten(was[at], target.value)]
  }

  ghost predicate Folderless(lines: seq<string>, section: Section) {
    forall k :: FolderKey(k) ==> ValuesOf(Reading(lines, NoSection), section, k) == []
  }

  /** The lines an assignment is written as: the first folder of a section brings along those in force. */
  ghost function BodyOf(w: Writer, target: Resolved, inForce: seq<Event>, was: seq<string>): seq<(string, string)> {
    if KindOf(w, target.section, target.key) == PathList && Folderless(was, Named(target.section))
    then BodyFor(target.key, target.value, MappedFor(w, target, inForce)) else [(target.key, target.value)]
  }

  /** Lines are added where the section already has some. */
  ghost predicate Joins(target: Resolved, body: seq<(string, string)>, was: seq<string>, now: seq<string>, at: nat) {
    && at <= |was| && After(was[..at], NoSection) == Named(target.section)
    && now == was[..at] + Assignments(body) + was[at..]
  }

  /** The file gets the section, with the lines in it, after a blank line unless it ends in one. */
  ghost predicate Begins(target: Resolved, body: seq<(string, string)>, was: seq<string>, now: seq<string>, blank: seq<string>) {
    && blank in {[], [""]} && (forall i :: 0 <= i < |was| ==> !Means(was, i, Named(target.section)))
    && now == was + blank + [HeaderLine(target.section)] + Assignments(body)
  }

  /** What a value makes of the lines: the last of its lines is worded anew, or it has a line now. */
  ghost predicate Placed(target: Resolved, body: seq<(string, string)>, was: seq<string>, now: seq<string>) {
    || (exists at :: Reset(target, was, now, at))
    || (Unassigned(was, Named(target.section), target.key)
        && ((exists at :: Joins(target, body, was, now, at)) || (exists blank :: Begins(target, body, was, now, blank))))
  }

  /** The last line that sets the key is the one the parser goes by. */
  method RewriteLast(w: Writer, doc: Document, at: nat, target: Resolved, ghost names: set<Name>)
    requires doc.Valid() && NameOf(target) in names && Survives(target.value) && KindOf(w, target.section, target.key) != NotASetting
    requires LastAssigned(Texts(doc.lines), at, Named(target.section), target.key)
    modifies doc`lines
    ensures Reset(target, Texts(old(doc.lines)), Texts(doc.lines), at)
    ensures doc.Valid() && Keeps(Texts(old(doc.lines)), Texts(doc.lines), names)
    ensures Reworded(Texts(old(doc.lines)), Texts(doc.lines), at)
    ensures MeansSame(w.rules, Reading(Texts(old(doc.lines)), NoSection), Reading(Texts(doc.lines), NoSection), Named(target.section), target.key)
  {
    hide *;
    ghost var was := Texts(doc.lines);
    AtLast(was, at, Named(target.section), target.key);
    RewriteIs(w, was, at, target, names);
    NoFeedIn("", target.value);
    doc.Rewrite(at, target.value);
    IsReset(target, was, at);
  }

  lemma AtLast(lines: seq<string>, at: nat, section: Section, key: string)
    requires LastAssigned(lines, at, section, key)
    ensures Assigned(lines, at, section, key)
  {
  }

  lemma IsReset(target: Resolved, was: seq<string>, at: nat)
    requires LastAssigned(was, at, Named(target.section), target.key)
    ensures at < |was| && Reset(target, was, was[at := Rewritten(was[at], target.value)], at)
  {
  }

  lemma RewriteIs(w: Writer, lines: seq<string>, at: nat, target: Resolved, names: set<Name>)
    requires Assigned(lines, at, Named(target.section), target.key) && KindOf(w, target.section, target.key) != NotASetting
    requires NameOf(target) in names && Survives(target.value)
    ensures at < |lines|
    ensures var now := lines[at := Rewritten(lines[at], target.value)];
            && Keeps(lines, now, names) && Reworded(lines, now, at)
            && MeansSame(w.rules, Reading(lines, NoSection), Reading(now, NoSection), Named(target.section), target.key)
  {
    hide Absorbs, ItemOf, Keeps, MeansSame, Survives, KeepsAround, Rewritten, Reading, KindOf, Named, After;
    var now := Rewritten(lines[at], target.value);
    RewrittenReads(lines[at], target.value);
    NotASettingUnlessNamed(w, target);
    OneOutKeeps(lines, at, [now], Named(target.section), target.key, names);
    UpdateIs(lines, at, now);
    RewriteMeans(w, lines, at, now, target);
  }

  lemma NotASettingUnlessNamed(w: Writer, target: Resolved)
    requires KindOf(w, target.section, target.key) != NotASetting
    ensures Named(target.section) != Unknown && Named(target.section) != NoSection
  {
  }

  lemma UpdateIs<T>(s: seq<T>, i: nat, t: T)
    requires i < |s|
    ensures s[i := t] == s[..i] + [t] + s[i + 1..]
  {
  }

  lemma RewriteMeans(w: Writer, lines: seq<string>, at: nat, now: string, target: Resolved)
    requires Assigned(lines, at, Named(target.section), target.key) && KindOf(w, target.section, target.key) != NotASetting
    requires ItemOf(now).Setting? && ItemOf(now).key == target.key
    ensures MeansSame(w.rules, Reading(lines, NoSection), Reading(lines[at := now], NoSection), Named(target.section), target.key)
  {
    hide ItemOf, MeansSame, KeysIn;
    var section, key := Named(target.section), target.key;
    var was, more := Reading(lines, NoSection), Reading(lines[at := now], NoSection);
    var x, y, n, z := Reading(lines[..at], NoSection), EventOf(lines[at], section), EventOf(now, section), Reading(lines[at + 1..], section);
    ReplacedReads(lines, at, now, section, key);
    OneSetEvent(lines[at], section, key);
    OneSetEvent(now, section, key);
    KeysSwapped(was, more, x, y, n, z, section);
    OneKeyMeans(w.rules, was, more, x, y, n, z, section, key);
  }

  lemma OneSetEvent(line: string, section: Section, key: string)
    requires ItemOf(line).Setting? && ItemOf(line).key == key
    ensures SetsOf(EventOf(line, section), section) && KeysIn(EventOf(line, section), section) == {key}
  {
    hide ItemOf;
    assert EventOf(line, section) == [Set(section, key, ItemOf(line).value)];
  }

  // ----- A key its section does not set yet -----

  lemma AssignedIsRead(lines: seq<string>, i: nat, section: Section, key: string)
    requires Assigned(lines, i, section, key)
    ensures key in KeysIn(Reading(lines, NoSection), section)
  {
    hide ItemOf, KeysIn;
    var a, b := lines[..i], lines[i + 1..];
    assert lines == a + [lines[i]] + b;
    ReadingConcat(a, [lines[i]], NoSection);
    ReadingConcat(a + [lines[i]], b, NoSection);
    OneLine(lines[i], section);
    OneSetEvent(lines[i], section, key);
    KeysConcat(Reading(a, NoSection), EventOf(lines[i], section), section);
    KeysConcat(Reading(a, NoSection) + EventOf(lines[i], section), Reading(b, After(a + [lines[i]], NoSection)), section);
  }

  /** Lines that do not set a key give it no value, whatever is above them. */
  lemma {:induction false} TailIsUnread(head: seq<string>, tail: seq<string>, section: Section, key: string)
    requires forall i :: |head| <= i < |head + tail| ==> !Assigned(head + tail, i, section, key)
    ensures ValuesOf(Reading(tail, After(head, NoSection)), section, key) == []
  {
    hide ItemOf;
    if tail != [] {
      var n, at := |tail| - 1, After(head, NoSection);
      var a, last := tail[..n], tail[n];
      assert tail == a + [last] && (head + tail)[..|head| + n] == head + a && (head + tail)[|head| + n] == last;
      assert !Assigned(head + tail, |head| + n, section, key);
      forall i | |head| <= i < |head + a| ensures !Assigned(head + a, i, section, key) {
        assert (head + a)[..i] == (head + tail)[..i] && !Assigned(head + tail, i, section, key);
      }
      TailIsUnread(head, a, section, key);
      ReadingConcat(head, a, NoSection);
      ReadingConcat(a, [last], at);
      OneLine(last, After(a, at));
      ValuesConcat(Reading(a, at), EventOf(last, After(a, at)), section, key);
    }
  }

  lemma UnassignedIsUnread(lines: seq<string>, section: Section, key: string)
    requires forall i :: 0 <= i < |lines| ==> !Assigned(lines, i, section, key)
    ensures ValuesOf(Reading(lines, NoSection), section, key) == []
  {
    hide ItemOf, ValuesOf, Assigned;
    assert [] + lines == lines && After([], NoSection) == NoSection;
    TailIsUnread([], lines, section, key);
  }

  lemma AssignedHasValue(lines: seq<string>, i: nat, section: Section, key: string)
    requires Assigned(lines, i, section, key)
    ensures ValuesOf(Reading(lines, NoSection), section, key) != []
  {
    hide ItemOf;
    var a, b := lines[..i], lines[i + 1..];
    assert lines == a + [lines[i]] + b;
    ReadingConcat(a, [lines[i]], NoSection);
    ReadingConcat(a + [lines[i]], b, NoSection);
    OneLine(lines[i], section);
    ValuesConcat(Reading(a, NoSection), EventOf(lines[i], section), section, key);
    ValuesConcat(Reading(a, NoSection) + EventOf(lines[i], section), Reading(b, After(a + [lines[i]], NoSection)), section, key);
  }

  lemma {:induction false} UnmeantIsUnread(lines: seq<string>, section: Section)
    requires forall i :: 0 <= i < |lines| ==> !Means(lines, i, section)
    ensures section !in HeadersOf(Reading(lines, NoSection)) && KeysIn(Reading(lines, NoSection), section) == {}
  {
    hide ItemOf, KeysIn;
    if lines == [] {
      NoKeys(section);
    } else {
      var n := |lines| - 1;
      var a, last := lines[..n], lines[n];
      assert lines == a + [last] && !Means(lines, n, section);
      forall i | 0 <= i < n ensures !Means(a, i, section) {
        assert a[..i] == lines[..i] && !Means(lines, i, section);
      }
      UnmeantIsUnread(a, section);
      ReadingConcat(a, [last], NoSection);
      OneLine(last, After(a, NoSection));
      HeadersConcat(Reading(a, NoSection), EventOf(last, After(a, NoSection)));
      KeysConcat(Reading(a, NoSection), EventOf(last, After(a, NoSection)), section);
      OneElsewhere(last, After(a, NoSection), section);
    }
  }

  lemma OneElsewhere(line: string, at: Section, section: Section)
    requires ItemOf(line) != Header(section) && (ItemOf(line).Setting? ==> at != section)
    ensures section !in HeadersOf(EventOf(line, at)) && KeysIn(EventOf(line, at), section) == {}
  {
    hide ItemOf;
  }

  /** When an edit's own assignment leaves every other setting alone. */
  ghost predicate Plainly(w: Writer, target: Resolved, edit: seq<Resolved>, inForce: seq<Event>, was: seq<Event>) {
    && edit == [target] && !target.remove && Survives(target.value) && !TurnsOn(w, target, was)
    && MappedFor(w, target, inForce) == MappedFor(w, target, was)
  }

  /** An emulator, or where saves are played, chosen for a platform whose section was empty. */
  ghost predicate TurnsOn(w: Writer, target: Resolved, was: seq<Event>) {
    KindOf(w, target.section, target.key) == Choice && Empties(w.rules, was, Named(target.section).slug)
  }

  ghost predicate MeansThat(w: Writer, target: Resolved, was: seq<string>, now: seq<string>) {
    MeansSame(w.rules, Reading(was, NoSection), Reading(now, NoSection), Named(target.section), target.key)
  }

  /** One line added to a section that has lines of the kind already, or is no platform's folder. */
  lemma OneAddedMeans(w: Writer, lines: seq<string>, at: nat, target: Resolved)
    requires at <= |lines| && After(lines[..at], NoSection) == Named(target.section) && Survives(target.value)
    requires KindOf(w, target.section, target.key) != NotASetting && PlainKey(target.key)
    requires KindOf(w, target.section, target.key) == PathList ==>
               exists k :: FolderKey(k) && k in KeysIn(Reading(lines, NoSection), Named(target.section))
    requires !TurnsOn(w, target, Reading(lines, NoSection))
    ensures MeansThat(w, target, lines, lines[..at] + Assignments([(target.key, target.value)]) + lines[at..])
  {
    hide KeysIn, Reading, PlainKey, Survives, ValuesOf, MeansSame, Named, Unmoved, TurnsOn, Assignments, SetsFor, SetsOf, After, HasChoice;
    var section, body := Named(target.section), [(target.key, target.value)];
    var a, b, more := lines[..at], lines[at..], Assignments(body);
    OneIsWritable(target.key, target.value);
    BodyReads(body, section);
    PutInReads(a, more, b, section);
    assert a + b == lines;
    var was, now := Reading(lines, NoSection), Reading(a + more + b, NoSection);
    var x, n, z := Reading(a, NoSection), SetsFor(body, section), Reading(b, section);
    OneSet(target.key, target.value, section, target.key);
    NoKeys(section);
    KeysSwapped(was, now, x, [], n, z, section);
    KeysConcat(x, z, section);
    NotASettingUnlessNamed(w, target);
    if section.Platform? {
      assert KeysIn(now, section) == KeysIn(was, section) + {target.key};
      StaysUnmoved(w, target, was, now);
    }
    OneKeyMeans(w.rules, was, now, x, [], n, z, section, target.key);
  }

  lemma StaysUnmoved(w: Writer, target: Resolved, was: seq<Event>, now: seq<Event>)
    requires Named(target.section).Platform? && KindOf(w, target.section, target.key) != NotASetting
    requires KeysIn(now, Named(target.section)) == KeysIn(was, Named(target.section)) + {target.key}
    requires KindOf(w, target.section, target.key) == PathList ==>
               exists k :: FolderKey(k) && k in KeysIn(was, Named(target.section))
    requires !TurnsOn(w, target, was)
    ensures target.key != ENABLED && Unmoved(w.rules, was, now, Named(target.section).slug)
    ensures HasChoice(KeysIn(was, Named(target.section))) ==> HasChoice(KeysIn(now, Named(target.section)))
  {
    hide KeysIn;
    NotTheSwitch();
    if FolderKey(target.key) {
      var k :| FolderKey(k) && k in KeysIn(was, Named(target.section));
      HasFolders(KeysIn(was, Named(target.section)), k);
      HasFolders(KeysIn(now, Named(target.section)), k);
    } else {
      ChoiceIsNoFolder(KeysIn(was, Named(target.section)), KeysIn(now, Named(target.section)), target.key);
    }
  }

  lemma NotTheSwitch()
    ensures !FolderKey(ENABLED) && !ChoiceKey(ENABLED) && !ChoiceKey(ROMS) && !ChoiceKey(SAVES) && !ChoiceKey(STATES)
  {
  }

  lemma ChoiceIsNoFolder(was: set<string>, now: set<string>, key: string)
    requires now == was + {key} && ChoiceKey(key)
    ensures SetsFolders(was) <==> SetsFolders(now)
  {
  }

  /** The first folder of a section that had none: what was in force comes with it. */
  lemma FoldersAddedMean(w: Writer, lines: seq<string>, at: nat, target: Resolved, slug: string, body: seq<(string, string)>)
    requires at <= |lines| && After(lines[..at], NoSection) == Named(target.section) == Platform(slug)
    requires Survives(target.value) && Sensible(w) && FolderKey(target.key)
    requires forall k :: FolderKey(k) ==> ValuesOf(Reading(lines, NoSection), Platform(slug), k) == []
    requires body == BodyFor(target.key, target.value, InForce(w.rules, Reading(lines, NoSection), slug))
    ensures MeansThat(w, target, lines, lines[..at] + Assignments(body) + lines[at..])
  {
    hide KeysIn, Reading, Survives, ValuesOf, InForce, BodyFor, Carries, Sensible, Named, Assignments, MeansSame, After, Writable;
    BodyCarries(w, Reading(lines, NoSection), slug, target.key, target.value);
    assert lines[..at] + lines[at..] == lines;
    CarriedIn(w, lines[..at], body, lines[at..], slug, target.key);
  }

  lemma CarriedIn(w: Writer, a: seq<string>, body: seq<(string, string)>, b: seq<string>, slug: string, key: string)
    requires After(a, NoSection) == Platform(slug) && Writable(body)
    requires FolderKey(key) && Carries(w.rules, Reading(a + b, NoSection), SetsFor(body, Platform(slug)), slug, key)
    requires forall k :: FolderKey(k) ==> ValuesOf(Reading(a + b, NoSection), Platform(slug), k) == []
    ensures MeansSame(w.rules, Reading(a + b, NoSection), Reading(a + Assignments(body) + b, NoSection), Platform(slug), key)
  {
    hide KeysIn, Reading, ValuesOf, MeansSame, Carries, Assignments, SetsFor, SetsOf, Swapped, Writable, FolderKey;
    var section, more := Platform(slug), Assignments(body);
    BodyReads(body, section);
    PutInReads(a, more, b, section);
    CarriedMeans(w.rules, Reading(a + b, NoSection), Reading(a + more + b, NoSection), Reading(a, NoSection),
                 SetsFor(body, section), Reading(b, section), slug, key);
  }

  /** A section the file did not have. */
  lemma SectionAddedMeans(w: Writer, lines: seq<string>, blank: seq<string>, target: Resolved, body: seq<(string, string)>)
    requires blank in {[], [""]} && Survives(target.section) && Survives(target.value) && Sensible(w)
    requires KindOf(w, target.section, target.key) != NotASetting
    requires forall i :: 0 <= i < |lines| ==> !Means(lines, i, Named(target.section))
    requires body == if KindOf(w, target.section, target.key) == PathList
                     then BodyFor(target.key, target.value, InForce(w.rules, Reading(lines, NoSection), Named(target.section).slug))
                     else [(target.key, target.value)]
    ensures MeansThat(w, target, lines, lines + blank + [HeaderLine(target.section)] + Assignments(body))
  {
    hide KeysIn, Reading, Survives, ValuesOf, MeansSame, InForce, BodyFor, Carries, Sensible, PlainKey, HeaderLine, Named, Assignments, SetsFor, SetsOf, HeadersOf, Writable;
    var section, was := Named(target.section), Reading(lines, NoSection);
    UnmeantIsUnread(lines, section);
    KeysArePlain(w, target.section, target.key);
    if KindOf(w, target.section, target.key) == PathList {
      forall k | FolderKey(k) ensures ValuesOf(was, section, k) == [] { NoValuesWithout(was, section, k); }
      BodyCarries(w, was, section.slug, target.key, target.value);
    } else {
      OneSet(target.key, target.value, section, target.key);
      OneIsWritable(target.key, target.value);
    }
    NotASettingUnlessNamed(w, target);
    SectionReads(lines, blank, target.section, body);
    AppendedMeans(w.rules, was, Reading(lines + blank + [HeaderLine(target.section)] + Assignments(body), NoSection),
                  section, target.key, SetsFor(body, section));
  }

  lemma OneIsWritable(key: string, value: string)
    requires PlainKey(key) && Survives(value)
    ensures Writable([(key, value)])
  {
    hide PlainKey, Survives;
  }

  lemma SectionReads(lines: seq<string>, blank: seq<string>, section: string, body: seq<(string, string)>)
    requires blank in {[], [""]} && Survives(section) && Named(section) != Unknown && Writable(body)
    ensures var now := lines + blank + [HeaderLine(section)] + Assignments(body);
            Reading(now, NoSection) == Reading(lines, NoSection) + [Opened(Named(section))] + SetsFor(body, Named(section))
            && SetsOf(SetsFor(body, Named(section)), Named(section))
  {
    hide ItemOf, Survives, HeaderLine;
    HeaderReads(section);
    ReadingConcat(lines, blank, NoSection);
    ReadingConcat(lines + blank, [HeaderLine(section)], NoSection);
    ReadingConcat(lines + blank + [HeaderLine(section)], Assignments(body), NoSection);
    BlankReads();
    OneLine("", After(lines, NoSection));
    OneLine(HeaderLine(section), After(lines + blank, NoSection));
    BodyReads(body, Named(section));
    assert Reading(lines, NoSection) + [] == Reading(lines, NoSection);
  }

  ghost predicate Askable(w: Writer, target: Resolved) {
    KindOf(w, target.section, target.key) != NotASetting && Survives(target.section) && (!target.remove ==> Survives(target.value))
  }

  /** A removal carries no value. */
  ghost predicate AllWritable(edit: seq<Resolved>) { forall r :: r in edit ==> '\n' !in r.value }

  lemma InForceHasNoFeed(w: Writer, events: seq<Event>, slug: string)
    requires Sensible(w)
    ensures var mapped := InForce(w.rules, events, slug);
            NoFeedInAny(mapped.roms) && NoFeedInAny(mapped.saves) && NoFeedInAny(mapped.states)
  {
    hide KeysIn, ValuesOf, LastFlag, SetsFolders, BuiltIn, HeadersOf, Claimed, Join, Survives;
  }

  function MappedFor(w: Writer, target: Resolved, inForce: seq<Event>): Folders {
    if KindOf(w, target.section, target.key) == PathList then InForce(w.rules, inForce, Named(target.section).slug) else Folders([], [], [])
  }

  lemma MappedHasNoFeed(w: Writer, target: Resolved, inForce: seq<Event>)
    requires Sensible(w)
    ensures var mapped := MappedFor(w, target, inForce);
            NoFeedInAny(mapped.roms) && NoFeedInAny(mapped.saves) && NoFeedInAny(mapped.states)
  {
    hide InForce, Sensible;
    if KindOf(w, target.section, target.key) == PathList { InForceHasNoFeed(w, inForce, Named(target.section).slug); }
  }

  /** Whether the section has a folder line: its first one carries what was in force. */
  method HasFolderLine(doc: Document, section: string) returns (yes: bool)
    requires Named(section) != Unknown
    ensures yes ==> exists k :: FolderKey(k) && k in KeysIn(Reading(Texts(doc.lines), NoSection), Named(section))
    ensures !yes <==> Folderless(Texts(doc.lines), Named(section))
  {
    hide KeysIn, ValuesOf, Reading, Texts, Named, Assigned;
    ghost var texts := Texts(doc.lines);
    var keys := [ROMS, SAVES, STATES];
    yes := false;
    for i := 0 to |keys|
      invariant yes ==> exists k :: FolderKey(k) && k in KeysIn(Reading(texts, NoSection), Named(section))
      invariant yes ==> !Folderless(texts, Named(section))
      invariant !yes ==> forall k :: k in keys[..i] ==> ValuesOf(Reading(texts, NoSection), Named(section), k) == []
    {
      assert keys[..i + 1] == keys[..i] + [keys[i]];
      assert keys[i] != "" && FolderKey(keys[i]);
      var hits := doc.AssignmentLines(section, keys[i]);
      if hits != [] {
        AssignedIsRead(texts, hits[0], Named(section), keys[i]);
        AssignedHasValue(texts, hits[0], Named(section), keys[i]);
        yes := true;
      } else {
        UnassignedIsUnread(texts, Named(section), keys[i]);
      }
    }
    assert keys[..|keys|] == keys;
    if !yes {
      forall k | FolderKey(k) ensures ValuesOf(Reading(texts, NoSection), Named(section), k) == [] { assert k in keys; }
    }
  }

  method AddToSection(w: Writer, doc: Document, at: nat, target: Resolved, edit: seq<Resolved>, inForce: seq<Event>, ghost names: set<Name>)
    requires doc.Valid() && Sensible(w) && Askable(w, target) && !target.remove && AllWritable(edit)
    requires 0 < at <= |doc.lines| && After(Texts(doc.lines)[..at], NoSection) == Named(target.section)
    modifies doc`lines
    ensures KindOf(w, target.section, target.key) != PathList || edit == [target] ==>
              Joins(target, BodyOf(w, target, inForce, Texts(old(doc.lines))), Texts(old(doc.lines)), Texts(doc.lines), at)
    ensures doc.Valid() && Keeps(Texts(old(doc.lines)), Texts(doc.lines), names)
    ensures Plainly(w, target, edit, inForce, Reading(Texts(old(doc.lines)), NoSection)) ==>
              MeansThat(w, target, Texts(old(doc.lines)), Texts(doc.lines))
  {
    hide Texts, Reading, Survives, PlainKey, Sensible, After, WellFormed, Keeps, MeansThat, MappedFor, TurnsOn, Named, KeysIn, ValuesOf;
    ghost var lines, section := Texts(doc.lines), Named(target.section);
    NotASettingUnlessNamed(w, target);
    KeysArePlain(w, target.section, target.key);
    NoFeedIn(target.key, target.value);
    var folders := HasFolderLine(doc, target.section);
    var body := [(target.key, target.value)];
    if KindOf(w, target.section, target.key) == PathList && !folders {
      MappedHasNoFeed(w, target, inForce);
      body := NewSectionBody(w, target, edit, MappedFor(w, target, inForce));
    }
    LinesAreSettings(body, section);
    PutInKeeps(lines, at, body, section, names);
    if Plainly(w, target, edit, inForce, Reading(lines, NoSection)) {
      AddedMeans(w, lines, at, target, edit, inForce, body, folders);
    }
    doc.InsertBody(at, body);
  }

  lemma PutInKeeps(lines: seq<string>, at: nat, body: seq<(string, string)>, section: Section, names: set<Name>)
    requires 0 < at <= |lines| && After(lines[..at], NoSection) == section == After(Assignments(body), section)
    ensures Keeps(lines, lines[..at] + Assignments(body) + lines[at..], names)
  {
    hide Sub, Kept, After, Assignments;
    PutIn(lines[..at], Assignments(body), lines[at..], section, names);
    assert lines[..at] + lines[at..] == lines;
  }

  lemma AddedMeans(w: Writer, lines: seq<string>, at: nat, target: Resolved, edit: seq<Resolved>, inForce: seq<Event>, body: seq<(string, string)>, folders: bool)
    requires at <= |lines| && After(lines[..at], NoSection) == Named(target.section) && Sensible(w) && Askable(w, target)
    requires Plainly(w, target, edit, inForce, Reading(lines, NoSection))
    requires if folders then exists k :: FolderKey(k) && k in KeysIn(Reading(lines, NoSection), Named(target.section))
             else forall k :: FolderKey(k) ==> ValuesOf(Reading(lines, NoSection), Named(target.section), k) == []
    requires body == if KindOf(w, target.section, target.key) == PathList && !folders
                     then BodyFor(target.key, target.value, MappedFor(w, target, inForce)) else [(target.key, target.value)]
    ensures MeansThat(w, target, lines, lines[..at] + Assignments(body) + lines[at..])
  {
    hide Reading, Survives, PlainKey, Sensible, After, MeansThat, TurnsOn, Named, KeysIn, ValuesOf, BodyFor, Assignments, InForce;
    if KindOf(w, target.section, target.key) == PathList && !folders {
      FoldersAddedMean(w, lines, at, target, Named(target.section).slug, body);
    } else {
      KeysArePlain(w, target.section, target.key);
      OneAddedMeans(w, lines, at, target);
    }
  }

  lemma UnmeantIsFolderless(lines: seq<string>, section: Section)
    requires forall i :: 0 <= i < |lines| ==> !Means(lines, i, section)
    ensures Folderless(lines, section)
  {
    hide Reading, KeysIn, ValuesOf, Means, FolderKey;
    UnmeantIsUnread(lines, section);
    forall k | FolderKey(k) ensures ValuesOf(Reading(lines, NoSection), section, k) == [] {
      NoValuesWithout(Reading(lines, NoSection), section, k);
    }
  }

  method AddSection(w: Writer, doc: Document, target: Resolved, edit: seq<Resolved>, inForce: seq<Event>, ghost names: set<Name>)
    requires doc.Valid() && Sensible(w) && Askable(w, target) && !target.remove && AllWritable(edit)
    requires forall i :: 0 <= i < |doc.lines| ==> !Means(Texts(doc.lines), i, Named(target.section))
    modifies doc`lines
    ensures KindOf(w, target.section, target.key) != PathList || edit == [target] ==>
              exists blank :: Begins(target, BodyOf(w, target, inForce, Texts(old(doc.lines))), Texts(old(doc.lines)), Texts(doc.lines), blank)
    ensures doc.Valid() && Keeps(Texts(old(doc.lines)), Texts(doc.lines), names)
    ensures Plainly(w, target, edit, inForce, Reading(Texts(old(doc.lines)), NoSection)) ==>
              MeansThat(w, target, Texts(old(doc.lines)), Texts(doc.lines))
  {
    hide Texts, Reading, Survives, PlainKey, Sensible, WellFormed, Keeps, MeansThat, MappedFor, TurnsOn, Named, Means, BodyFor;
    ghost var lines := Texts(doc.lines);
    NoFeedIn("", target.value);
    NoFeedIn("", target.section);
    MappedHasNoFeed(w, target, inForce);
    var body := NewSectionBody(w, target, edit, MappedFor(w, target, inForce));
    LinesAreSettings(body, NoSection);
    ghost var blank := doc.AppendSection(target.section, body);
    PutAtEndKeeps(lines, blank, target.section, body, names);
    if Plainly(w, target, edit, inForce, Reading(lines, NoSection)) {
      NewSectionMeans(w, lines, blank, target, edit, inForce, body);
    }
    UnmeantIsFolderless(lines, Named(target.section));
    if KindOf(w, target.section, target.key) != PathList || edit == [target] {
      assert body == BodyOf(w, target, inForce, lines);
      assert Begins(target, body, lines, Texts(doc.lines), blank);
    }
  }

  lemma PutAtEndKeeps(lines: seq<string>, blank: seq<string>, section: string, body: seq<(string, string)>, names: set<Name>)
    ensures Keeps(lines, lines + blank + [HeaderLine(section)] + Assignments(body), names)
  {
    hide Sub, Kept, Assignments, HeaderLine;
    PutAtEnd(lines, blank + [HeaderLine(section)] + Assignments(body), names);
    assert lines + (blank + [HeaderLine(section)] + Assignments(body)) == lines + blank + [HeaderLine(section)] + Assignments(body);
  }

  lemma NewSectionMeans(w: Writer, lines: seq<string>, blank: seq<string>, target: Resolved, edit: seq<Resolved>, inForce: seq<Event>, body: seq<(string, string)>)
    requires blank in {[], [""]} && Sensible(w) && Askable(w, target) && Plainly(w, target, edit, inForce, Reading(lines, NoSection))
    requires forall i :: 0 <= i < |lines| ==> !Means(lines, i, Named(target.section))
    requires body == if KindOf(w, target.section, target.key) == PathList
                     then BodyFor(target.key, target.value, MappedFor(w, target, inForce)) else [(target.key, target.value)]
    ensures MeansThat(w, target, lines, lines + blank + [HeaderLine(target.section)] + Assignments(body))
  {
    hide Reading, Survives, Sensible, MeansThat, TurnsOn, Named, BodyFor, Assignments, InForce, Means, HeaderLine;
    SectionAddedMeans(w, lines, blank, target, body);
  }

  // ----- A whole edit -----

  /** What one assignment makes of the lines: a removal takes out those that set the name, and no others. */
  ghost predicate OnePlaced(w: Writer, target: Resolved, inForce: seq<Event>, was: seq<string>, now: seq<string>) {
    if target.remove then now == Kept(was, NoSection, {NameOf(target)})
    else Placed(target, BodyOf(w, target, inForce, was), was, now)
  }

  method ApplyOne(w: Writer, doc: Document, target: Resolved, edit: seq<Resolved>, inForce: seq<Event>, ghost names: set<Name>)
    requires doc.Valid() && Sensible(w) && Askable(w, target) && AllWritable(edit) && NameOf(target) in names
    modifies doc`lines
    ensures KindOf(w, target.section, target.key) != PathList || target.remove || edit == [target] ==>
              OnePlaced(w, target, inForce, Texts(old(doc.lines)), Texts(doc.lines))
    ensures doc.Valid() && Keeps(Texts(old(doc.lines)), Texts(doc.lines), names)
    ensures Plainly(w, target, edit, inForce, Reading(Texts(old(doc.lines)), NoSection)) ==>
              MeansThat(w, target, Texts(old(doc.lines)), Texts(doc.lines))
  {
    hide Texts, Reading, Survives, Sensible, WellFormed, Keeps, MappedFor, TurnsOn, Named, Means, Assigned, MeansSame, Reworded, LastAssigned, Reset, Joins, Begins, BodyOf;
    NotASettingUnlessNamed(w, target);
    KeysArePlain(w, target.section, target.key);
    var hits := doc.AssignmentLines(target.section, target.key);
    if target.remove {
      RemoveAll(doc, hits, target, names);
    } else if hits != [] {
      assert hits[|hits| - 1] in hits;
      IsLast(Texts(doc.lines), hits, Named(target.section), target.key);
      RewriteLast(w, doc, hits[|hits| - 1], target, names);
    } else {
      var found, at := doc.InsertPoint(target.section);
      if found {
        AddToSection(w, doc, at, target, edit, inForce, names);
      } else {
        AddSection(w, doc, target, edit, inForce, names);
      }
    }
  }

  lemma IsLast(lines: seq<string>, hits: seq<nat>, section: Section, key: string)
    requires hits != [] && forall i :: i in hits <==> Assigned(lines, i, section, key)
    requires forall i, j :: 0 <= i < j < |hits| ==> hits[i] < hits[j]
    ensures LastAssigned(lines, hits[|hits| - 1], section, key)
  {
    hide Assigned;
    assert hits[|hits| - 1] in hits;
  }

  /** The canonical form of an assignment this build may make. */
  ghost predicate Resolves(w: Writer, asked: Assignment, target: Resolved) {
    && target.section == CanonicalSection(asked.section) && target.key == Lower(Trim(asked.key)) && target.remove == asked.remove
    && Askable(w, target)
    && (!asked.remove ==> w.normal(Named(target.section), target.key, asked.value) == Some(target.value))
    && (asked.remove ==> target.value == "")
  }

  function NameAsked(asked: Assignment): Name { Name(Named(CanonicalSection(asked.section)), Lower(Trim(asked.key))) }

  /** The assignment names a setting of this build and gives it a value it may have. */
  ghost predicate Acceptable(w: Writer, asked: Assignment) {
    var section, key := CanonicalSection(asked.section), Lower(Trim(asked.key));
    && section != "" && key != "" && Survives(section) && '[' !in section && ']' !in section
    && KindOf(w, section, key) != NotASetting
    && (!asked.remove ==> var value := w.normal(Named(section), key, asked.value); value.Some? && Survives(value.value))
  }

  /** Every assignment is acceptable, and no setting is named twice. */
  ghost predicate Resolvable(w: Writer, edit: seq<Assignment>) {
    && (forall i :: 0 <= i < |edit| ==> Acceptable(w, edit[i]))
    && (forall i, j :: 0 <= i < j < |edit| ==> NameAsked(edit[i]) != NameAsked(edit[j]))
  }

  /** All the assignments of an edit are put in canonical form, or none is. */
  method ResolveAll(w: Writer, edit: seq<Assignment>) returns (resolved: Option<seq<Resolved>>)
    ensures resolved.Some? <==> Resolvable(w, edit)
    ensures resolved.Some? ==> |resolved.value| == |edit| && AllWritable(resolved.value)
    ensures resolved.Some? ==> forall i :: 0 <= i < |edit| ==> Resolves(w, edit[i], resolved.value[i])
    ensures resolved.Some? ==> forall i, j :: 0 <= i < j < |edit| ==> NameOf(resolved.value[i]) != NameOf(resolved.value[j])
  {
    hide Survives, KindOf, CanonicalSection, Named, Lower, Trim;
    var targets: seq<Resolved>, seen: set<Name> := [], {};
    for i := 0 to |edit|
      invariant |targets| == i && AllWritable(targets)
      invariant forall k :: 0 <= k < i ==> Acceptable(w, edit[k]) && NameAsked(edit[k]) == NameOf(targets[k])
      invariant forall name :: name in seen ==> exists k :: 0 <= k < i && NameAsked(edit[k]) == name
      invariant forall k :: 0 <= k < i ==> Resolves(w, edit[k], targets[k]) && NameOf(targets[k]) in seen
      invariant forall k, m :: 0 <= k < m < i ==> NameOf(targets[k]) != NameOf(targets[m])
    {
      var asked := edit[i];
      var target := Resolved(CanonicalSection(asked.section), Lower(Trim(asked.key)), "", asked.remove);
      if target.section == "" || target.key == "" || !Survives(target.section) || '[' in target.section || ']' in target.section {
        assert !Acceptable(w, edit[i]);
        return None;
      }
      assert NameAsked(edit[i]) == NameOf(target);
      if KindOf(w, target.section, target.key) == NotASetting || NameOf(target) in seen {
        assert !Acceptable(w, edit[i]) || NameOf(target) in seen;
        return None;
      }
      if !asked.remove {
        var value := w.normal(Named(target.section), target.key, asked.value);
        if value.None? || !Survives(value.value) {
          assert !Acceptable(w, edit[i]);
          return None;
        }
        target := target.(value := value.value);
        NoFeedIn("", target.value);
      }
      seen := seen + {NameOf(target)};
      targets := targets + [target];
    }
    resolved := Some(targets);
  }

  predicate ReadsBackAs(w: Writer, events: seq<Event>, target: Resolved) {
    if KindOf(w, target.section, target.key) == PathList
    then Join(FolderList(w.rules, events, Named(target.section).slug, target.key)) == target.value
    else Field(w.rules, events, Named(target.section), target.key) == target.value
  }

  const CREATED := "version = 1" + "\n"

  function Base(text: string): string { if text == "" then CREATED else text }

  /** The lines of a text, as the editor takes it apart. */
  ghost predicate LinesOf(text: string, bom: string, lines: seq<Line>) {
    text == bom + Joined(lines) && WellFormed(lines) && bom in {"", BOM}
  }

  ghost predicate PlainStart(lines: seq<string>) { lines != [] && !(|lines[0]| >= 3 && lines[0][..3] == BOM) }

  lemma JoinedStart(lines: seq<Line>)
    requires WellFormed(lines) && lines != []
    ensures WithoutBom(Joined(lines)) == Joined(lines) <==> PlainStart(Texts(lines))
  {
    var first, text := lines[0].text, Joined(lines);
    assert text[..|first|] == first;
    if |first| >= 3 {
      assert text[..3] == first[..3];
    } else if |text| >= 3 {
      assert lines[0].terminator != "" ==> text[|first|] == lines[0].terminator[0];
      assert text[..3][|first|] == text[|first|];
      assert '\n' !in BOM && '\r' !in BOM;
    }
  }

  /** What the parser reads off a text is what the editor's lines of it say. */
  lemma TextReads(text: string, bom: string, lines: seq<Line>)
    requires LinesOf(text, bom, lines) && (bom == "" ==> lines != [] && PlainStart(Texts(lines)))
    ensures Read(text) == Reading(Texts(lines), NoSection)
  {
    hide ParserLines, Reading, Joined, WellFormed;
    ParserReads(lines, NoSection);
    if bom == BOM {
      assert text[..3] == BOM && text[3..] == Joined(lines);
    } else {
      assert text == Joined(lines);
      JoinedStart(lines);
    }
  }

  lemma VersionLine()
    ensures ItemOf("version = 1") == Setting("version", "1")
  {
    hide ItemOf, TrimLeft, TrimRight, Trim, CommentFrom;
    assert NewAssignment("version", "1") == "version = 1";
    PlainWord("version");
    TrimIs("", "1", "");
    assert "" + "1" + "" == "1";
    CommentIs("1", 1);
    NewAssignmentReads("version", "1");
  }

  lemma CreatedReads()
    ensures Read(CREATED) == [Set(NoSection, "version", "1")] && Read("") == [] && WithoutBom(CREATED) == CREATED
  {
    hide ItemOf, ParserLines;
    var lines := [Line("version = 1", "\n")];
    assert lines[1..] == [] && Joined(lines) == CREATED && Texts(lines) == ["version = 1"];
    assert WithoutBom(CREATED) == CREATED by { assert CREATED[..3][0] == 'v' != BOM[0]; }
    VersionLine();
    ParserReads(lines, NoSection);
    OneLine("version = 1", NoSection);
    NothingRead(NoSection);
  }

  lemma VersionIsNoSetting(s: Section, k: string)
    requires s != NoSection
    ensures var was := [Set(NoSection, "version", "1")];
            ValuesOf(was, s, k) == ValuesOf([], s, k) && KeysIn(was, s) == KeysIn([], s) && HeadersOf(was) == HeadersOf([])
  {
    assert [Set(NoSection, "version", "1")][1..] == [];
  }

  lemma VersionMeansNothing(rules: Rules, s: Section, k: string)
    requires s != NoSection
    ensures Field(rules, [Set(NoSection, "version", "1")], s, k) == Field(rules, [], s, k)
    ensures s.Platform? ==> FolderList(rules, [Set(NoSection, "version", "1")], s.slug, k) == FolderList(rules, [], s.slug, k)
  {
    hide Claimed, LastUsable, ListFrom, ValuesOf, KeysIn, HeadersOf, LastFlag;
    VersionIsNoSetting(s, k);
    VersionIsNoSetting(s, ENABLED);
  }

  lemma VersionIsKnown(rules: Rules)
    requires !rules.newer("1")
    ensures !Newer(rules, [Set(NoSection, "version", "1")]) && !Newer(rules, [])
  {
    var was := [Set(NoSection, "version", "1")];
    assert was[1..] == [] && ValuesOf(was, NoSection, "version") == ["1"];
  }

  /** A new file says its version, and nothing else by it. */
  lemma CreatedMeans(w: Writer, now: seq<Event>, section: Section, key: string)
    requires !w.rules.newer("1") && MeansSame(w.rules, [Set(NoSection, "version", "1")], now, section, key)
    ensures MeansSame(w.rules, [], now, section, key)
  {
    hide Field, FolderList, Newer;
    VersionIsKnown(w.rules);
    forall s, k | s != NoSection ensures Field(w.rules, [Set(NoSection, "version", "1")], s, k) == Field(w.rules, [], s, k) {
      VersionMeansNothing(w.rules, s, k);
    }
    forall slug, k ensures FolderList(w.rules, [Set(NoSection, "version", "1")], slug, k) == FolderList(w.rules, [], slug, k) {
      VersionMeansNothing(w.rules, Platform(slug), k);
    }
  }

  lemma CreatedIsEmpty(w: Writer, target: Resolved)
    ensures MappedFor(w, target, []) == MappedFor(w, target, [Set(NoSection, "version", "1")])
    ensures !TurnsOn(w, target, [Set(NoSection, "version", "1")])
  {
    hide LastUsable, ListFrom, KindOf, Named, BuiltIn;
    var was := [Set(NoSection, "version", "1")];
    assert was[1..] == [] && HeadersOf(was) == [] == HeadersOf([]);
  }

  function NamesOf(resolved: seq<Resolved>): set<Name> { set r | r in resolved :: NameOf(r) }

  /** What was asked is what is read back: a value for what was set, and no line for what was removed. */
  ghost predicate Holds(w: Writer, events: seq<Event>, target: Resolved) {
    if target.remove then ValuesOf(events, Named(target.section), target.key) == [] else ReadsBackAs(w, events, target)
  }

  ghost predicate AllHold(w: Writer, events: seq<Event>, resolved: seq<Resolved>) {
    forall i :: 0 <= i < |resolved| ==> Holds(w, events, resolved[i])
  }

  /** The text is read back before it is handed out. */
  method ReadBack(w: Writer, text: string, check: Document, resolved: seq<Resolved>) returns (held: bool)
    requires check.Valid() && Read(text) == Reading(Texts(check.lines), NoSection)
    requires forall r :: r in resolved ==> Askable(w, r) && r.key != ""
    ensures held <==> AllHold(w, Read(text), resolved)
  {
    hide Texts, Reading, Read, Survives, KindOf, Named, Assigned, ReadsBackAs, ValuesOf;
    held := true;
    for i := 0 to |resolved|
      invariant held <==> forall k :: 0 <= k < i ==> Holds(w, Read(text), resolved[k])
    {
      var r := resolved[i];
      assert r in resolved;
      NotASettingUnlessNamed(w, r);
      var now: bool;
      if r.remove {
        var hits := check.AssignmentLines(r.section, r.key);
        now := hits == [];
        if now {
          UnassignedIsUnread(Texts(check.lines), Named(r.section), r.key);
        } else {
          AssignedHasValue(Texts(check.lines), hits[0], Named(r.section), r.key);
        }
      } else {
        now := ReadsBackAs(w, Read(text), r);
      }
      held := held && now;
    }
  }

  /** Apply every assignment, one after the other. */
  method ApplyAll(w: Writer, doc: Document, resolved: seq<Resolved>, inForce: seq<Event>)
    requires doc.Valid() && Sensible(w) && AllWritable(resolved) && forall r :: r in resolved ==> Askable(w, r)
    modifies doc`lines
    ensures |resolved| == 1 ==> OnePlaced(w, resolved[0], inForce, Texts(old(doc.lines)), Texts(doc.lines))
    ensures doc.Valid() && Keeps(Texts(old(doc.lines)), Texts(doc.lines), NamesOf(resolved))
    ensures |resolved| == 1 && Plainly(w, resolved[0], resolved, inForce, Reading(Texts(old(doc.lines)), NoSection)) ==>
              MeansThat(w, resolved[0], Texts(old(doc.lines)), Texts(doc.lines))
  {
    hide Texts, Reading, Sensible, WellFormed, Keeps, Plainly, MeansThat, Askable, AllWritable, Placed, KindOf, BodyOf;
    ghost var was, names := Texts(doc.lines), NamesOf(resolved);
    KeepsSame(was, names);
    for i := 0 to |resolved|
      invariant doc.Valid() && Keeps(was, Texts(doc.lines), names) && (i == 0 ==> Texts(doc.lines) == was)
      invariant i == 1 == |resolved| && Plainly(w, resolved[0], resolved, inForce, Reading(was, NoSection)) ==>
                  MeansThat(w, resolved[0], was, Texts(doc.lines))
      invariant i == 1 == |resolved| ==> OnePlaced(w, resolved[0], inForce, was, Texts(doc.lines))
    {
      ghost var lines := Texts(doc.lines);
      assert resolved[i] in resolved && NameOf(resolved[i]) in names;
      ApplyOne(w, doc, resolved[i], resolved, inForce, names);
      KeepsAgain(was, lines, Texts(doc.lines), names);
    }
  }

  /** An edit that is refused before anything is applied. */
  ghost predicate TurnedAway(w: Writer, text: string, edit: seq<Assignment>) {
    edit == [] || |edit| > w.maxEdit || |text| > w.maxBytes || Newer(w.rules, Read(text)) || !Resolvable(w, edit)
  }

  /** What an edit makes of a text: every line that sets none of its names is still there, unchanged and in
      order. One setting removed is its lines removed, and one changed is one line changed or added, with the
      folders in force when it is the first folder of its section; that it changes means that nothing else does, but that choosing an emulator in an empty
      platform section turns the platform on. */
  ghost predicate Edited(w: Writer, text: string, edit: seq<Assignment>, resolved: seq<Resolved>, bom: string, before: seq<Line>, after: seq<Line>, written: string) {
    && |resolved| == |edit| && (forall i :: 0 <= i < |edit| ==> Resolves(w, edit[i], resolved[i]))
    && LinesOf(Base(text), bom, before) && LinesOf(written, bom, after)
    && Read(Base(text)) == Reading(Texts(before), NoSection) && Read(written) == Reading(Texts(after), NoSection)
    && Keeps(Texts(before), Texts(after), NamesOf(resolved))
    && (|edit| == 1 ==> OnePlaced(w, resolved[0], Read(text), Texts(before), Texts(after)))
    && (|edit| == 1 && !edit[0].remove && !TurnsOn(w, resolved[0], Read(text)) ==>
          MeansSame(w.rules, Read(text), Read(written), Named(resolved[0].section), resolved[0].key))
  }

  /** The edited text is handed out exactly when it is not too long and all that was asked is read back from it. */
  ghost predicate Decided(w: Writer, text: string, edit: seq<Assignment>, out: Option<string>,
                          resolved: seq<Resolved>, bom: string, before: seq<Line>, after: seq<Line>, written: string) {
    && Edited(w, text, edit, resolved, bom, before, after, written)
    && out == if |written| <= w.maxBytes && AllHold(w, Read(written), resolved) then Some(written) else None
  }

  /** Edit a config.ini. */
  method ApplyEdit(w: Writer, text: string, edit: seq<Assignment>) returns (out: Option<string>)
    requires Sensible(w)
    ensures TurnedAway(w, text, edit) ==> out == None
    ensures !TurnedAway(w, text, edit) ==>
              exists resolved, bom, before, after, written :: Decided(w, text, edit, out, resolved, bom, before, after, written)
  {
    hide Texts, Reading, Read, Sensible, WellFormed, Keeps, Plainly, MeansThat, AllWritable, MeansSame, Joined, AllHold, TurnsOn, MappedFor, Newer, Resolves, Base, OnePlaced, Resolvable;
    if edit == [] || |edit| > w.maxEdit || |text| > w.maxBytes || Newer(w.rules, Read(text)) {
      return None;
    }
    var targets := ResolveAll(w, edit);
    if targets.None? {
      return None;
    }
    ghost var resolved := targets.value;
    AllAskable(w, edit, resolved);
    var inForce := Read(text);
    var doc := Split(Base(text));
    ghost var bom, before := doc.bom, doc.lines;
    BaseReads(text, bom, before);
    ApplyAll(w, doc, targets.value, inForce);
    ghost var after := doc.lines;
    var written := doc.Render();
    KeptReads(text, bom, before, after, written, NamesOf(resolved));
    if |edit| == 1 { OneMeans(w, text, edit, resolved, bom, before, after, written); }
    assert Edited(w, text, edit, resolved, bom, before, after, written);
    if |written| > w.maxBytes {
      assert Decided(w, text, edit, None, resolved, bom, before, after, written);
      return None;
    }
    var check := Split(written);
    CheckReads(written, check.bom, check.lines);
    var held := ReadBack(w, written, check, targets.value);
    out := if held then Some(written) else None;
    assert Decided(w, text, edit, out, resolved, bom, before, after, written);
  }

  lemma AllAskable(w: Writer, edit: seq<Assignment>, resolved: seq<Resolved>)
    requires |resolved| == |edit| && forall i :: 0 <= i < |edit| ==> Resolves(w, edit[i], resolved[i])
    ensures Sensible(w) ==> forall r :: r in resolved ==> Askable(w, r) && r.key != ""
  {
    hide KindOf, Survives, CanonicalSection, Lower, Trim, Sensible;
    if Sensible(w) {
      forall r | r in resolved ensures Askable(w, r) && r.key != "" {
        var i :| 0 <= i < |resolved| && resolved[i] == r;
        assert Resolves(w, edit[i], r);
        KeysArePlain(w, r.section, r.key);
      }
    }
  }

  /** Taking a text apart leaves its reading, for a text, and for a file that is being created. */
  lemma BaseReads(text: string, bom: string, lines: seq<Line>)
    requires LinesOf(Base(text), bom, lines) && (bom == "" ==> WithoutBom(Base(text)) == Base(text))
    ensures Read(Base(text)) == Reading(Texts(lines), NoSection) && (bom == "" ==> lines != [] && PlainStart(Texts(lines)))
  {
    hide Reading, Read, WellFormed, WithoutBom;
    assert Base(text) != "";
    if bom == "" {
      assert Base(text) == Joined(lines);
      assert lines != [] by { assert Joined([]) == ""; }
      JoinedStart(lines);
    }
    TextReads(Base(text), bom, lines);
  }

  lemma KeptReads(text: string, bom: string, before: seq<Line>, after: seq<Line>, written: string, names: set<Name>)
    requires LinesOf(written, bom, after) && Keeps(Texts(before), Texts(after), names)
    requires bom == "" ==> before != [] && PlainStart(Texts(before))
    ensures Read(written) == Reading(Texts(after), NoSection)
  {
    hide Reading, Read, WellFormed, Sub, Kept;
    TextReads(written, bom, after);
  }

  lemma CheckReads(text: string, bom: string, lines: seq<Line>)
    requires LinesOf(text, bom, lines) && (bom == "" ==> WithoutBom(text) == text)
    ensures Read(text) == Reading(Texts(lines), NoSection)
  {
    hide Reading, WellFormed, ParserLines;
    if bom == "" && lines == [] {
      assert text == "" by { assert Joined([]) == ""; }
      NothingRead(NoSection);
      NoneAfter(NoSection);
      assert Texts(lines) == [];
    } else {
      if bom == "" {
        assert text == Joined(lines);
        JoinedStart(lines);
      }
      TextReads(text, bom, lines);
    }
  }

  lemma OneMeans(w: Writer, text: string, edit: seq<Assignment>, resolved: seq<Resolved>, bom: string, before: seq<Line>, after: seq<Line>, written: string)
    requires Sensible(w) && |edit| == |resolved| == 1 && Resolves(w, edit[0], resolved[0])
    requires Read(Base(text)) == Reading(Texts(before), NoSection) && Read(written) == Reading(Texts(after), NoSection)
    requires Plainly(w, resolved[0], resolved, Read(text), Reading(Texts(before), NoSection)) ==>
               MeansThat(w, resolved[0], Texts(before), Texts(after))
    ensures !edit[0].remove && !TurnsOn(w, resolved[0], Read(text)) ==>
              MeansSame(w.rules, Read(text), Read(written), Named(resolved[0].section), resolved[0].key)
  {
    hide Reading, Read, Texts, MeansSame, MappedFor, TurnsOn, Survives, KindOf, CanonicalSection, Lower, Trim, Named;
    assert resolved == [resolved[0]];
    if text == "" {
      CreatedReads();
      CreatedIsEmpty(w, resolved[0]);
      if !edit[0].remove { CreatedMeans(w, Read(written), Named(resolved[0].section), resolved[0].key); }
    }
  }
}
