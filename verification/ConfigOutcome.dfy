/** When config.ini is not edited although the edit could be resolved (core/src/config_write.cpp): reading
    back what was asked cannot fail for one removal, nor for one setting outside the platforms, unless the
    comment of the line it is written to runs into it. */
module ConfigOutcome {
  import opened Options
  import opened ConfigText
  import opened ConfigLines
  import opened ConfigMeaning
  import opened ConfigEdit

  /** The last value a key has been given. */
  ghost predicate EndsIn(events: seq<Event>, section: Section, key: string, value: string) {
    var values := ValuesOf(events, section, key);
    values != [] && values[|values| - 1] == value
  }

  lemma LastGiven(x: seq<Event>, n: seq<Event>, z: seq<Event>, section: Section, key: string, value: string)
    requires ValuesOf(n, section, key) == [value] && ValuesOf(z, section, key) == []
    ensures EndsIn(x + n + z, section, key, value)
  {
    ValuesConcat(x, n, section, key);
    ValuesConcat(x + n, z, section, key);
  }

  /** The line that would be rewritten has an empty value, and a comment one space behind it. */
  ghost predicate Spoils(target: Resolved, lines: seq<string>, at: nat) {
    LastAssigned(lines, at, Named(target.section), target.key) && Absorbs(lines[at], target.value)
  }

  /** What one value written comes to, in events: it is the last of its key, the switch of its section is as
      it was, and no section is opened but, at the end, its own. */
  ghost predicate Stands(target: Resolved, was: seq<Event>, now: seq<Event>) {
    var section := Named(target.section);
    && EndsIn(now, section, target.key, target.value)
    && (target.key != ENABLED ==> ValuesOf(now, section, ENABLED) == ValuesOf(was, section, ENABLED))
    && ((HeadersOf(now) == HeadersOf(was) && section in HeadersOf(was)) || HeadersOf(now) == HeadersOf(was) + [section])
  }

  lemma {:induction false} OpenedBefore(lines: seq<string>, at: Section)
    ensures After(lines, at) == at || After(lines, at) in HeadersOf(Reading(lines, at))
  {
    hide ItemOf;
    if lines != [] {
      OpenedBefore(lines[1..], Next(lines[0], at));
      HeadersConcat(EventOf(lines[0], at), Reading(lines[1..], Next(lines[0], at)));
      if ItemOf(lines[0]).Header? {
        assert EventOf(lines[0], at) == [Opened(Next(lines[0], at))];
        OneHeader(Next(lines[0], at), at, "");
      }
    }
  }

  lemma OpenedAbove(lines: seq<string>, at: nat, section: Section)
    requires at <= |lines| && After(lines[..at], NoSection) == section != NoSection
    ensures section in HeadersOf(Reading(lines, NoSection))
  {
    hide ItemOf, HeadersOf, Reading, After;
    assert lines == lines[..at] + lines[at..];
    OpenedBefore(lines[..at], NoSection);
    ReadingConcat(lines[..at], lines[at..], NoSection);
    HeadersConcat(Reading(lines[..at], NoSection), Reading(lines[at..], section));
  }

  lemma ResetReads(target: Resolved, was: seq<string>, now: seq<string>, at: nat)
    requires Reset(target, was, now, at) && Survives(target.value) && !Spoils(target, was, at) && Named(target.section) != NoSection
    ensures Stands(target, Reading(was, NoSection), Reading(now, NoSection))
  {
    hide ItemOf, Survives, Absorbs, Rewritten, EndsIn, KeysIn, HeadersOf;
    var section, key, line := Named(target.section), target.key, Rewritten(was[at], target.value);
    var head, tail := was[..at + 1], was[at + 1..];
    var x, y, n, z := Reading(was[..at], NoSection), EventOf(was[at], section), EventOf(line, section), Reading(tail, section);
    RewrittenReads(was[at], target.value);
    ReplacedReads(was, at, line, section, key);
    assert head == was[..at] + [was[at]] && head + tail == was;
    ReadingConcat(was[..at], [was[at]], NoSection);
    OneLine(was[at], section);
    forall i | |head| <= i < |head + tail| ensures !Assigned(head + tail, i, section, key) {}
    TailIsUnread(head, tail, section, key);
    OneValue(line, section, key);
    LastGiven(x, n, z, section, key, target.value);
    OneSetEvent(was[at], section, key);
    OneSetEvent(line, section, key);
    SwapStands(target, Reading(was, NoSection), Reading(now, NoSection), x, y, n, z);
    OpenedAbove(was, at, section);
  }

  /** Settings of one key, or of folders, in place of others of them. */
  lemma SwapStands(target: Resolved, was: seq<Event>, now: seq<Event>, x: seq<Event>, y: seq<Event>, n: seq<Event>, z: seq<Event>)
    requires Swapped(was, now, x, y, n, z) && SetsOf(y, Named(target.section)) && SetsOf(n, Named(target.section))
    requires target.key != ENABLED ==> ENABLED !in KeysIn(y, Named(target.section)) && ENABLED !in KeysIn(n, Named(target.section))
    ensures HeadersOf(now) == HeadersOf(was)
    ensures target.key != ENABLED ==> ValuesOf(now, Named(target.section), ENABLED) == ValuesOf(was, Named(target.section), ENABLED)
  {
    hide Named, HeadersOf, KeysIn, ValuesOf;
    var section := Named(target.section);
    HeadersStay(was, now, x, y, n, z, section);
    if target.key != ENABLED {
      NoValuesIn(y, section, section, ENABLED);
      NoValuesIn(n, section, section, ENABLED);
      ValuesStay(was, now, x, y, n, z, section, ENABLED);
    }
  }

  lemma OneValue(line: string, section: Section, key: string)
    requires ItemOf(line).Setting? && ItemOf(line).key == key
    ensures ValuesOf(EventOf(line, section), section, key) == [ItemOf(line).value]
  {
    hide ItemOf;
    assert EventOf(line, section) == [Set(section, key, ItemOf(line).value)];
  }

  /** The lines an assignment is written as set its key once, and do not touch the switch. */
  ghost predicate Tells(target: Resolved, body: seq<(string, string)>) {
    var section := Named(target.section);
    && Writable(body) && SetsOf(SetsFor(body, section), section)
    && ValuesOf(SetsFor(body, section), section, target.key) == [target.value]
    && (target.key != ENABLED ==> ENABLED !in KeysIn(SetsFor(body, section), section))
  }

  lemma BodyTells(w: Writer, target: Resolved, inForce: seq<Event>, was: seq<string>)
    requires Sensible(w) && Askable(w, target) && !target.remove
    requires MappedFor(w, target, inForce) == MappedFor(w, target, Reading(was, NoSection))
    ensures Tells(target, BodyOf(w, target, inForce, was))
  {
    hide Survives, PlainKey, Sensible, Reading, ValuesOf, KeysIn, SetsFor, InForce, BodyFor, SetsOf;
    var section, body := Named(target.section), BodyOf(w, target, inForce, was);
    KeysArePlain(w, target.section, target.key);
    AreSets(body, section);
    NotTheSwitch();
    if KindOf(w, target.section, target.key) == PathList && Folderless(was, section) {
      var mapped := MappedFor(w, target, inForce);
      BodyCarries(w, Reading(was, NoSection), section.slug, target.key, target.value);
      if mapped == Folders([], [], []) {
        assert body == [(target.key, target.value)] by { NothingMapped(target.key, target.value); }
        OneSet(target.key, target.value, section, target.key);
      } else {
        BodySets(target.key, target.value, mapped, section, target.key);
      }
    } else {
      OneIsWritable(target.key, target.value);
      OneSet(target.key, target.value, section, target.key);
    }
  }

  lemma NothingMapped(key: string, value: string)
    ensures BodyFor(key, value, Folders([], [], [])) == [(key, value)]
  {
  }

  lemma JoinsReads(target: Resolved, body: seq<(string, string)>, was: seq<string>, now: seq<string>, at: nat)
    requires Joins(target, body, was, now, at) && Unassigned(was, Named(target.section), target.key)
    requires Tells(target, body) && Named(target.section) != NoSection
    ensures Stands(target, Reading(was, NoSection), Reading(now, NoSection))
  {
    hide ItemOf, PlainKey, Assigned, EndsIn, Assignments, KeysIn, HeadersOf, SetsFor, Writable, SetsOf;
    var section, key := Named(target.section), target.key;
    var a, b := was[..at], was[at..];
    assert a + b == was;
    BodyReads(body, section);
    PutInReads(a, Assignments(body), b, section);
    UnassignedIsUnread(was, section, key);
    ValuesConcat(Reading(a, NoSection), Reading(b, section), section, key);
    assert Reading(a, NoSection) + [] == Reading(a, NoSection);
    NoKeys(section);
    LastGiven(Reading(a, NoSection), SetsFor(body, section), Reading(b, section), section, key, target.value);
    SwapStands(target, Reading(was, NoSection), Reading(now, NoSection), Reading(a, NoSection), [], SetsFor(body, section), Reading(b, section));
    OpenedAbove(was, at, section);
  }

  lemma BeginsReads(target: Resolved, body: seq<(string, string)>, was: seq<string>, now: seq<string>, blank: seq<string>)
    requires Begins(target, body, was, now, blank) && Tells(target, body)
    requires Survives(target.section) && Named(target.section) != Unknown
    ensures Stands(target, Reading(was, NoSection), Reading(now, NoSection))
  {
    hide ItemOf, Survives, PlainKey, EndsIn, Assignments, HeaderLine, Means, HeadersOf, KeysIn, Writable, SetsFor, SetsOf;
    var section, key := Named(target.section), target.key;
    var sets := SetsFor(body, section);
    SectionReads(was, blank, target.section, body);
    LastGiven(Reading(was, NoSection) + [Opened(section)], sets, [], section, key, target.value);
    var events := Reading(was, NoSection) + [Opened(section)] + sets;
    assert events + [] == events;
    HeadersConcat(Reading(was, NoSection), [Opened(section)]);
    HeadersConcat(Reading(was, NoSection) + [Opened(section)], sets);
    NoHeadersIn(sets, section);
    OneHeader(section, section, ENABLED);
    ValuesConcat(Reading(was, NoSection), [Opened(section)], section, ENABLED);
    ValuesConcat(Reading(was, NoSection) + [Opened(section)], sets, section, ENABLED);
    if key != ENABLED { NoValuesIn(sets, section, section, ENABLED); }
  }

  /** A value that was placed is the one the parser goes by, unless a comment has run into it. */
  lemma PlacedReads(w: Writer, target: Resolved, inForce: seq<Event>, was: seq<string>, now: seq<string>)
    requires Sensible(w) && Askable(w, target) && !target.remove
    requires Placed(target, BodyOf(w, target, inForce, was), was, now)
    requires MappedFor(w, target, inForce) == MappedFor(w, target, Reading(was, NoSection))
    requires forall at :: !Spoils(target, was, at)
    ensures Stands(target, Reading(was, NoSection), Reading(now, NoSection))
  {
    hide Survives, PlainKey, EndsIn, Sensible, Reset, Joins, Begins, Unassigned, Spoils, Named, BodyOf, Stands, Tells, MappedFor;
    var body := BodyOf(w, target, inForce, was);
    BodyTells(w, target, inForce, was);
    NotASettingUnlessNamed(w, target);
    if at :| Reset(target, was, now, at) {
      ResetReads(target, was, now, at);
    } else if at :| Joins(target, body, was, now, at) {
      JoinsReads(target, body, was, now, at);
    } else {
      var blank :| Begins(target, body, was, now, blank);
      BeginsReads(target, body, was, now, blank);
    }
  }

  /** What is kept when a name is dropped gives it no value. */
  lemma {:induction false} DroppedIsUnread(lines: seq<string>, at: Section, section: Section, key: string)
    ensures ValuesOf(Reading(Kept(lines, at, {Name(section, key)}), at), section, key) == []
  {
    hide ItemOf;
    if lines != [] {
      var line, rest, names := lines[0], Kept(lines[1..], Next(lines[0], at), {Name(section, key)}), {Name(section, key)};
      DroppedIsUnread(lines[1..], Next(line, at), section, key);
      if !Sets(line, at, names) {
        assert Kept(lines, at, names) == [line] + rest;
        ReadingConcat([line], rest, at);
        OneLine(line, at);
        ValuesConcat(EventOf(line, at), Reading(rest, Next(line, at)), section, key);
        assert ValuesOf(EventOf(line, at), section, key) == [];
      } else {
        assert Kept(lines, at, names) == rest && Next(line, at) == at;
      }
    }
  }

  // ----- One removal -----

  lemma DroppedOne(line: string, at: Section, section: Section, key: string, s: Section, k: string)
    requires Sets(line, at, {Name(section, key)})
    ensures Next(line, at) == at == section && HeadersOf(EventOf(line, at)) == []
    ensures s != section || k != key ==> ValuesOf(EventOf(line, at), s, k) == []
    ensures s != section ==> KeysIn(EventOf(line, at), s) == {}
  {
    hide ItemOf;
    assert EventOf(line, at) == [Set(section, key, ItemOf(line).value)];
  }

  /** Nothing but what a name's own lines say is dropped with them. */
  lemma {:induction false} DroppedReads(lines: seq<string>, at: Section, section: Section, key: string, s: Section, k: string)
    ensures var was, now := Reading(lines, at), Reading(Kept(lines, at, {Name(section, key)}), at);
            && HeadersOf(now) == HeadersOf(was)
            && (s != section || k != key ==> ValuesOf(now, s, k) == ValuesOf(was, s, k))
            && (s != section ==> KeysIn(now, s) == KeysIn(was, s))
  {
    hide ItemOf, KeysIn, Sets;
    if lines != [] {
      var line, rest, next, names := lines[0], lines[1..], Next(lines[0], at), {Name(section, key)};
      var kept := Kept(rest, next, names);
      DroppedReads(rest, next, section, key, s, k);
      HeadersConcat(EventOf(line, at), Reading(rest, next));
      ValuesConcat(EventOf(line, at), Reading(rest, next), s, k);
      KeysConcat(EventOf(line, at), Reading(rest, next), s);
      if Sets(line, at, names) {
        DroppedOne(line, at, section, key, s, k);
        assert Kept(lines, at, names) == kept;
      } else {
        assert Kept(lines, at, names) == [line] + kept;
        assert ([line] + kept)[1..] == kept;
        HeadersConcat(EventOf(line, at), Reading(kept, next));
        ValuesConcat(EventOf(line, at), Reading(kept, next), s, k);
        KeysConcat(EventOf(line, at), Reading(kept, next), s);
      }
    }
  }

  /** A setting outside the platforms that is removed is as it is by default, and nothing else has changed. */
  lemma RemovalMeans(w: Writer, text: string, edit: seq<Assignment>, resolved: seq<Resolved>,
                     bom: string, before: seq<Line>, after: seq<Line>, written: string)
    requires Sensible(w) && |edit| == 1 && edit[0].remove && Edited(w, text, edit, resolved, bom, before, after, written)
    requires KindOf(w, resolved[0].section, resolved[0].key) == Scalar
    ensures MeansSame(w.rules, Read(text), Read(written), Named(resolved[0].section), resolved[0].key)
    ensures Field(w.rules, Read(written), Named(resolved[0].section), resolved[0].key)
            == w.rules.initial(Named(resolved[0].section), resolved[0].key)
  {
    hide Survives, KeysIn, Reading, Texts, Placed, Named, CanonicalSection, Lower, Trim, Kept, Keeps, MeansSame, WellFormed, Joined, ValuesOf, HeadersOf;
    var target := resolved[0];
    assert Resolves(w, edit[0], target);
    NotASettingUnlessNamed(w, target);
    var section, key, lines := Named(target.section), target.key, Texts(before);
    DroppedIsUnread(lines, NoSection, section, key);
    DroppedMeansSame(w.rules, lines, section, key);
    if text == "" {
      CreatedReads();
      CreatedMeans(w, Read(written), section, key);
    }
  }

  lemma DroppedMeansSame(rules: Rules, lines: seq<string>, section: Section, key: string)
    requires !section.Platform? && section != NoSection
    ensures MeansSame(rules, Reading(lines, NoSection), Reading(Kept(lines, NoSection, {Name(section, key)}), NoSection), section, key)
  {
    hide ValuesOf, KeysIn, HeadersOf, Claimed, LastUsable, ListFrom, LastFlag, Reading, Kept;
    var was, now := Reading(lines, NoSection), Reading(Kept(lines, NoSection, {Name(section, key)}), NoSection);
    forall s, k | s != section || k != key ensures Field(rules, now, s, k) == Field(rules, was, s, k) {
      DroppedReads(lines, NoSection, section, key, s, k);
    }
    forall slug, k ensures FolderList(rules, now, slug, k) == FolderList(rules, was, slug, k) {
      DroppedReads(lines, NoSection, section, key, Platform(slug), k);
      DroppedReads(lines, NoSection, section, key, Platform(slug), ENABLED);
    }
    DroppedReads(lines, NoSection, section, key, NoSection, "version");
  }

  // ----- What the read-back says of one value -----

  /** The platform is mapped once its section is there. */
  ghost predicate Claimable(rules: Rules, was: seq<Event>, slug: string) {
    slug in Claimed(HeadersOf(was) + [Platform(slug)], rules.cap)
  }

  /** Whether a value reads back as itself, in a file that said `was`: a setting outside the platforms always
      does; a choice, if its platform is one of those a file may map, or is what it would be without; a
      folder list, unless its platform is not, or is switched off. */
  ghost predicate Receptive(w: Writer, target: Resolved, was: seq<Event>) {
    var section := Named(target.section);
    match KindOf(w, target.section, target.key)
    case Scalar => true
    case Choice => Claimable(w.rules, was, section.slug) || w.rules.initial(section, target.key) == target.value
    case PathList =>
      target.value == if !Claimable(w.rules, was, section.slug) then Join(OnByDefault(w.rules, section.slug, target.key))
                      else if LastFlag(w.rules, ValuesOf(was, section, ENABLED)) == Some(false) then "" else target.value
    case NotASetting => false
  }

  lemma {:induction false} FullOtherwise(headers: seq<Section>, slug: string, cap: nat)
    requires Platform(slug) in headers && slug !in Claimed(headers, cap)
    ensures |Claimed(headers, cap)| >= cap
  {
    var n := |headers| - 1;
    assert headers == headers[..n] + [headers[n]];
    if Platform(slug) in headers[..n] { FullOtherwise(headers[..n], slug, cap); }
  }

  lemma ClaimsStand(rules: Rules, target: Resolved, was: seq<Event>, now: seq<Event>)
    requires Stands(target, was, now) && Named(target.section).Platform?
    ensures Claimable(rules, was, Named(target.section).slug) <==> Named(target.section).slug in Claimed(HeadersOf(now), rules.cap)
  {
    hide HeadersOf, EndsIn;
    var section := Named(target.section);
    ClaimedOne(HeadersOf(was), section, rules.cap);
    if HeadersOf(now) == HeadersOf(was) && section.slug !in Claimed(HeadersOf(was), rules.cap) && section in HeadersOf(was) {
      FullOtherwise(HeadersOf(was), section.slug, rules.cap);
    }
  }

  lemma NormalReads(w: Writer, was: seq<Event>, now: seq<Event>, target: Resolved, asked: string)
    requires Sensible(w) && KindOf(w, target.section, target.key) in {Scalar, Choice}
    requires w.normal(Named(target.section), target.key, asked) == Some(target.value)
    requires Stands(target, was, now)
    ensures ReadsBackAs(w, now, target) <==> Receptive(w, target, was)
  {
    hide Survives, ValuesOf, PlainKey, Join, HeadersOf, Claimed, Claimable;
    var section := Named(target.section);
    if section.Platform? { ClaimsStand(w.rules, target, was, now); }
    assert w.rules.usable(section, target.key, target.value) == Some(target.value);
  }

  lemma FoldersRead(w: Writer, was: seq<Event>, now: seq<Event>, target: Resolved, asked: string)
    requires Sensible(w) && KindOf(w, target.section, target.key) == PathList
    requires w.normal(Named(target.section), target.key, asked) == Some(target.value)
    requires Stands(target, was, now)
    ensures ReadsBackAs(w, now, target) <==> Receptive(w, target, was)
  {
    hide Survives, ValuesOf, PlainKey, Join, HeadersOf, Claimed, Claimable, LastFlag, KeysIn, BuiltIn;
    var section := Named(target.section);
    ClaimsStand(w.rules, target, was, now);
    NotTheSwitch();
    if target.key !in KeysIn(now, section) {
      NoValuesWithout(now, section, target.key);
      assert false;
    }
    HasFolders(KeysIn(now, section), target.key);
    assert Join([]) == "" by { NothingJoined(); }
    assert Join(w.rules.paths(target.value)) == target.value;
  }

  lemma NothingJoined()
    ensures Join([]) == ""
  {
  }

  /** One assignment that could be resolved is handed out exactly when it is not too long and, if it sets a value,
      the file is receptive of it; unless the comment of the line it is written to runs into the value. */
  lemma OneIsAccepted(w: Writer, text: string, edit: seq<Assignment>, out: Option<string>,
                      resolved: seq<Resolved>, bom: string, before: seq<Line>, after: seq<Line>, written: string)
    requires Sensible(w) && |edit| == 1 && Decided(w, text, edit, out, resolved, bom, before, after, written)
    requires !edit[0].remove ==> forall at :: !Spoils(resolved[0], Texts(before), at)
    ensures out == if |written| <= w.maxBytes && (edit[0].remove || Receptive(w, resolved[0], Read(Base(text)))) then Some(written) else None
  {
    hide Survives, KeysIn, Reading, Read, Texts, Placed, Spoils, Named, CanonicalSection, Lower, Trim, EndsIn, Kept, Keeps, MeansSame, WellFormed, Joined, Receptive, ReadsBackAs, MappedFor, Sensible;
    var target, was, now := resolved[0], Texts(before), Texts(after);
    assert Resolves(w, edit[0], target);
    if target.remove {
      DroppedIsUnread(was, NoSection, Named(target.section), target.key);
    } else {
      MappedAlike(w, target, text);
      PlacedReads(w, target, Read(text), was, now);
      if KindOf(w, target.section, target.key) == PathList {
        FoldersRead(w, Read(Base(text)), Read(written), target, edit[0].value);
      } else {
        NormalReads(w, Read(Base(text)), Read(written), target, edit[0].value);
      }
    }
    assert Holds(w, Read(written), target) <==> edit[0].remove || Receptive(w, target, Read(Base(text)));
  }

  lemma MappedAlike(w: Writer, target: Resolved, text: string)
    ensures MappedFor(w, target, Read(text)) == MappedFor(w, target, Read(Base(text)))
  {
    hide Read, MappedFor;
    if text == "" {
      CreatedReads();
      CreatedIsEmpty(w, target);
    }
  }
}
