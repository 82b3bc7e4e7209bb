/** What config.ini means (core/src/config.cpp): every key's last usable line wins, and a platform's
    section replaces its built-in folders. How each key's value is read is left open. */
module ConfigMeaning {
  import opened Options
  import opened ConfigText
  import opened ConfigLines

  const ROMS := "roms"
  const SAVES := "saves"
  const STATES := "states"
  const EMULATOR := "emulator"
  const PLAY_WITH := "play_with"
  const ENABLED := "enabled"

  predicate FolderKey(key: string) { key == ROMS || key == SAVES || key == STATES }

  predicate ChoiceKey(key: string) { key == EMULATOR || key == PLAY_WITH }

  datatype Folders = Folders(roms: seq<string>, saves: seq<string>, states: seq<string>)

  function At(folders: Folders, key: string): seq<string> {
    if key == ROMS then folders.roms else if key == SAVES then folders.saves else folders.states
  }

  /** How values are read, the built-in platforms, which of them are on, and how many a file may map. */
  datatype Rules = Rules(usable: (Section, string, string) -> Option<string>, initial: (Section, string) -> string,
                         paths: string -> seq<string>, flag: string -> Option<bool>, newer: string -> bool,
                         builtIn: map<string, Folders>, on: set<string>, cap: nat)

  // ----- The values of a key, in order, and the sections in order -----

  function ValuesOf(events: seq<Event>, section: Section, key: string): seq<string> {
    if events == [] then []
    else (if events[0].Set? && events[0].section == section && events[0].key == key then [events[0].value] else [])
         + ValuesOf(events[1..], section, key)
  }

  lemma {:induction false} ValuesConcat(a: seq<Event>, b: seq<Event>, section: Section, key: string)
    ensures ValuesOf(a + b, section, key) == ValuesOf(a, section, key) + ValuesOf(b, section, key)
  {
    if a == [] {
      assert a + b == b;
    } else {
      assert (a + b)[0] == a[0] && (a + b)[1..] == a[1..] + b;
      ValuesConcat(a[1..], b, section, key);
    }
  }

  function HeadersOf(events: seq<Event>): seq<Section> {
    if events == [] then [] else (if events[0].Opened? then [events[0].section] else []) + HeadersOf(events[1..])
  }

  lemma {:induction false} HeadersConcat(a: seq<Event>, b: seq<Event>)
    ensures HeadersOf(a + b) == HeadersOf(a) + HeadersOf(b)
  {
    if a == [] {
      assert a + b == b;
    } else {
      assert (a + b)[0] == a[0] && (a + b)[1..] == a[1..] + b;
      HeadersConcat(a[1..], b);
    }
  }

  /** The platforms a file maps: each the first time it is named, until there are too many. */
  function Claimed(headers: seq<Section>, cap: nat): seq<string> {
    if headers == [] then []
    else
      var before := Claimed(headers[..|headers| - 1], cap);
      var last := headers[|headers| - 1];
      if last.Platform? && last.slug !in before && |before| < cap then before + [last.slug] else before
  }

  lemma ClaimedOne(headers: seq<Section>, section: Section, cap: nat)
    ensures var before := Claimed(headers, cap);
            Claimed(headers + [section], cap)
            == if section.Platform? && section.slug !in before && |before| < cap then before + [section.slug] else before
  {
    assert (headers + [section])[..|headers|] == headers;
  }

  lemma {:induction false} ClaimedAreNamed(headers: seq<Section>, cap: nat, slug: string)
    requires slug in Claimed(headers, cap)
    ensures Platform(slug) in headers
  {
    if slug in Claimed(headers[..|headers| - 1], cap) {
      ClaimedAreNamed(headers[..|headers| - 1], cap, slug);
      assert headers == headers[..|headers| - 1] + [headers[|headers| - 1]];
    }
  }

  function KeysIn(events: seq<Event>, section: Section): set<string> {
    set event | event in events && event.Set? && event.section == section :: event.key
  }

  lemma KeysConcat(a: seq<Event>, b: seq<Event>, section: Section)
    ensures KeysIn(a + b, section) == KeysIn(a, section) + KeysIn(b, section)
  {
    assert forall event :: event in a + b <==> event in a || event in b;
  }

  // ----- What is in force -----

  function LastUsable(rules: Rules, section: Section, key: string, values: seq<string>): string {
    if values == [] then rules.initial(section, key)
    else
      match rules.usable(section, key, values[|values| - 1])
      case Some(value) => value
      case None => LastUsable(rules, section, key, values[..|values| - 1])
  }

  function LastFlag(rules: Rules, values: seq<string>): Option<bool> {
    if values == [] then None
    else
      match rules.flag(values[|values| - 1])
      case Some(flag) => Some(flag)
      case None => LastFlag(rules, values[..|values| - 1])
  }

  predicate Counts(rules: Rules, events: seq<Event>, section: Section) {
    section.Platform? ==> section.slug in Claimed(HeadersOf(events), rules.cap)
  }

  /** Every setting but the folder lists: a number, a word, a switch. */
  function Field(rules: Rules, events: seq<Event>, section: Section, key: string): string {
    LastUsable(rules, section, key, if Counts(rules, events, section) then ValuesOf(events, section, key) else [])
  }

  predicate SetsFolders(keys: set<string>) { exists key :: key in keys && !ChoiceKey(key) && key != ENABLED }

  function BuiltIn(rules: Rules, slug: string, key: string): seq<string> {
    if slug in rules.builtIn then At(rules.builtIn[slug], key) else []
  }

  function OnByDefault(rules: Rules, slug: string, key: string): seq<string> {
    if slug in rules.on then BuiltIn(rules, slug, key) else []
  }

  /** A folder list, from what the file says of its platform. */
  function ListFrom(rules: Rules, slug: string, key: string, keys: set<string>, enabled: Option<bool>, values: seq<string>): seq<string> {
    if enabled.Some? && !enabled.value then []
    else if !SetsFolders(keys) && enabled.Some? then BuiltIn(rules, slug, key)
    else if !SetsFolders(keys) && (EMULATOR in keys || PLAY_WITH in keys) && slug in rules.on then BuiltIn(rules, slug, key)
    else if values == [] then [] else rules.paths(values[|values| - 1])
  }

  function FolderList(rules: Rules, events: seq<Event>, slug: string, key: string): seq<string> {
    if slug !in Claimed(HeadersOf(events), rules.cap) then OnByDefault(rules, slug, key)
    else ListFrom(rules, slug, key, KeysIn(events, Platform(slug)), LastFlag(rules, ValuesOf(events, Platform(slug), ENABLED)),
                  ValuesOf(events, Platform(slug), key))
  }

  /** A file for a later release is not read at all. */
  predicate Newer(rules: Rules, events: seq<Event>) {
    exists value :: value in ValuesOf(events, NoSection, "version") && rules.newer(value)
  }

  /** Nothing but `key` of `section` means anything else. */
  ghost predicate FieldsBut(rules: Rules, was: seq<Event>, now: seq<Event>, section: Section, key: string) {
    forall s, k :: s != NoSection && (s != section || k != key) && !(s.Platform? && FolderKey(k)) ==> Field(rules, now, s, k) == Field(rules, was, s, k)
  }

  ghost predicate ListsBut(rules: Rules, was: seq<Event>, now: seq<Event>, section: Section, key: string) {
    forall slug, k :: FolderKey(k) && (Platform(slug) != section || k != key) ==>
                        FolderList(rules, now, slug, k) == FolderList(rules, was, slug, k)
  }

  ghost predicate MeansSame(rules: Rules, was: seq<Event>, now: seq<Event>, section: Section, key: string) {
    && FieldsBut(rules, was, now, section, key) && ListsBut(rules, was, now, section, key)
    && (Newer(rules, now) <==> Newer(rules, was))
  }

  // ----- What an edit may do to the events -----

  /** Settings of one section, in place of others of it. */
  ghost predicate SetsOf(events: seq<Event>, section: Section) {
    forall event :: event in events ==> event.Set? && event.section == section
  }

  ghost predicate Swapped(was: seq<Event>, now: seq<Event>, x: seq<Event>, y: seq<Event>, n: seq<Event>, z: seq<Event>) {
    was == x + y + z && now == x + n + z
  }

  lemma {:induction false} NoHeadersIn(events: seq<Event>, section: Section)
    requires SetsOf(events, section)
    ensures HeadersOf(events) == []
  {
    if events != [] {
      assert events[0] in events && forall event :: event in events[1..] ==> event in events;
      NoHeadersIn(events[1..], section);
    }
  }

  lemma {:induction false} NoValuesIn(events: seq<Event>, section: Section, other: Section, key: string)
    requires SetsOf(events, section) && (other != section || key !in KeysIn(events, section))
    ensures ValuesOf(events, other, key) == []
  {
    if events != [] {
      assert events[0] in events && forall event :: event in events[1..] ==> event in events;
      NoValuesIn(events[1..], section, other, key);
    }
  }

  lemma HeadersStay(was: seq<Event>, now: seq<Event>, x: seq<Event>, y: seq<Event>, n: seq<Event>, z: seq<Event>, section: Section)
    requires Swapped(was, now, x, y, n, z) && SetsOf(y, section) && SetsOf(n, section)
    ensures HeadersOf(now) == HeadersOf(was)
  {
    NoHeadersIn(y, section);
    NoHeadersIn(n, section);
    HeadersConcat(x, y);
    HeadersConcat(x + y, z);
    HeadersConcat(x, n);
    HeadersConcat(x + n, z);
  }

  lemma ValuesStay(was: seq<Event>, now: seq<Event>, x: seq<Event>, y: seq<Event>, n: seq<Event>, z: seq<Event>, s: Section, k: string)
    requires Swapped(was, now, x, y, n, z) && ValuesOf(y, s, k) == ValuesOf(n, s, k)
    ensures ValuesOf(now, s, k) == ValuesOf(was, s, k)
  {
    ValuesConcat(x, y, s, k);
    ValuesConcat(x + y, z, s, k);
    ValuesConcat(x, n, s, k);
    ValuesConcat(x + n, z, s, k);
  }

  lemma KeysSwapped(was: seq<Event>, now: seq<Event>, x: seq<Event>, y: seq<Event>, n: seq<Event>, z: seq<Event>, s: Section)
    requires Swapped(was, now, x, y, n, z)
    ensures KeysIn(was, s) == KeysIn(x + z, s) + KeysIn(y, s) && KeysIn(now, s) == KeysIn(x + z, s) + KeysIn(n, s)
  {
    KeysConcat(x, y, s);
    KeysConcat(x + y, z, s);
    KeysConcat(x, n, s);
    KeysConcat(x + n, z, s);
    KeysConcat(x, z, s);
  }

  /** What a section says of another is untouched. */
  lemma OthersStay(was: seq<Event>, now: seq<Event>, x: seq<Event>, y: seq<Event>, n: seq<Event>, z: seq<Event>, section: Section, s: Section, k: string)
    requires Swapped(was, now, x, y, n, z) && SetsOf(y, section) && SetsOf(n, section) && s != section
    ensures ValuesOf(now, s, k) == ValuesOf(was, s, k) && KeysIn(now, s) == KeysIn(was, s)
  {
    NoValuesIn(y, section, s, k);
    NoValuesIn(n, section, s, k);
    ValuesStay(was, now, x, y, n, z, s, k);
    KeysSwapped(was, now, x, y, n, z, s);
    assert KeysIn(y, s) == {} && KeysIn(n, s) == {};
  }

  /** Settings of one section may change nothing outside it; inside it only `keys` differ. */
  lemma OutsideStays(rules: Rules, was: seq<Event>, now: seq<Event>, x: seq<Event>, y: seq<Event>, n: seq<Event>, z: seq<Event>, section: Section)
    requires Swapped(was, now, x, y, n, z) && SetsOf(y, section) && SetsOf(n, section) && section != NoSection
    ensures Newer(rules, now) <==> Newer(rules, was)
    ensures forall s, k :: s != section ==> Field(rules, now, s, k) == Field(rules, was, s, k)
    ensures forall slug, k :: Platform(slug) != section ==> FolderList(rules, now, slug, k) == FolderList(rules, was, slug, k)
  {
    HeadersStay(was, now, x, y, n, z, section);
    OthersStay(was, now, x, y, n, z, section, NoSection, "version");
    forall s, k | s != section ensures Field(rules, now, s, k) == Field(rules, was, s, k) {
      OthersStay(was, now, x, y, n, z, section, s, k);
    }
    forall slug, k | Platform(slug) != section ensures FolderList(rules, now, slug, k) == FolderList(rules, was, slug, k) {
      OthersStay(was, now, x, y, n, z, section, Platform(slug), k);
      OthersStay(was, now, x, y, n, z, section, Platform(slug), ENABLED);
    }
  }

  /** One key's line rewritten, or one added: no other key of its section changes its values. */
  lemma InsideStays(rules: Rules, was: seq<Event>, now: seq<Event>, x: seq<Event>, y: seq<Event>, n: seq<Event>, z: seq<Event>, section: Section, key: string, k: string)
    requires Swapped(was, now, x, y, n, z) && SetsOf(y, section) && SetsOf(n, section)
    requires k !in KeysIn(y, section) && k !in KeysIn(n, section)
    ensures Field(rules, now, section, k) == Field(rules, was, section, k) && ValuesOf(now, section, k) == ValuesOf(was, section, k)
  {
    HeadersStay(was, now, x, y, n, z, section);
    NoValuesIn(y, section, section, k);
    NoValuesIn(n, section, section, k);
    ValuesStay(was, now, x, y, n, z, section, k);
  }

  // ----- What each kind of edit leaves alone -----

  ghost predicate HasChoice(keys: set<string>) { EMULATOR in keys || PLAY_WITH in keys }

  ghost predicate HasBuiltIn(rules: Rules, slug: string) { exists k :: FolderKey(k) && BuiltIn(rules, slug, k) != [] }

  /** A section that says nothing of its folders, not even that it is on, of a platform that is on by default. */
  ghost predicate Empties(rules: Rules, events: seq<Event>, slug: string) {
    && slug in rules.on && HasBuiltIn(rules, slug)
    && slug in Claimed(HeadersOf(events), rules.cap)
    && !SetsFolders(KeysIn(events, Platform(slug))) && !HasChoice(KeysIn(events, Platform(slug)))
    && LastFlag(rules, ValuesOf(events, Platform(slug), ENABLED)) == None
  }

  /** Whether a platform's folders are its own or the built-in ones is decided as before. */
  ghost predicate Unmoved(rules: Rules, was: seq<Event>, now: seq<Event>, slug: string) {
    var before, after := KeysIn(was, Platform(slug)), KeysIn(now, Platform(slug));
    && (SetsFolders(before) <==> SetsFolders(after))
    && (SetsFolders(before) || HasChoice(before) == HasChoice(after) || !Empties(rules, was, slug))
  }

  lemma OneKeyMeans(rules: Rules, was: seq<Event>, now: seq<Event>, x: seq<Event>, y: seq<Event>, n: seq<Event>, z: seq<Event>, section: Section, key: string)
    requires Swapped(was, now, x, y, n, z) && SetsOf(y, section) && SetsOf(n, section) && section != NoSection
    requires KeysIn(y, section) <= {key} && KeysIn(n, section) <= {key}
    requires section.Platform? ==> key != ENABLED && Unmoved(rules, was, now, section.slug)
    requires section.Platform? ==> HasChoice(KeysIn(was, section)) ==> HasChoice(KeysIn(now, section))
    ensures MeansSame(rules, was, now, section, key)
  {
    hide Field, FolderList, KeysIn, Swapped, Newer, SetsOf;
    OutsideStays(rules, was, now, x, y, n, z, section);
    HeadersStay(was, now, x, y, n, z, section);
    forall k | k != key ensures Field(rules, now, section, k) == Field(rules, was, section, k)
                        ensures ValuesOf(now, section, k) == ValuesOf(was, section, k) {
      InsideStays(rules, was, now, x, y, n, z, section, key, k);
    }
    if section.Platform? {
      forall k | FolderKey(k) && k != key ensures FolderList(rules, now, section.slug, k) == FolderList(rules, was, section.slug, k) {
        ListStays(rules, was, now, section.slug, k);
      }
    }
  }

  lemma ListStays(rules: Rules, was: seq<Event>, now: seq<Event>, slug: string, k: string)
    requires FolderKey(k) && HeadersOf(now) == HeadersOf(was) && Unmoved(rules, was, now, slug)
    requires HasChoice(KeysIn(was, Platform(slug))) ==> HasChoice(KeysIn(now, Platform(slug)))
    requires ValuesOf(now, Platform(slug), k) == ValuesOf(was, Platform(slug), k)
    requires ValuesOf(now, Platform(slug), ENABLED) == ValuesOf(was, Platform(slug), ENABLED)
    ensures FolderList(rules, now, slug, k) == FolderList(rules, was, slug, k)
  {
    hide ListFrom, KeysIn, LastFlag, Claimed, HeadersOf, ValuesOf, SetsFolders, HasChoice;
    var enabled := LastFlag(rules, ValuesOf(was, Platform(slug), ENABLED));
    if slug in Claimed(HeadersOf(was), rules.cap) {
      if k in KeysIn(was, Platform(slug)) {
        HasFolders(KeysIn(was, Platform(slug)), k);
      } else {
        NoValuesWithout(was, Platform(slug), k);
      }
      SameList(rules, slug, k, KeysIn(was, Platform(slug)), KeysIn(now, Platform(slug)), enabled, ValuesOf(was, Platform(slug), k));
    }
  }

  lemma SameList(rules: Rules, slug: string, k: string, a: set<string>, b: set<string>, enabled: Option<bool>, values: seq<string>)
    requires SetsFolders(a) <==> SetsFolders(b)
    requires SetsFolders(a) || HasChoice(a) == HasChoice(b) || enabled != None || slug !in rules.on || BuiltIn(rules, slug, k) == values == []
    ensures ListFrom(rules, slug, k, a, enabled, values) == ListFrom(rules, slug, k, b, enabled, values)
  {
    hide SetsFolders;
  }

  /** The one case left out above: a choice made in an empty section turns the built-in folders on. */
  lemma ChoiceTurnsOn(rules: Rules, was: seq<Event>, now: seq<Event>, x: seq<Event>, n: seq<Event>, z: seq<Event>, slug: string, key: string)
    requires Swapped(was, now, x, [], n, z) && SetsOf(n, Platform(slug)) && KeysIn(n, Platform(slug)) == {key}
    requires ChoiceKey(key) && Empties(rules, was, slug)
    ensures forall k :: FolderKey(k) ==> FolderList(rules, was, slug, k) == [] && FolderList(rules, now, slug, k) == BuiltIn(rules, slug, k)
    ensures !MeansSame(rules, was, now, Platform(slug), key)
  {
    hide Field, KeysIn, Swapped, Newer, SetsOf, BuiltIn, SetsFolders, LastFlag, Claimed, HeadersOf, ValuesOf, HasBuiltIn;
    var section := Platform(slug);
    NoKeys(section);
    KeysSwapped(was, now, x, [], n, z, section);
    HeadersStay(was, now, x, [], n, z, section);
    InsideStays(rules, was, now, x, [], n, z, section, key, ENABLED);
    SameFolders(KeysIn(was, section), KeysIn(now, section), KeysIn(x + z, section), key);
    forall k | FolderKey(k)
      ensures FolderList(rules, was, slug, k) == [] && FolderList(rules, now, slug, k) == BuiltIn(rules, slug, k)
    {
      if k in KeysIn(was, section) { HasFolders(KeysIn(was, section), k); }
      NoValuesWithout(was, section, k);
    }
    SomeBuiltIn(rules, slug, key);
  }

  lemma SameFolders(was: set<string>, now: set<string>, rest: set<string>, key: string)
    requires was == rest + {} && now == rest + {key} && ChoiceKey(key)
    ensures (SetsFolders(was) <==> SetsFolders(now)) && HasChoice(now)
  {
  }

  lemma SomeBuiltIn(rules: Rules, slug: string, key: string)
    requires HasBuiltIn(rules, slug) && ChoiceKey(key)
    ensures exists k :: FolderKey(k) && k != key && BuiltIn(rules, slug, k) != []
  {
    var k :| FolderKey(k) && BuiltIn(rules, slug, k) != [];
    assert k != key;
  }

  /** Each folder list in force, but the one being set, is carried, or is empty. */
  ghost predicate Carries(rules: Rules, was: seq<Event>, sets: seq<Event>, slug: string, key: string) {
    && SetsOf(sets, Platform(slug)) && key in KeysIn(sets, Platform(slug))
    && (forall k :: k in KeysIn(sets, Platform(slug)) ==> FolderKey(k))
    && (forall k :: FolderKey(k) && k != key ==>
                      var values := ValuesOf(sets, Platform(slug), k);
                      if values == [] then FolderList(rules, was, slug, k) == []
                      else rules.paths(values[|values| - 1]) == FolderList(rules, was, slug, k))
  }

  lemma CarriedMeans(rules: Rules, was: seq<Event>, now: seq<Event>, x: seq<Event>, n: seq<Event>, z: seq<Event>, slug: string, key: string)
    requires Swapped(was, now, x, [], n, z) && Carries(rules, was, n, slug, key) && FolderKey(key)
    requires forall k :: FolderKey(k) ==> ValuesOf(was, Platform(slug), k) == []
    ensures MeansSame(rules, was, now, Platform(slug), key)
  {
    hide Field, FolderList, KeysIn, Newer, Swapped, Carries, SetsOf;
    var section := Platform(slug);
    CarriedSets(rules, was, n, slug, key);
    NoKeys(section);
    OutsideStays(rules, was, now, x, [], n, z, section);
    HeadersStay(was, now, x, [], n, z, section);
    forall k | !FolderKey(k) ensures Field(rules, now, section, k) == Field(rules, was, section, k)
                             ensures ValuesOf(now, section, k) == ValuesOf(was, section, k) {
      InsideStays(rules, was, now, x, [], n, z, section, key, k);
    }
    forall k | FolderKey(k) && k != key ensures FolderList(rules, now, slug, k) == FolderList(rules, was, slug, k) {
      CarriedValues(was, now, x, n, z, section, k);
      KeysSwapped(was, now, x, [], n, z, section);
      CarriedList(rules, was, now, slug, key, n, k);
    }
  }

  lemma CarriedSets(rules: Rules, was: seq<Event>, n: seq<Event>, slug: string, key: string)
    requires Carries(rules, was, n, slug, key)
    ensures SetsOf(n, Platform(slug)) && forall k :: !FolderKey(k) ==> k !in KeysIn(n, Platform(slug))
  {
  }

  /** A carried list, in a section that now has folders of its own. */
  lemma CarriedList(rules: Rules, was: seq<Event>, now: seq<Event>, slug: string, key: string, sets: seq<Event>, k: string)
    requires Carries(rules, was, sets, slug, key) && FolderKey(key) && FolderKey(k) && k != key
    requires HeadersOf(now) == HeadersOf(was) && KeysIn(now, Platform(slug)) >= KeysIn(sets, Platform(slug))
    requires ValuesOf(now, Platform(slug), k) == ValuesOf(sets, Platform(slug), k)
    requires ValuesOf(now, Platform(slug), ENABLED) == ValuesOf(was, Platform(slug), ENABLED)
    ensures FolderList(rules, now, slug, k) == FolderList(rules, was, slug, k)
  {
    hide LastFlag, Claimed, KeysIn, SetsOf, HeadersOf, ValuesOf;
    HasFolders(KeysIn(now, Platform(slug)), key);
  }

  lemma HasFolders(keys: set<string>, key: string)
    requires key in keys && FolderKey(key)
    ensures SetsFolders(keys)
  {
  }

  lemma NoKeys(section: Section)
    ensures KeysIn([], section) == {} && SetsOf([], section)
  {
  }

  lemma CarriedValues(was: seq<Event>, now: seq<Event>, x: seq<Event>, n: seq<Event>, z: seq<Event>, s: Section, k: string)
    requires Swapped(was, now, x, [], n, z) && ValuesOf(was, s, k) == []
    ensures ValuesOf(now, s, k) == ValuesOf(n, s, k)
  {
    assert x + [] == x;
    ValuesConcat(x, z, s, k);
    ValuesConcat(x, n, s, k);
    ValuesConcat(x + n, z, s, k);
  }

  // ----- A new section at the end -----

  ghost predicate Appended(was: seq<Event>, now: seq<Event>, section: Section, sets: seq<Event>) {
    && now == was + [Opened(section)] + sets && SetsOf(sets, section)
    && section !in HeadersOf(was) && KeysIn(was, section) == {}
  }

  lemma AppendedReads(was: seq<Event>, now: seq<Event>, section: Section, sets: seq<Event>, s: Section, k: string)
    requires Appended(was, now, section, sets)
    ensures ValuesOf(now, s, k) == ValuesOf(was, s, k) + ValuesOf(sets, s, k)
    ensures KeysIn(now, s) == KeysIn(was, s) + KeysIn(sets, s)
    ensures s != section ==> ValuesOf(now, s, k) == ValuesOf(was, s, k) && KeysIn(now, s) == KeysIn(was, s)
  {
    hide ValuesOf;
    ValuesConcat(was, [Opened(section)], s, k);
    ValuesConcat(was + [Opened(section)], sets, s, k);
    KeysConcat(was, [Opened(section)], s);
    KeysConcat(was + [Opened(section)], sets, s);
    OneHeader(section, s, k);
    if s != section { NoValuesIn(sets, section, s, k); }
  }

  lemma AppendedClaims(rules: Rules, was: seq<Event>, now: seq<Event>, section: Section, sets: seq<Event>, slug: string)
    requires Appended(was, now, section, sets)
    ensures Platform(slug) != section ==> (slug in Claimed(HeadersOf(now), rules.cap) <==> slug in Claimed(HeadersOf(was), rules.cap))
    ensures Platform(slug) == section ==> slug !in Claimed(HeadersOf(was), rules.cap)
  {
    hide Claimed, HeadersOf, KeysIn;
    HeadersConcat(was, [Opened(section)]);
    HeadersConcat(was + [Opened(section)], sets);
    NoHeadersIn(sets, section);
    OneHeader(section, section, "");
    assert HeadersOf(now) == HeadersOf(was) + [section];
    ClaimedOne(HeadersOf(was), section, rules.cap);
    if slug in Claimed(HeadersOf(was), rules.cap) { ClaimedAreNamed(HeadersOf(was), rules.cap, slug); }
  }

  lemma OneHeader(section: Section, s: Section, k: string)
    ensures HeadersOf([Opened(section)]) == [section] && ValuesOf([Opened(section)], s, k) == [] && KeysIn([Opened(section)], s) == {}
  {
    assert [Opened(section)][1..] == [];
  }

  lemma {:induction false} NoValuesWithout(events: seq<Event>, section: Section, key: string)
    requires key !in KeysIn(events, section)
    ensures ValuesOf(events, section, key) == []
  {
    if events != [] {
      assert events[0] in events && forall event :: event in events[1..] ==> event in events;
      NoValuesWithout(events[1..], section, key);
    }
  }

  lemma AppendedMeans(rules: Rules, was: seq<Event>, now: seq<Event>, section: Section, key: string, sets: seq<Event>)
    requires Appended(was, now, section, sets) && section != NoSection
    requires if section.Platform? && FolderKey(key) then Carries(rules, was, sets, section.slug, key)
             else KeysIn(sets, section) == {key} && (section.Platform? ==> ChoiceKey(key))
    ensures MeansSame(rules, was, now, section, key)
  {
    hide Field, FolderList, Claimed, KeysIn, Carries, ListFrom, Appended;
    forall s, k | (s != section || k != key) && !(s.Platform? && FolderKey(k))
      ensures Field(rules, now, s, k) == Field(rules, was, s, k)
    {
      AppendedField(rules, was, now, section, key, sets, s, k);
    }
    forall slug, k | FolderKey(k) && (Platform(slug) != section || k != key)
      ensures FolderList(rules, now, slug, k) == FolderList(rules, was, slug, k)
    {
      if Platform(slug) == section { AppendedList(rules, was, now, slug, key, sets, k); }
      else { OtherList(rules, was, now, section, sets, slug, k); }
    }
    AppendedReads(was, now, section, sets, NoSection, "version");
  }

  lemma OtherList(rules: Rules, was: seq<Event>, now: seq<Event>, section: Section, sets: seq<Event>, slug: string, k: string)
    requires Appended(was, now, section, sets) && Platform(slug) != section
    ensures FolderList(rules, now, slug, k) == FolderList(rules, was, slug, k)
  {
    hide Claimed, KeysIn, ListFrom, HeadersOf, ValuesOf;
    AppendedClaims(rules, was, now, section, sets, slug);
    AppendedReads(was, now, section, sets, Platform(slug), k);
    AppendedReads(was, now, section, sets, Platform(slug), ENABLED);
  }

  lemma AppendedField(rules: Rules, was: seq<Event>, now: seq<Event>, section: Section, key: string, sets: seq<Event>, s: Section, k: string)
    requires Appended(was, now, section, sets) && (s != section || k != key) && !(s.Platform? && FolderKey(k))
    requires if section.Platform? && FolderKey(key) then Carries(rules, was, sets, section.slug, key) else KeysIn(sets, section) == {key}
    ensures Field(rules, now, s, k) == Field(rules, was, s, k)
  {
    hide Claimed, KeysIn, HeadersOf, ValuesOf, LastUsable, FolderList;
    AppendedReads(was, now, section, sets, s, k);
    if s.Platform? { AppendedClaims(rules, was, now, section, sets, s.slug); }
    if s == section {
      NoValuesWithout(was, section, k);
      NoValuesWithout(sets, section, k);
      assert ValuesOf(now, s, k) == [];
    }
  }

  lemma AppendedList(rules: Rules, was: seq<Event>, now: seq<Event>, slug: string, key: string, sets: seq<Event>, k: string)
    requires Appended(was, now, Platform(slug), sets) && FolderKey(k) && k != key
    requires if FolderKey(key) then Carries(rules, was, sets, slug, key) else KeysIn(sets, Platform(slug)) == {key} && ChoiceKey(key)
    ensures FolderList(rules, now, slug, k) == FolderList(rules, was, slug, k)
  {
    hide Claimed, KeysIn, HeadersOf, ValuesOf;
    var section := Platform(slug);
    AppendedClaims(rules, was, now, section, sets, slug);
    AppendedReads(was, now, section, sets, section, k);
    AppendedReads(was, now, section, sets, section, ENABLED);
    NoValuesWithout(was, section, k);
    NoValuesWithout(was, section, ENABLED);
    NotEnabled(rules, was, sets, slug, key);
    NoValuesWithout(sets, section, ENABLED);
    if FolderKey(key) {
      HasFolders(KeysIn(now, section), key);
    } else {
      NoValuesWithout(sets, section, k);
    }
  }

  lemma NotEnabled(rules: Rules, was: seq<Event>, sets: seq<Event>, slug: string, key: string)
    requires if FolderKey(key) then Carries(rules, was, sets, slug, key) else KeysIn(sets, Platform(slug)) == {key} && ChoiceKey(key)
    ensures ENABLED !in KeysIn(sets, Platform(slug)) && key in KeysIn(sets, Platform(slug)) && LastFlag(rules, []) == None
  {
  }
}
