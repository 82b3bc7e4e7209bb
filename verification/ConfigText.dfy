/** The text rules of config.ini (core/include/rommsync/config_text.hpp), and the two line readers that
    share them: the parser's (core/src/config.cpp) and the editor's (core/src/config_write.cpp). */
module ConfigText {
  import opened Options

  predicate IsSpace(c: char) { c == ' ' || c == '\t' || c == '\r' || c == '\U{000b}' || c == '\U{000c}' }

  function TrimLeft(s: string): (t: string)
    ensures |t| <= |s|
  {
    if s != "" && IsSpace(s[0]) then TrimLeft(s[1..]) else s
  }

  function TrimRight(s: string): (t: string)
    ensures |t| <= |s|
  {
    if s != "" && IsSpace(s[|s| - 1]) then TrimRight(s[..|s| - 1]) else s
  }

  lemma {:induction false} LeftTrimmed(s: string)
    ensures var t := TrimLeft(s); s[|s| - |t|..] == t && (t != "" ==> !IsSpace(t[0]))
    ensures forall i :: 0 <= i < |s| - |TrimLeft(s)| ==> IsSpace(s[i])
  {
    if s != "" && IsSpace(s[0]) { LeftTrimmed(s[1..]); }
  }

  lemma {:induction false} RightTrimmed(s: string)
    ensures var t := TrimRight(s); s[..|t|] == t && (t != "" ==> !IsSpace(t[|t| - 1]))
    ensures forall i :: |TrimRight(s)| <= i < |s| ==> IsSpace(s[i])
  {
    if s != "" && IsSpace(s[|s| - 1]) { RightTrimmed(s[..|s| - 1]); }
  }

  function Trim(s: string): string { TrimRight(TrimLeft(s)) }

  function Lower(s: string): (t: string)
    ensures |t| == |s|
  {
    seq(|s|, i requires 0 <= i < |s| => if 'A' <= s[i] <= 'Z' then s[i] - 'A' + 'a' else s[i])
  }

  /** Whether the mark at `i` begins a comment. */
  predicate Starts(s: string, i: nat)
    requires i < |s|
  {
    (s[i] == ';' || s[i] == '#') && (i == 0 || IsSpace(s[i - 1]))
  }

  function CommentFrom(s: string, i: nat): (at: nat)
    requires i <= |s|
    ensures i <= at <= |s|
    decreases |s| - i
  {
    if i == |s| || Starts(s, i) then i else CommentFrom(s, i + 1)
  }

  lemma {:induction false} FirstComment(s: string, i: nat)
    requires i <= |s|
    ensures var at := CommentFrom(s, i); (at < |s| ==> Starts(s, at)) && forall j :: i <= j < at ==> !Starts(s, j)
    decreases |s| - i
  {
    if i < |s| && !Starts(s, i) { FirstComment(s, i + 1); }
  }

  function CommentAt(s: string): (at: nat)
    ensures at <= |s|
  {
    CommentFrom(s, 0)
  }

  function Strip(s: string): string { s[..CommentAt(s)] }

  function IndexOf(s: string, c: char): (at: nat)
    ensures at <= |s|
  {
    if s == "" || s[0] == c then 0 else 1 + IndexOf(s[1..], c)
  }

  lemma {:induction false} FirstIndex(s: string, c: char)
    ensures var at := IndexOf(s, c); (at < |s| ==> s[at] == c) && forall j :: 0 <= j < at ==> s[j] != c
  {
    if s != "" && s[0] != c { FirstIndex(s[1..], c); }
  }

  // ----- What the parser makes of a line -----

  datatype Section = NoSection | Server | Sync | Downloads | Sources | Tico | Platform(slug: string) | Unknown

  datatype Item = Nothing | Header(section: Section) | Setting(key: string, value: string)

  const PLATFORM := "platform."

  predicate IsPlatform(name: string) { |name| >= 9 && name[..9] == PLATFORM }

  function SectionOf(name: string): Section {
    var lowered := Lower(name);
    if lowered == "server" then Server
    else if lowered == "sync" then Sync
    else if lowered == "downloads" then Downloads
    else if lowered == "sources" then Sources
    else if lowered == "tico" then Tico
    else if IsPlatform(lowered) && |name| > 9 then Platform(name[9..])
    else Unknown
  }

  function ContentOf(line: string): string { Trim(Strip(line)) }

  function ItemOfContent(content: string): Item {
    if content == "" then Nothing
    else if content[0] == '[' then
      if content[|content| - 1] != ']' || |content| < 3 then Header(Unknown)
      else Header(SectionOf(Trim(content[1..|content| - 1])))
    else
      var equals := IndexOf(content, '=');
      if equals == |content| || Trim(content[..equals]) == "" then Nothing
      else Setting(Lower(Trim(content[..equals])), Trim(content[equals + 1..]))
  }

  function ItemOf(line: string): Item { ItemOfContent(ContentOf(line)) }

  // ----- What the editor makes of a line -----

  function CanonicalSection(written: string): string {
    var name := Trim(written);
    var lowered := Lower(name);
    if !IsPlatform(lowered) then lowered else if |name| == 9 then "" else PLATFORM + name[9..]
  }

  /** The section a line opens: empty for a header that names none. */
  function OpensSection(line: string): Option<string> {
    var content := ContentOf(line);
    if content == "" || content[0] != '[' then None
    else if |content| >= 3 && content[|content| - 1] == ']' then Some(CanonicalSection(content[1..|content| - 1]))
    else Some("")
  }

  function KeyOf(line: string): string {
    var content := ContentOf(line);
    if content == "" || content[0] == '[' then ""
    else
      var equals := IndexOf(content, '=');
      if equals == |content| then "" else Lower(Trim(content[..equals]))
  }

  /** The section a canonical name stands for. */
  function Named(section: string): Section {
    if section == "server" then Server
    else if section == "sync" then Sync
    else if section == "downloads" then Downloads
    else if section == "sources" then Sources
    else if section == "tico" then Tico
    else if IsPlatform(section) && |section| > 9 then Platform(section[9..])
    else Unknown
  }

  lemma LowerKeeps(s: string, t: string)
    requires Lower(s) == t
    ensures Lower(t) == t
  {
    assert forall i :: 0 <= i < |s| ==> Lower(t)[i] == t[i];
  }

  lemma CanonicalNames(written: string)
    ensures Named(CanonicalSection(written)) == SectionOf(Trim(written))
  {
    var name := Trim(written);
    var lowered := Lower(name);
    LowerKeeps(name, lowered);
    if IsPlatform(lowered) && |name| > 9 {
      var section := PLATFORM + name[9..];
      assert section[..9] == PLATFORM && section[9..] == name[9..] && |section| > 9 && |lowered| > 9;
      assert Named(section) == Platform(name[9..]);
      assert SectionOf(name) == Platform(name[9..]);
    } else if IsPlatform(lowered) {
      assert lowered == lowered[..9] == PLATFORM && PLATFORM[0] != "downloads"[0];
      assert SectionOf(name) == Unknown;
      assert Named("") == Unknown;
    } else {
      assert SectionOf(name) == Named(lowered);
    }
  }

  /** The two readers agree on every line: on what is a header and of what, and on every key. */
  lemma ReadersAgree(line: string)
    ensures ItemOf(line).Header? <==> OpensSection(line).Some?
    ensures ItemOf(line).Header? ==> ItemOf(line).section == Named(OpensSection(line).value)
    ensures ItemOf(line).Setting? <==> KeyOf(line) != ""
    ensures ItemOf(line).Setting? ==> ItemOf(line).key == KeyOf(line)
  {
    hide ContentOf, CanonicalSection, SectionOf, Named, Trim;
    EmptyIsUnknown();
    var content := ContentOf(line);
    if content != "" && content[0] == '[' && |content| >= 3 {
      CanonicalNames(content[1..|content| - 1]);
    }
  }

  /** Only one name stands for a section this build knows. */
  lemma NamesAreDistinct(a: string, b: string)
    requires Named(a) == Named(b) != Unknown
    ensures a == b
  {
    if Named(a).Platform? {
      assert a == a[..9] + a[9..] && b == b[..9] + b[9..];
    }
  }

  // ----- A carriage return at the end of a line -----

  lemma TrimRightIs(s: string, t: string)
    requires |t| <= |s| && s[..|t|] == t && (t != "" ==> !IsSpace(t[|t| - 1]))
    requires forall i :: |t| <= i < |s| ==> IsSpace(s[i])
    ensures TrimRight(s) == t
  {
    RightTrimmed(s);
    var r := TrimRight(s);
    assert s[..|r|] == r;
    assert (r != "" ==> s[|r| - 1] == r[|r| - 1]) && (t != "" ==> s[|t| - 1] == t[|t| - 1]);
  }

  lemma TrimLeftIs(s: string, t: string)
    requires |t| <= |s| && s[|s| - |t|..] == t && (t != "" ==> !IsSpace(t[0]))
    requires forall i :: 0 <= i < |s| - |t| ==> IsSpace(s[i])
    ensures TrimLeft(s) == t
  {
    LeftTrimmed(s);
    var r := TrimLeft(s);
    assert s[|s| - |r|..] == r;
    assert (r != "" ==> s[|s| - |r|] == r[0]) && (t != "" ==> s[|s| - |t|] == t[0]);
  }

  lemma TrimSpaceAfter(s: string, c: char)
    requires IsSpace(c)
    ensures Trim(s + [c]) == Trim(s)
  {
    hide TrimLeft, TrimRight;
    var t := TrimLeft(s);
    LeftTrimmed(s);
    RightTrimmed(t);
    if t == "" {
      TrimLeftIs(s + [c], "");
    } else {
      assert (s + [c])[|s| - |t|..] == t + [c];
      TrimLeftIs(s + [c], t + [c]);
      assert TrimRight(t) == (t + [c])[..|TrimRight(t)|];
      TrimRightIs(t + [c], TrimRight(t));
    }
  }

  lemma CommentIs(s: string, at: nat)
    requires at <= |s| && (at < |s| ==> Starts(s, at)) && forall j :: 0 <= j < at ==> !Starts(s, j)
    ensures CommentAt(s) == at
  {
    FirstComment(s, 0);
  }

  lemma ReturnIsSpace(line: string)
    ensures ItemOf(line + "\r") == ItemOf(line)
  {
    var more, at := line + "\r", CommentAt(line);
    FirstComment(line, 0);
    assert forall j :: 0 <= j < |line| ==> Starts(more, j) == Starts(line, j);
    CommentIs(more, if at < |line| then at else |more|);
    if at == |line| {
      assert more[..|more|] == more && line[..at] == line;
      TrimSpaceAfter(line, '\r');
    } else {
      assert more[..at] == line[..at];
    }
  }

  // ----- Lines the editor writes -----

  lemma TrimLeftOnce(s: string)
    ensures TrimLeft(TrimLeft(s)) == TrimLeft(s)
  {
    hide TrimLeft;
    LeftTrimmed(s);
    TrimLeftIs(TrimLeft(s), TrimLeft(s));
  }

  /** Only what is in the middle matters. */
  lemma TrimIs(before: string, middle: string, after: string)
    requires forall i :: 0 <= i < |before| ==> IsSpace(before[i])
    requires forall i :: 0 <= i < |after| ==> IsSpace(after[i])
    requires middle != "" ==> !IsSpace(middle[0]) && !IsSpace(middle[|middle| - 1])
    ensures Trim(before + middle + after) == middle
  {
    hide TrimLeft, TrimRight;
    var s := before + middle + after;
    if middle == "" {
      TrimLeftIs(s, "");
      TrimRightIs("", "");
    } else {
      assert s[|before|..] == middle + after;
      TrimLeftIs(s, middle + after);
      assert (middle + after)[..|middle|] == middle;
      TrimRightIs(middle + after, middle);
    }
  }

  /** A text taken apart at its trim. */
  lemma TrimParts(s: string) returns (before: string, after: string)
    ensures s == before + Trim(s) + after
    ensures (forall i :: 0 <= i < |before| ==> IsSpace(before[i])) && (forall i :: 0 <= i < |after| ==> IsSpace(after[i]))
    ensures Trim(s) != "" ==> !IsSpace(Trim(s)[0]) && !IsSpace(Trim(s)[|Trim(s)| - 1])
  {
    hide TrimLeft, TrimRight;
    var t := TrimLeft(s);
    LeftTrimmed(s);
    RightTrimmed(t);
    before, after := s[..|s| - |t|], t[|Trim(s)|..];
    assert t == Trim(s) + after && s == before + t;
    assert Trim(s) != "" ==> Trim(s)[0] == t[0];
  }

  /** What sets a key: something before the first `=` that does not open a header. */
  ghost predicate Assigns(content: string) {
    var equals := IndexOf(content, '=');
    equals < |content| && Trim(content[..equals]) != "" && Trim(content[..equals])[0] != '['
  }

  lemma IndexAfter(before: string, c: char, after: string)
    requires c !in before
    ensures IndexOf(before + [c] + after, c) == |before|
  {
    var s := before + [c] + after;
    FirstIndex(s, c);
    assert s[|before|] == c && forall i :: 0 <= i < |before| ==> s[i] == before[i] && s[i] in before;
  }

  lemma NotIn(s: string, c: char)
    ensures c !in s[..IndexOf(s, c)]
  {
    FirstIndex(s, c);
  }

  lemma TrimRightFirst(s: string)
    ensures Trim(TrimRight(s)) == Trim(s)
  {
    hide TrimLeft, TrimRight, Trim;
    var before, after := TrimParts(s);
    if Trim(s) == "" {
      assert s == before + after;
      TrimRightIs(s, "");
      TrimIs("", "", "");
      assert "" + "" + "" == "";
    } else {
      TrimRightIs(s, before + Trim(s));
      TrimIs(before, Trim(s), "");
      assert before + Trim(s) + "" == before + Trim(s);
    }
  }

  lemma TrimAround(p: string, c: char, q: string)
    requires !IsSpace(c)
    ensures Trim(p + [c] + q) == TrimLeft(p) + [c] + TrimRight(q)
  {
    hide TrimLeft, TrimRight;
    var left, right := TrimLeft(p), TrimRight(q);
    LeftTrimmed(p);
    RightTrimmed(q);
    assert (p + [c] + q)[|p| - |left|..] == left + [c] + q;
    TrimLeftIs(p + [c] + q, left + [c] + q);
    assert (left + [c] + q)[..|left| + 1 + |right|] == left + [c] + right;
    TrimRightIs(left + [c] + q, left + [c] + right);
  }

  /** What is before the first `=` and after it, of a line without its comment. */
  lemma ItemAround(p: string, q: string)
    requires '=' !in p
    ensures var item := ItemOfContent(Trim(p + "=" + q));
            if Trim(p) == "" then item == Nothing
            else if Trim(p)[0] == '[' then item.Header?
            else item == Setting(Lower(Trim(p)), Trim(q))
  {
    hide TrimLeft, TrimRight, Trim;
    TrimAround(p, '=', q);
    var left, right := TrimLeft(p), TrimRight(q);
    LeftTrimmed(p);
    var content := left + "=" + right;
    assert '=' !in left by { forall i | 0 <= i < |left| ensures left[i] in p { assert p[|p| - |left|..][i] == left[i]; } }
    IndexAfter(left, '=', right);
    assert content[..|left|] == left && content[|left| + 1..] == right;
    TrimRightFirst(q);
    TrimLeftTwice(p);
  }

  lemma TrimLeftTwice(p: string)
    ensures Trim(TrimLeft(p)) == Trim(p) && (Trim(p) == "" <==> TrimLeft(p) == "")
    ensures Trim(p) != "" ==> TrimLeft(p)[0] == Trim(p)[0]
  {
    TrimLeftOnce(p);
    LeftTrimmed(p);
    RightTrimmed(TrimLeft(p));
  }

  lemma NoEquals(content: string)
    requires '=' !in content
    ensures !ItemOfContent(Trim(content)).Setting?
  {
    hide TrimLeft, TrimRight;
    var before, after := TrimParts(content);
    FirstIndex(Trim(content), '=');
    forall i | 0 <= i < |Trim(content)| ensures Trim(content)[i] in content {
      assert content[|before| + i] == Trim(content)[i];
    }
  }

  /** A line's item, straight from what is left of it without its comment. */
  lemma ItemOfStripped(line: string)
    ensures Assigns(Strip(line)) <==> ItemOf(line).Setting?
    ensures Assigns(Strip(line)) ==>
              var equals := IndexOf(Strip(line), '=');
              ItemOf(line) == Setting(Lower(Trim(Strip(line)[..equals])), Trim(Strip(line)[equals + 1..]))
  {
    hide Trim, Strip, ItemOfContent;
    var content := Strip(line);
    var equals := IndexOf(content, '=');
    NotIn(content, '=');
    FirstIndex(content, '=');
    if equals == |content| {
      assert content[..equals] == content;
      NoEquals(content);
    } else {
      assert content == content[..equals] + "=" + content[equals + 1..];
      ItemAround(content[..equals], content[equals + 1..]);
    }
  }

  predicate Control(c: char) { c < ' ' || c == '\U{007f}' }

  /** Written after an `=`, it reads back as itself. */
  predicate Survives(value: string) {
    (forall i :: 0 <= i < |value| ==> !Control(value[i])) && Strip(value) == value && Trim(value) == value
  }

  /** The space a value keeps in front of it: one is added to a bare `key =`. */
  function LeadOf(after: string): (lead: string)
    ensures forall i :: 0 <= i < |lead| ==> IsSpace(lead[i])
  {
    LeftTrimmed(after);
    if TrimLeft(after) != after then after[..|after| - |TrimLeft(after)|] else if after == "" then " " else ""
  }

  function TailOf(after: string): (tail: string)
    ensures forall i :: 0 <= i < |tail| ==> IsSpace(tail[i])
  {
    LeftTrimmed(after);
    RightTrimmed(TrimLeft(after));
    TrimLeft(after)[|Trim(after)|..]
  }

  /** A line with its value replaced: the spacing around the `=` and the comment are kept. */
  function Rewritten(line: string, value: string): string {
    var content := Strip(line);
    var equals := IndexOf(content, '=');
    if equals == |content| then line else
      var after := content[equals + 1..];
      var rebuilt := content[..equals + 1] + LeadOf(after) + value + TailOf(after) + line[|content|..];
      if |content| == |line| && value == "" then TrimRight(rebuilt) else rebuilt
  }

  /** The comment follows an empty value, one space away: the new value runs into it. */
  predicate Absorbs(line: string, value: string) {
    var content := Strip(line);
    var equals := IndexOf(content, '=');
    value != "" && |content| < |line| && equals < |content| && Trim(content[equals + 1..]) == ""
  }

  function NewAssignment(key: string, value: string): string { key + " =" + if value == "" then "" else " " + value }

  lemma StartsInside(before: string, middle: string, after: string, i: nat)
    requires i < |middle| && (before == "" || i > 0)
    ensures Starts(before + middle + after, |before| + i) == Starts(middle, i)
  {
  }

  /** Nothing in a surviving value starts a comment, whatever it follows. */
  lemma NoCommentIn(before: string, value: string, after: string, i: nat)
    requires Strip(value) == value && i < |value|
    ensures !Starts(before + value + after, |before| + i)
  {
    FirstComment(value, 0);
    assert CommentAt(value) == |value|;
    assert !Starts(value, i);
    if i > 0 { StartsInside(before, value, after, i); }
  }

  lemma SpaceStartsNothing(s: string, i: nat)
    requires i < |s| && (IsSpace(s[i]) || s[i] == '=')
    ensures !Starts(s, i)
  {
  }

  /** The head of a line, up to its `=`, starts no comment, whatever follows. */
  lemma NoCommentInHead(line: string, head: nat, more: string, i: nat)
    requires i < head <= CommentAt(line)
    ensures !Starts(line[..head] + more, i)
  {
    FirstComment(line, 0);
    assert !Starts(line, i);
  }

  /** A comment is after a space, unless it is the whole line. */
  lemma SpaceBeforeComment(line: string)
    requires 0 < CommentAt(line) < |line|
    ensures IsSpace(Strip(line)[|Strip(line)| - 1]) && (line[CommentAt(line)] == ';' || line[CommentAt(line)] == '#')
  {
    FirstComment(line, 0);
  }

  /** What a line built from an old head, a value, spaces and a comment is without its comment. */
  lemma StripBuilt(line: string, head: nat, lead: string, value: string, tail: string, comment: string)
    requires 0 < head <= CommentAt(line) && line[head - 1] == '='
    requires forall i :: 0 <= i < |lead| ==> IsSpace(lead[i])
    requires forall i :: 0 <= i < |tail| ==> IsSpace(tail[i])
    requires Strip(value) == value
    requires comment != "" ==> comment[0] == ';' || comment[0] == '#'
    ensures var start := line[..head] + lead + value + tail;
            if comment == "" || IsSpace(start[|start| - 1]) then Strip(start + comment) == start
            else |start| < |Strip(start + comment)| && Strip(start + comment)[..|start| + 1] == start + comment[..1]
  {
    hide CommentFrom;
    var start := line[..head] + lead + value + tail;
    var whole := start + comment;
    forall i | 0 <= i < |start| ensures !Starts(whole, i) {
      if i < head {
        assert whole == line[..head] + (lead + value + tail + comment);
        NoCommentInHead(line, head, lead + value + tail + comment, i);
      } else if i < head + |lead| {
        SpaceStartsNothing(whole, i);
      } else if i < head + |lead| + |value| {
        assert whole == (line[..head] + lead) + value + (tail + comment);
        NoCommentIn(line[..head] + lead, value, tail + comment, i - head - |lead|);
      } else {
        assert whole[i] == tail[i - head - |lead| - |value|];
        SpaceStartsNothing(whole, i);
      }
    }
    if comment == "" || IsSpace(start[|start| - 1]) {
      CommentIs(whole, |start|);
    } else {
      FirstComment(whole, 0);
      assert whole[|start| - 1] == start[|start| - 1];
      assert !Starts(whole, |start|);
      assert CommentAt(whole) > |start| by { if CommentAt(whole) < |whole| { assert Starts(whole, CommentAt(whole)); } }
    }
  }

  lemma SurvivorEnds(value: string)
    requires Trim(value) == value != ""
    ensures !IsSpace(value[0]) && !IsSpace(value[|value| - 1])
  {
    var before, after := TrimParts(value);
  }

  /** A line that keeps its text up to its first `=` keeps its key. */
  lemma SameKey(line: string, now: string, equals: nat)
    requires equals == IndexOf(Strip(line), '=') < |Strip(line)| && ItemOf(line).Setting?
    requires equals < |Strip(now)| && Strip(now)[..equals + 1] == Strip(line)[..equals + 1]
    ensures ItemOf(now) == Setting(ItemOf(line).key, Trim(Strip(now)[equals + 1..]))
  {
    hide Trim, Strip, ItemOf;
    ItemOfStripped(line);
    ItemOfStripped(now);
    var content, more := Strip(line), Strip(now);
    NotIn(content, '=');
    FirstIndex(content, '=');
    assert more[..equals] == content[..equals] by { assert more[..equals + 1][..equals] == content[..equals + 1][..equals]; }
    assert more[equals] == more[..equals + 1][equals] == '=';
    assert more == more[..equals] + "=" + more[equals + 1..];
    IndexAfter(more[..equals], '=', more[equals + 1..]);
  }

  lemma LongerThan(lead: string, value: string, more: string)
    requires forall i :: 0 <= i < |lead| ==> IsSpace(lead[i])
    requires value != "" && !IsSpace(value[0]) && more != "" && !IsSpace(more[0])
    ensures Trim(lead + value + more) != value
  {
    hide TrimLeft, TrimRight;
    assert (lead + value + more)[|lead|..] == value + more;
    TrimLeftIs(lead + value + more, value + more);
    assert (value + more)[|value|] == more[0];
    RightTrimmed(value + more);
  }

  /** A rewritten line sets the same key, keeps its text up to the `=` and its comment, and reads back as
      the value exactly when the comment does not run into it. */
  lemma RewrittenReads(line: string, value: string)
    requires ItemOf(line).Setting? && Survives(value)
    ensures ItemOf(Rewritten(line, value)).Setting? && ItemOf(Rewritten(line, value)).key == ItemOf(line).key
    ensures ItemOf(Rewritten(line, value)).value == value <==> !Absorbs(line, value)
    ensures KeepsAround(line, Rewritten(line, value))
  {
    hide LeadOf, TailOf;
    hide Trim, TrimLeft, TrimRight, CommentFrom, ItemOf, KeepsAround, IndexOf, Rewritten;
    ItemOfStripped(line);
    var content, comment := Strip(line), line[CommentAt(line)..];
    var equals := IndexOf(content, '=');
    FirstIndex(content, '=');
    var after := content[equals + 1..];
    if comment == "" && value == "" {
      EmptiedReads(line, equals, after);
    } else {
      RewrittenIs(line, value, equals, after);
      ValueReads(line, LeadOf(after), value, TailOf(after), comment, equals, after);
      SameKey(line, Rewritten(line, value), equals);
      Around(line, LeadOf(after) + value + TailOf(after));
    }
  }

  lemma RewrittenIs(line: string, value: string, equals: nat, after: string)
    requires equals == IndexOf(Strip(line), '=') < |Strip(line)| && after == Strip(line)[equals + 1..]
    requires CommentAt(line) < |line| || value != ""
    ensures line[..equals + 1] == Strip(line)[..equals + 1]
    ensures Rewritten(line, value) == line[..equals + 1] + LeadOf(after) + value + TailOf(after) + line[CommentAt(line)..]
    ensures Rewritten(line, value) == line[..equals + 1] + (LeadOf(after) + value + TailOf(after)) + line[CommentAt(line)..]
  {
    hide LeadOf, TailOf, TrimRight, CommentFrom;
    FirstIndex(Strip(line), '=');
    Regroup(line[..equals + 1], LeadOf(after), value, TailOf(after), line[CommentAt(line)..]);
  }

  lemma Regroup(a: string, b: string, c: string, d: string, e: string)
    ensures a + b + c + d + e == a + (b + c + d) + e
  {
  }

  lemma EmptiedReads(line: string, equals: nat, after: string)
    requires ItemOf(line).Setting? && CommentAt(line) == |line|
    requires equals == IndexOf(Strip(line), '=') < |Strip(line)| && after == Strip(line)[equals + 1..]
    ensures Rewritten(line, "") == line[..equals + 1] && KeepsAround(line, line[..equals + 1])
    ensures ItemOf(line[..equals + 1]) == Setting(ItemOf(line).key, "")
  {
    hide LeadOf, TailOf;
    hide Trim, TrimLeft, TrimRight, CommentFrom, ItemOf, KeepsAround, IndexOf;
    var head := line[..equals + 1];
    assert Strip(line) == line;
    FirstIndex(Strip(line), '=');
    TailIsSpace(after);
    var lead := LeadOf(after);
    var tail := TailOf(after);
    TrimRightIs(head + (lead + tail), head);
    assert head + lead + "" + tail + "" == head + (lead + tail);
    StripBuilt(line, equals + 1, "", "", "", "");
    assert head + "" + "" + "" == head && head + "" == head;
    SameKey(line, head, equals);
    TrimIs("", "", "");
    assert Strip(head)[equals + 1..] == "" + "" + "";
    Around(line, "");
    assert head + "" + line[CommentAt(line)..] == head;
  }

  lemma Around(line: string, middle: string)
    requires IndexOf(Strip(line), '=') < |Strip(line)|
    ensures KeepsAround(line, line[..IndexOf(Strip(line), '=') + 1] + middle + line[CommentAt(line)..])
  {
  }

  lemma ValueReads(line: string, lead: string, value: string, tail: string, comment: string, equals: nat, after: string)
    requires equals < CommentAt(line) && line[equals] == '=' == Strip(line)[equals] && IndexOf(Strip(line), '=') == equals
    requires after == Strip(line)[equals + 1..] && comment == line[CommentAt(line)..] && Survives(value)
    requires lead == LeadOf(after)
    requires tail == TailOf(after) && (comment != "" || value != "")
    ensures var start := line[..equals + 1] + lead + value + tail;
            equals < |Strip(start + comment)| && Strip(start + comment)[..equals + 1] == line[..equals + 1]
            && (Trim(Strip(start + comment)[equals + 1..]) == value <==> !Absorbs(line, value))
  {
    hide LeadOf, TailOf;
    hide Trim, TrimLeft, TrimRight, CommentFrom, IndexOf;
    TailIsSpace(after);
    if comment != "" {
      SpaceBeforeComment(line);
      assert after == "" || after[|after| - 1] == Strip(line)[|Strip(line)| - 1];
    }
    if comment != "" && value != "" && Trim(after) == "" {
      SurvivorEnds(value);
      assert line[..equals + 1] + lead + value + tail == line[..equals + 1] + lead + value;
      ValueAbsorbed(line, equals + 1, lead, value, comment);
    } else {
      if comment != "" { EndsInSpace(after, lead, value, tail); }
      ValueKept(line, equals + 1, lead, value, tail, comment);
    }
  }

  lemma ValueAbsorbed(line: string, head: nat, lead: string, value: string, comment: string)
    requires 0 < head <= CommentAt(line) && line[head - 1] == '=' && Survives(value) && value != ""
    requires forall i :: 0 <= i < |lead| ==> IsSpace(lead[i])
    requires comment != "" && (comment[0] == ';' || comment[0] == '#')
    ensures var now := Strip(line[..head] + lead + value + comment);
            head <= |now| && now[..head] == line[..head] && Trim(now[head..]) != value
  {
    hide Trim, CommentAt;
    SurvivorEnds(value);
    StripBuilt(line, head, lead, value, "", comment);
    var start := line[..head] + lead + value;
    assert start + "" == start;
    var now := Strip(start + comment);
    var more := now[|start|..];
    assert now[..|start| + 1][|start|] == comment[0] == more[0];
    assert now == start + more;
    assert now[head..] == lead + value + more;
    LongerThan(lead, value, more);
  }

  lemma ValueKept(line: string, head: nat, lead: string, value: string, tail: string, comment: string)
    requires 0 < head <= CommentAt(line) && line[head - 1] == '=' && Survives(value)
    requires (forall i :: 0 <= i < |lead| ==> IsSpace(lead[i])) && (forall i :: 0 <= i < |tail| ==> IsSpace(tail[i]))
    requires comment != "" ==> (comment[0] == ';' || comment[0] == '#')
                               && lead + value + tail != "" && IsSpace((lead + value + tail)[|lead + value + tail| - 1])
    ensures var now := Strip(line[..head] + lead + value + tail + comment);
            head <= |now| && now[..head] == line[..head] && Trim(now[head..]) == value
  {
    hide Trim, CommentAt;
    if value != "" { SurvivorEnds(value); }
    StripBuilt(line, head, lead, value, tail, comment);
    var start := line[..head] + lead + value + tail;
    assert start == line[..head] + (lead + value + tail);
    TrimIs(lead, value, tail);
  }

  lemma EndsInSpace(after: string, lead: string, value: string, tail: string)
    requires after != "" && IsSpace(after[|after| - 1])
    requires lead == LeadOf(after)
    requires tail == TailOf(after) && (value == "" || Trim(after) != "")
    ensures lead + value + tail != "" && IsSpace((lead + value + tail)[|lead + value + tail| - 1])
  {
    TailIsSpace(after);
    var t := TrimLeft(after);
    LeftTrimmed(after);
    RightTrimmed(t);
    assert t != "" ==> t[|t| - 1] == after[|after| - 1];
    if Trim(after) != "" {
      assert tail != "" && tail[|tail| - 1] == t[|t| - 1];
    } else {
      assert lead == after;
    }
  }

  lemma TailIsSpace(after: string)
    ensures TrimLeft(after) == Trim(after) + TailOf(after)
    ensures Trim(after) == "" ==> TailOf(after) == "" && forall i :: 0 <= i < |after| ==> IsSpace(after[i])
    ensures Trim(after) == "" && after != "" ==> LeadOf(after) == after
  {
    hide TrimLeft, TrimRight;
    LeftTrimmed(after);
    RightTrimmed(TrimLeft(after));
  }

  /** There are a head, up to the `=`, and a comment, that a rewrite leaves alone. */
  ghost predicate KeepsAround(line: string, now: string) {
    var head := IndexOf(Strip(line), '=') + 1;
    head <= |line| && exists middle :: now == line[..head] + middle + line[CommentAt(line)..]
  }

  /** A key this build writes: lower case, and nothing a line gives a meaning to. */
  ghost predicate PlainKey(key: string) {
    && key != "" && Lower(key) == key && key[0] != '['
    && forall i :: 0 <= i < |key| ==> !Control(key[i]) && !IsSpace(key[i]) && key[i] != '=' && key[i] != ';' && key[i] != '#'
  }

  lemma NewAssignmentReads(key: string, value: string)
    requires PlainKey(key) && Survives(value)
    ensures ItemOf(NewAssignment(key, value)) == Setting(key, value)
  {
    hide Trim, TrimLeft, TrimRight, CommentFrom, ItemOf;
    var line := NewAssignment(key, value);
    var rest := if value == "" then "" else " " + value;
    assert line == (key + " ") + "=" + rest;
    forall i | 0 <= i < |line| ensures !Starts(line, i) {
      if i >= |key| + 3 {
        assert line == (key + " = ") + value + "";
        NoCommentIn(key + " = ", value, "", i - |key| - 3);
      }
    }
    CommentIs(line, |line|);
    assert Strip(line) == line;
    TrimIs("", key, " ");
    assert "" + key + " " == key + " ";
    if value == "" {
      TrimIs("", "", "");
      assert rest == "" + "" + "";
    } else {
      SurvivorEnds(value);
      TrimIs(" ", value, "");
      assert rest == " " + value + "";
    }
    IndexAfter(key + " ", '=', rest);
    assert line[..|key| + 1] == key + " " && line[|key| + 2..] == rest;
    ItemOfStripped(line);
  }

  /** Whatever is written after it, the key is set. */
  lemma NewAssignmentSets(key: string, value: string)
    requires PlainKey(key)
    ensures ItemOf(NewAssignment(key, value)).Setting? && ItemOf(NewAssignment(key, value)).key == key
  {
    hide Trim, TrimLeft, TrimRight, CommentFrom, ItemOf;
    var line := NewAssignment(key, value);
    var head := (key + " ") + "=";
    assert line[..|head|] == head;
    assert forall i :: 0 <= i < |head| ==> !Starts(line, i);
    FirstComment(line, 0);
    assert CommentAt(line) < |line| ==> Starts(line, CommentAt(line));
    assert CommentAt(line) >= |head|;
    var content := Strip(line);
    assert content[..|head|] == head;
    assert content == (key + " ") + "=" + content[|head|..];
    IndexAfter(key + " ", '=', content[|head|..]);
    assert content[..|key| + 1] == key + " ";
    TrimIs("", key, " ");
    assert "" + key + " " == key + " ";
    ItemOfStripped(line);
  }

  function HeaderLine(section: string): string { "[" + section + "]" }

  lemma NamedIsCanonical(section: string)
    requires Named(section) != Unknown
    ensures SectionOf(section) == Named(section)
  {
    if Named(section).Platform? {
      assert forall i :: 0 <= i < 9 ==> section[i] == section[..9][i] == PLATFORM[i];
      assert Lower(section)[..9] == PLATFORM;
      assert |Lower(section)| > 9;
    } else {
      assert Lower(section) == section;
    }
  }

  lemma HeaderReads(section: string)
    requires Named(section) != Unknown && Survives(section)
    ensures ItemOf(HeaderLine(section)) == Header(Named(section))
  {
    hide Trim, CommentFrom, SectionOf, Named;
    var line := HeaderLine(section);
    NamedIsCanonical(section);
    forall i | 0 <= i < |line| ensures !Starts(line, i) {
      if 0 < i <= |section| { NoCommentIn("[", section, "]", i - 1); }
    }
    CommentIs(line, |line|);
    assert Strip(line) == line;
    TrimIs("", line, "");
    assert "" + line + "" == line;
    assert line[1..|line| - 1] == section;
    assert section != "" by { EmptyIsUnknown(); }
  }

  lemma EmptyIsUnknown()
    ensures Named("") == Unknown
  {
  }

  lemma BlankReads()
    ensures ItemOf("") == Nothing
  {
  }
}
