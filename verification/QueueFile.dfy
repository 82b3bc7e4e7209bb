/** The file the download queue is kept in (core/src/download.cpp): written a piece at a time, read back
    an entry at a time, and what was written is what is read. */
module QueueFile {
  import opened Options
  import A = AtomicFile
  import D = DownloadQueue
  import opened JsonText
  import opened JsonParser
  import opened JsonStreaming
  import opened JsonWriter

  type Row = D.Row

  /** The bounds a row is held to, going out and coming in, and the file's. */
  datatype Bounds = Bounds(rows: nat, attempts: nat, message: nat, path: nat, bytes: nat)

  const MAGIC := "rommsync-queue"
  const VERSION := 1
  const FORMAT_KEY := "format"
  const VERSION_KEY := "version"
  const ENTRIES := "entries"

  const ROM_ID := "rom_id"
  const SLUG := "platform_fs_slug"
  const FS_NAME := "fs_name"
  const SIZE_BYTES := "size_bytes"
  const SHA1 := "sha1_hash"
  const DESTINATION := "destination"
  const STATE := "state"
  const BYTES_DONE := "bytes_done"
  const ATTEMPTS := "attempts"
  const MESSAGE := "message"
  const QUEUED_AT := "queued_at"

  predicate Fits64(n: int) { -0x8000_0000_0000_0000 <= n <= 0x7FFF_FFFF_FFFF_FFFF }

  predicate Usable(b: Bounds, row: Row) {
    && row.romId > 0 && row.sizeBytes >= 0 && row.bytesDone >= 0 && row.attempts <= b.attempts && row.queuedAt >= 0
    && |row.message| <= b.message
    && |row.fsName| <= b.path && |row.destination| <= b.path && |row.slug| <= b.path
  }

  // ----- What a row and a file look like -----

  function StateName(state: D.State): string {
    match state
    case Queued => "queued"
    case Active => "active"
    case Verifying => "verifying"
    case Done => "done"
    case Failed => "failed"
    case Skipped => "skipped"
  }

  function ParseState(text: string): Option<D.State> {
    if text == "queued" then Some(D.Queued)
    else if text == "active" then Some(D.Active)
    else if text == "verifying" then Some(D.Verifying)
    else if text == "done" then Some(D.Done)
    else if text == "failed" then Some(D.Failed)
    else if text == "skipped" then Some(D.Skipped)
    else None
  }

  lemma StateReads(state: D.State)
    ensures ParseState(StateName(state)) == Some(state)
  {
    assert "queued"[0] == 'q' && "active"[0] == 'a' && "failed"[0] == 'f';
  }

  function Int(n: int): Value { Number(Some(n)) }

  function Fields(row: Row): seq<Member> {
    [Member(ROM_ID, Int(row.romId)), Member(SLUG, String(row.slug)), Member(FS_NAME, String(row.fsName)),
     Member(SIZE_BYTES, Int(row.sizeBytes)), Member(SHA1, if row.sha1 == "" then Null else String(row.sha1)),
     Member(DESTINATION, String(row.destination)), Member(STATE, String(StateName(row.state))),
     Member(BYTES_DONE, Int(row.bytesDone)), Member(ATTEMPTS, Int(row.attempts)),
     Member(MESSAGE, String(row.message)), Member(QUEUED_AT, Int(row.queuedAt))]
  }

  function EntryValue(row: Row): Value { Object(Fields(row)) }

  function Entries(rows: seq<Row>): (values: seq<Value>)
    ensures |values| == |rows| && forall i :: 0 <= i < |rows| ==> values[i] == EntryValue(rows[i])
  {
    seq(|rows|, i requires 0 <= i < |rows| => EntryValue(rows[i]))
  }

  function FileValue(rows: seq<Row>): Value {
    Object([Member(FORMAT_KEY, String(MAGIC)), Member(VERSION_KEY, Int(VERSION)), Member(ENTRIES, Array(Entries(rows)))])
  }

  function FileText(rows: seq<Row>): string { Show(FileValue(rows)) + "\n" }

  // ----- Writing -----

  predicate Plain(word: string) { forall i :: 0 <= i < |word| ==> word[i] >= ' ' && word[i] != '"' && word[i] != '\\' }

  lemma {:induction false} PlainIsItself(word: string)
    requires Plain(word)
    ensures EscapedAll(word) == word
  {
    if word != "" {
      PlainIsItself(word[1..]);
      assert word == [word[0]] + word[1..];
    }
  }

  /** A member more of an object that is being written: its key is a plain word. */
  method AppendField(out: string, first: bool, ghost start: string, ghost fields: seq<Member>, key: string, value: string, ghost v: Value)
    returns (more: string, ghost now: seq<Member>)
    requires Plain(key) && value == Show(v) && out == start + "{" + ShowMembers(fields, true) && first == (fields == [])
    ensures now == fields + [Member(key, v)] && more == start + "{" + ShowMembers(now, true)
  {
    hide Show, ShowMembers, EscapedAll;
    now := fields + [Member(key, v)];
    OneMoreMember(fields, Member(key, v), true);
    PlainIsItself(key);
    more := out + (if first then "" else ",") + "\"" + key + "\":" + value;
    assert Quoted(key) + ":" + value == "\"" + key + "\":" + value;
  }

  /** What the rom is, of a row's object. */
  method AppendRom(row: Row, out: string, ghost start: string) returns (more: string, ghost fields: seq<Member>)
    requires out == start + "{"
    ensures fields == Fields(row)[..5] && more == start + "{" + ShowMembers(fields, true)
  {
    hide ShowMembers, EscapedAll, Quoted, ShowInt, Plain;
    KeysArePlain();
    NothingShown();
    fields := [];
    assert out == start + "{" + ShowMembers(fields, true);
    more, fields := AppendField(out, true, start, fields, ROM_ID, ShowInt(row.romId), Int(row.romId));
    var text := Quote(row.slug);
    more, fields := AppendField(more, false, start, fields, SLUG, text, String(row.slug));
    text := Quote(row.fsName);
    more, fields := AppendField(more, false, start, fields, FS_NAME, text, String(row.fsName));
    more, fields := AppendField(more, false, start, fields, SIZE_BYTES, ShowInt(row.sizeBytes), Int(row.sizeBytes));
    text := "null";
    if row.sha1 != "" {
      text := Quote(row.sha1);
    }
    more, fields := AppendField(more, false, start, fields, SHA1, text, if row.sha1 == "" then Null else String(row.sha1));
  }

  /** What has become of it. */
  method AppendProgress(row: Row, out: string, ghost start: string, ghost before: seq<Member>) returns (more: string, ghost fields: seq<Member>)
    requires before != [] && out == start + "{" + ShowMembers(before, true)
    ensures fields == before + Fields(row)[5..] && more == start + "{" + ShowMembers(fields, true)
  {
    hide ShowMembers, EscapedAll, Quoted, ShowInt, StateName, Plain;
    KeysArePlain();
    var text := Quote(row.destination);
    more, fields := AppendField(out, false, start, before, DESTINATION, text, String(row.destination));
    text := Quote(StateName(row.state));
    more, fields := AppendField(more, false, start, fields, STATE, text, String(StateName(row.state)));
    more, fields := AppendField(more, false, start, fields, BYTES_DONE, ShowInt(row.bytesDone), Int(row.bytesDone));
    more, fields := AppendField(more, false, start, fields, ATTEMPTS, ShowInt(row.attempts), Int(row.attempts));
    text := Quote(row.message);
    more, fields := AppendField(more, false, start, fields, MESSAGE, text, String(row.message));
    more, fields := AppendField(more, false, start, fields, QUEUED_AT, ShowInt(row.queuedAt), Int(row.queuedAt));
  }

  /** A row's object, after what is written already. */
  method AppendEntry(row: Row, out: string) returns (more: string)
    ensures more == out + Show(EntryValue(row))
  {
    hide ShowMembers, Fields;
    ghost var fields;
    more, fields := AppendRom(row, out + "{", out);
    ghost var rom := fields;
    RomComesFirst(row);
    more, fields := AppendProgress(row, more, out, rom);
    assert fields == Fields(row);
    more := more + "}";
    assert more == out + ("{" + ShowMembers(Fields(row), true) + "}");
  }

  lemma RomComesFirst(row: Row)
    ensures |Fields(row)| == 11
  {
  }

  lemma KeysArePlain()
    ensures Plain(ROM_ID) && Plain(SLUG) && Plain(FS_NAME) && Plain(SIZE_BYTES) && Plain(SHA1) && Plain(DESTINATION)
    ensures Plain(STATE) && Plain(BYTES_DONE) && Plain(ATTEMPTS) && Plain(MESSAGE) && Plain(QUEUED_AT)
    ensures Plain(FORMAT_KEY) && Plain(VERSION_KEY) && Plain(ENTRIES)
  {
  }

  function PieceCount(rows: seq<Row>): nat { |rows| + 2 }

  /** The opening, the rows one by one, the closing: what the file's text is put together of. */
  function Piece(rows: seq<Row>, i: nat): string
    requires i < PieceCount(rows)
  {
    if i == 0 then "{" + ShowMembers(Opening(), true) + ",\"entries\":["
    else if i <= |rows| then (if i == 1 then "" else ",") + Show(EntryValue(rows[i - 1]))
    else "]}\n"
  }

  function Opening(): seq<Member> { [Member(FORMAT_KEY, String(MAGIC)), Member(VERSION_KEY, Int(VERSION))] }

  method AppendPiece(rows: seq<Row>, i: nat, out: string) returns (more: string)
    requires i < PieceCount(rows)
    ensures more == out + Piece(rows, i)
  {
    hide ShowMembers, Show, EscapedAll, Quoted, ShowInt, Plain;
    if i == 0 {
      more := AppendOpening(out);
    } else if i <= |rows| {
      more := AppendEntry(rows[i - 1], if i == 1 then out else out + ",");
      assert more == out + ((if i == 1 then "" else ",") + Show(EntryValue(rows[i - 1])));
    } else {
      more := out + "]}\n";
    }
  }

  method AppendOpening(out: string) returns (more: string)
    ensures more == out + ("{" + ShowMembers(Opening(), true) + ",\"entries\":[")
  {
    hide ShowMembers, EscapedAll, Quoted, ShowInt, Plain;
    KeysArePlain();
    NothingShown();
    more := out + "{";
    ghost var fields := [];
    assert more == out + "{" + ShowMembers(fields, true);
    var text := Quote(MAGIC);
    more, fields := AppendField(more, true, out, fields, FORMAT_KEY, text, String(MAGIC));
    more, fields := AppendField(more, false, out, fields, VERSION_KEY, ShowInt(VERSION), Int(VERSION));
    assert fields == Opening();
    more := more + ",\"entries\":[";
    assert more == out + ("{" + ShowMembers(Opening(), true) + ",\"entries\":[");
  }

  // ----- The pieces are the text -----

  function Pieces(rows: seq<Row>): seq<string> { seq(PieceCount(rows), i requires 0 <= i < PieceCount(rows) => Piece(rows, i)) }

  lemma {:induction false} RowsJoined(rows: seq<Row>, n: nat)
    requires n <= |rows|
    ensures A.Concat(Pieces(rows)[..n + 1]) == Piece(rows, 0) + ShowElements(Entries(rows[..n]), true)
  {
    hide Show, Piece;
    var pieces := Pieces(rows);
    if n == 0 {
      assert pieces[..1] == [pieces[0]] && [pieces[0]][..0] == [];
      NothingShown();
      assert Entries(rows[..0]) == [] && A.Concat([]) == "";
    } else {
      RowsJoined(rows, n - 1);
      assert pieces[..n + 1][..n] == pieces[..n];
      assert Entries(rows[..n]) == Entries(rows[..n - 1]) + [EntryValue(rows[n - 1])];
      OneMoreElement(Entries(rows[..n - 1]), EntryValue(rows[n - 1]), true);
      PieceIs(rows, n);
    }
  }

  lemma PieceIs(rows: seq<Row>, n: nat)
    requires 0 < n <= |rows|
    ensures Piece(rows, n) == (if n == 1 then "" else ",") + Show(EntryValue(rows[n - 1]))
  {
    hide Show;
  }

  lemma PiecesAreTheText(rows: seq<Row>)
    ensures A.Concat(Pieces(rows)) == FileText(rows)
  {
    hide ShowMembers, ShowElements, EscapedAll, ShowInt, Entries, Plain;
    var pieces, n := Pieces(rows), |rows|;
    RowsJoined(rows, n);
    assert rows[..n] == rows && pieces[..n + 2] == pieces && pieces[..n + 2][..n + 1] == pieces[..n + 1];
    var entries := Member(ENTRIES, Array(Entries(rows)));
    OneMoreMember(Opening(), entries, true);
    assert Opening() + [entries] == [Member(FORMAT_KEY, String(MAGIC)), Member(VERSION_KEY, Int(VERSION)), entries];
    KeysArePlain();
    PlainIsItself(ENTRIES);
    TextIs(rows);
  }

  lemma TextIs(rows: seq<Row>)
    requires ShowMembers(Opening() + [Member(ENTRIES, Array(Entries(rows)))], true)
             == ShowMembers(Opening(), true) + "," + (Quoted(ENTRIES) + ":" + Show(Array(Entries(rows))))
    requires EscapedAll(ENTRIES) == ENTRIES
    ensures FileText(rows) == Piece(rows, 0) + ShowElements(Entries(rows), true) + "]}\n"
  {
    hide ShowMembers, ShowElements, EscapedAll, Entries;
    assert Opening() + [Member(ENTRIES, Array(Entries(rows)))]
           == [Member(FORMAT_KEY, String(MAGIC)), Member(VERSION_KEY, Int(VERSION)), Member(ENTRIES, Array(Entries(rows)))];
  }

  method SerializeQueue(rows: seq<Row>) returns (text: string)
    ensures text == FileText(rows)
  {
    hide Piece;
    text := "";
    for i := 0 to PieceCount(rows)
      invariant text == A.Concat(Pieces(rows)[..i])
    {
      assert Pieces(rows)[..i + 1][..i] == Pieces(rows)[..i];
      text := AppendPiece(rows, i, text);
    }
    assert Pieces(rows)[..PieceCount(rows)] == Pieces(rows);
    PiecesAreTheText(rows);
  }

  // ----- Reading -----

  function RequiredInt(ms: seq<Member>, key: string): Option<int> {
    var found := Named(ms, key);
    if found.Some? && found.value.Number? then found.value.integer else None
  }

  /** A string, or nothing for `null`; one with a NUL in it is refused. */
  function ReadString(ms: seq<Member>, key: string): Option<string> {
    var found := Named(ms, key);
    if found.None? then None
    else if found.value.Null? then Some("")
    else if found.value.String? && '\0' !in found.value.text then Some(found.value.text)
    else None
  }

  function RequiredString(ms: seq<Member>, key: string): Option<string> {
    var found := Named(ms, key);
    if found.Some? && found.value.String? && found.value.text != "" && '\0' !in found.value.text then Some(found.value.text) else None
  }

  function ParseEntry(b: Bounds, v: Value): Option<Row> {
    if !v.Object? then None else
      var ms := v.members;
      var romId, size, done, attempts, queuedAt :=
        RequiredInt(ms, ROM_ID), RequiredInt(ms, SIZE_BYTES), RequiredInt(ms, BYTES_DONE), RequiredInt(ms, ATTEMPTS), RequiredInt(ms, QUEUED_AT);
      var slug, fsName, sha1, destination, state, message :=
        ReadString(ms, SLUG), ReadString(ms, FS_NAME), ReadString(ms, SHA1), ReadString(ms, DESTINATION), ReadString(ms, STATE), ReadString(ms, MESSAGE);
      if romId.None? || size.None? || done.None? || attempts.None? || queuedAt.None? then None
      else if slug.None? || fsName.None? || sha1.None? || destination.None? || state.None? || message.None? then None
      else if ParseState(state.value).None? || attempts.value < 0 || attempts.value > b.attempts then None
      else
        var row := D.Row(romId.value, queuedAt.value, ParseState(state.value).value, done.value, size.value, attempts.value,
                         fsName.value, slug.value, sha1.value, destination.value, message.value);
        if Usable(b, row) then Some(row) else None
  }

  // ----- What an entry says -----

  /** The first member of the name has the value. */
  ghost predicate Holds(ms: seq<Member>, key: string, v: Value) {
    exists i :: 0 <= i < |ms| && ms[i] == Member(key, v) && forall j :: 0 <= j < i ==> ms[j].key != key
  }

  lemma {:induction false} NamedHolds(ms: seq<Member>, key: string, v: Value)
    ensures Named(ms, key) == Some(v) <==> Holds(ms, key, v)
  {
    if ms != [] && ms[0].key != key {
      NamedHolds(ms[1..], key, v);
      if Holds(ms[1..], key, v) {
        var i :| 0 <= i < |ms[1..]| && ms[1..][i] == Member(key, v) && forall j :: 0 <= j < i ==> ms[1..][j].key != key;
        assert ms[i + 1] == Member(key, v) && forall j :: 0 < j < i + 1 ==> ms[j] == ms[1..][j - 1];
      }
      if Holds(ms, key, v) {
        var i :| 0 <= i < |ms| && ms[i] == Member(key, v) && forall j :: 0 <= j < i ==> ms[j].key != key;
        assert ms[1..][i - 1] == Member(key, v) && forall j :: 0 <= j < i - 1 ==> ms[1..][j] == ms[j + 1];
      }
    }
  }

  ghost predicate SaysInt(ms: seq<Member>, key: string, n: int) { Holds(ms, key, Number(Some(n))) }

  /** A text without a NUL; `null` is the empty one. */
  ghost predicate SaysText(ms: seq<Member>, key: string, text: string) {
    (Holds(ms, key, Null) && text == "") || (Holds(ms, key, String(text)) && '\0' !in text)
  }

  ghost predicate SaysState(ms: seq<Member>, state: D.State) {
    match state
    case Queued => SaysText(ms, "state", "queued")
    case Active => SaysText(ms, "state", "active")
    case Verifying => SaysText(ms, "state", "verifying")
    case Done => SaysText(ms, "state", "done")
    case Failed => SaysText(ms, "state", "failed")
    case Skipped => SaysText(ms, "state", "skipped")
  }

  /** What makes an object the entry of a row. */
  ghost predicate Says(b: Bounds, v: Value, row: Row) {
    && v.Object?
    && SaysInt(v.members, "rom_id", row.romId) && row.romId >= 1
    && SaysInt(v.members, "size_bytes", row.sizeBytes) && row.sizeBytes >= 0
    && SaysInt(v.members, "bytes_done", row.bytesDone) && row.bytesDone >= 0
    && SaysInt(v.members, "attempts", row.attempts) && row.attempts <= b.attempts
    && SaysInt(v.members, "queued_at", row.queuedAt) && row.queuedAt >= 0
    && SaysText(v.members, "platform_fs_slug", row.slug) && |row.slug| <= b.path
    && SaysText(v.members, "fs_name", row.fsName) && |row.fsName| <= b.path
    && SaysText(v.members, "sha1_hash", row.sha1)
    && SaysText(v.members, "destination", row.destination) && |row.destination| <= b.path
    && SaysText(v.members, "message", row.message) && |row.message| <= b.message
    && SaysState(v.members, row.state)
  }

  lemma IntIsSaid(ms: seq<Member>, key: string, n: int)
    ensures RequiredInt(ms, key) == Some(n) <==> SaysInt(ms, key, n)
  {
    hide Named, Holds;
    NamedHolds(ms, key, Number(Some(n)));
  }

  lemma TextIsSaid(ms: seq<Member>, key: string, text: string)
    ensures ReadString(ms, key) == Some(text) <==> SaysText(ms, key, text)
  {
    hide Named, Holds;
    NamedHolds(ms, key, Null);
    NamedHolds(ms, key, String(text));
  }

  lemma StateIsSaid(ms: seq<Member>, state: D.State)
    ensures (ReadString(ms, STATE).Some? && ParseState(ReadString(ms, STATE).value) == Some(state)) <==> SaysState(ms, state)
  {
    hide ReadString, SaysText;
    TextIsSaid(ms, STATE, "queued");
    TextIsSaid(ms, STATE, "active");
    TextIsSaid(ms, STATE, "verifying");
    TextIsSaid(ms, STATE, "done");
    TextIsSaid(ms, STATE, "failed");
    TextIsSaid(ms, STATE, "skipped");
    StateReads(D.Queued);
    StateReads(D.Active);
    StateReads(D.Verifying);
    StateReads(D.Done);
    StateReads(D.Failed);
    StateReads(D.Skipped);
  }

  /** An entry is read as a row exactly when it says that row, within the bounds. */
  lemma EntryIsSaid(b: Bounds, v: Value, row: Row)
    ensures ParseEntry(b, v) == Some(row) <==> Says(b, v, row)
  {
    if v.Object? {
      var ms := v.members;
      hide RequiredInt, ReadString, SaysInt, SaysText, SaysState, ParseState;
      IntIsSaid(ms, ROM_ID, row.romId);
      IntIsSaid(ms, SIZE_BYTES, row.sizeBytes);
      IntIsSaid(ms, BYTES_DONE, row.bytesDone);
      IntIsSaid(ms, ATTEMPTS, row.attempts);
      IntIsSaid(ms, QUEUED_AT, row.queuedAt);
      TextIsSaid(ms, SLUG, row.slug);
      TextIsSaid(ms, FS_NAME, row.fsName);
      TextIsSaid(ms, SHA1, row.sha1);
      TextIsSaid(ms, DESTINATION, row.destination);
      TextIsSaid(ms, MESSAGE, row.message);
      StateIsSaid(ms, row.state);
    }
  }

  predicate HasRom(rows: seq<Row>, romId: int) { exists i :: 0 <= i < |rows| && rows[i].romId == romId }

  /** Every entry read, each rom once: or none of them. */
  function RowsOf(b: Bounds, vs: seq<Value>): Option<seq<Row>> {
    if vs == [] then Some([])
    else
      var before, row := RowsOf(b, vs[..|vs| - 1]), ParseEntry(b, vs[|vs| - 1]);
      if before.Some? && row.Some? && !HasRom(before.value, row.value.romId) then Some(before.value + [row.value]) else None
  }

  function Few(b: Bounds): (Value, nat) -> bool { (v, i) => i < b.rows }

  /** What is made of a text: a queue, or nothing. */
  ghost function Loaded(b: Bounds, t: string): Option<seq<Row>> {
    if !Streams(t, ENTRIES, All, Few(b)) then None
    else
      var ms := StreamedValue(t, ENTRIES, All).members;
      if RequiredString(ms, FORMAT_KEY) != Some(MAGIC) || RequiredInt(ms, VERSION_KEY) != Some(VERSION) then None
      else if Named(ms, ENTRIES).None? then None
      else RowsOf(b, StreamedElements(t, ENTRIES, All))
  }

  method FindRom(rows: seq<Row>, romId: int) returns (found: bool)
    ensures found == HasRom(rows, romId)
  {
    for i := 0 to |rows|
      invariant forall k :: 0 <= k < i ==> rows[k].romId != romId
    {
      if rows[i].romId == romId {
        return true;
      }
    }
    found := false;
  }

  method ParseQueue(b: Bounds, text: string) returns (loaded: Option<seq<Row>>)
    ensures loaded == Loaded(b, text)
  {
    hide ParseEntry, Streams, HasRom, Named, RowsOf;
    var document, elements := ParseEach(text, ENTRIES, All, Few(b));
    if document.None? {
      return None;
    }
    var rows, complaints := ReadEntries(b, elements);
    var ms := document.value.members;
    if RequiredString(ms, FORMAT_KEY) != Some(MAGIC) || RequiredInt(ms, VERSION_KEY) != Some(VERSION) || Named(ms, ENTRIES).None? {
      return None;
    }
    loaded := if complaints == 0 then Some(rows) else None;
  }

  /** Every entry that is a row of its own; anything else is a complaint. */
  method ReadEntries(b: Bounds, elements: seq<Value>) returns (rows: seq<Row>, complaints: int)
    ensures complaints >= 0 && RowsOf(b, elements) == if complaints == 0 then Some(rows) else None
  {
    hide ParseEntry, HasRom;
    rows, complaints := [], 0;
    for i := 0 to |elements|
      invariant complaints >= 0 && RowsOf(b, elements[..i]) == if complaints == 0 then Some(rows) else None
    {
      assert elements[..i + 1][..i] == elements[..i];
      var row := ParseEntry(b, elements[i]);
      if row.None? {
        complaints := complaints + 1;
      } else {
        var twice := FindRom(rows, row.value.romId);
        if twice {
          complaints := complaints + 1;
        } else {
          rows := rows + [row.value];
        }
      }
    }
    assert elements[..|elements|] == elements;
  }

  // ----- What was written is what is read -----

  /** What a row in memory is: its numbers are 64-bit, its texts carry no NUL. */
  predicate Sendable(b: Bounds, row: Row) {
    && Usable(b, row) && Fits64(row.romId) && Fits64(row.sizeBytes) && Fits64(row.bytesDone) && Fits64(row.attempts) && Fits64(row.queuedAt)
    && '\0' !in row.slug && '\0' !in row.fsName && '\0' !in row.sha1 && '\0' !in row.destination && '\0' !in row.message
  }

  lemma FieldsDiffer(row: Row)
    ensures DistinctKeys(Fields(row))
  {
    assert |ROM_ID| == 6 && |SLUG| == 16 && |FS_NAME| == 7 && |SIZE_BYTES| == 10 && |SHA1| == 9 && |DESTINATION| == 11;
    assert |STATE| == 5 && |BYTES_DONE| == 10 && |ATTEMPTS| == 8 && |MESSAGE| == 7 && |QUEUED_AT| == 9;
    assert FS_NAME[0] == 'f' && MESSAGE[0] == 'm' && SIZE_BYTES[0] == 's' && BYTES_DONE[0] == 'b' && SHA1[0] == 's' && QUEUED_AT[0] == 'q';
  }

  lemma EntryReads(b: Bounds, row: Row)
    requires Sendable(b, row)
    ensures ParseEntry(b, EntryValue(row)) == Some(row)
  {
    hide Named, DistinctKeys, ParseState, StateName, Usable;
    var ms := Fields(row);
    FieldsDiffer(row);
    StateReads(row.state);
    StateHasNoNul(row.state);
    NamedIs(ms, 0);
    NamedIs(ms, 1);
    NamedIs(ms, 2);
    NamedIs(ms, 3);
    NamedIs(ms, 4);
    NamedIs(ms, 5);
    NamedIs(ms, 6);
    NamedIs(ms, 7);
    NamedIs(ms, 8);
    NamedIs(ms, 9);
    NamedIs(ms, 10);
    UsableAttempts(b, row);
  }

  lemma StateHasNoNul(state: D.State)
    ensures '\0' !in StateName(state)
  {
  }

  lemma UsableAttempts(b: Bounds, row: Row)
    requires Usable(b, row)
    ensures row.attempts <= b.attempts
  {
  }

  lemma {:induction false} EntriesRead(b: Bounds, rows: seq<Row>)
    requires D.Distinct(rows) && forall i :: 0 <= i < |rows| ==> Sendable(b, rows[i])
    ensures RowsOf(b, Entries(rows)) == Some(rows)
  {
    hide ParseEntry, Sendable, EntryValue;
    if rows == [] {
      assert Entries(rows) == [];
    } else {
      var n := |rows| - 1;
      assert Entries(rows)[..n] == Entries(rows[..n]);
      EntriesRead(b, rows[..n]);
      EntryReads(b, rows[n]);
      assert rows == rows[..n] + [rows[n]];
    }
  }

  /** A file's value can be written, and names nothing twice. */
  lemma FileIsWritable(b: Bounds, rows: seq<Row>)
    requires forall i :: 0 <= i < |rows| ==> Sendable(b, rows[i])
    ensures Writable(FileValue(rows), MAX_DEPTH) && Strict(FileValue(rows))
  {
    hide EntryValue, DistinctKeys, Sendable;
    var entries := Entries(rows);
    forall i | 0 <= i < |rows| ensures Writable(entries[i], MAX_DEPTH - 2) && Strict(entries[i]) {
      EntryIsWritable(b, rows[i]);
    }
    FileKeysDiffer(entries);
    assert Strict(Array(entries)) && Writable(Array(entries), MAX_DEPTH - 1);
  }

  lemma FileKeysDiffer(entries: seq<Value>)
    ensures DistinctKeys([Member(FORMAT_KEY, String(MAGIC)), Member(VERSION_KEY, Int(VERSION)), Member(ENTRIES, Array(entries))])
    ensures DistinctKeys([Member(FORMAT_KEY, String(MAGIC)), Member(VERSION_KEY, Int(VERSION)), Member(ENTRIES, Array([]))])
  {
    assert |FORMAT_KEY| == 6 && |VERSION_KEY| == 7 == |ENTRIES| && VERSION_KEY[0] == 'v' && ENTRIES[0] == 'e';
  }

  lemma EntryIsWritable(b: Bounds, row: Row)
    requires Sendable(b, row)
    ensures Writable(EntryValue(row), MAX_DEPTH - 2) && Strict(EntryValue(row))
  {
    hide DistinctKeys;
    FieldsDiffer(row);
    forall i | 0 <= i < |Fields(row)| ensures Writable(Fields(row)[i].value, MAX_DEPTH - 3) && Strict(Fields(row)[i].value) {}
  }

  /** A file with no more entries than a queue may have streams as its value does. */
  lemma FileStreams(b: Bounds, t: string, rows: seq<Row>)
    requires Parsed(t) == Some(FileValue(rows)) && CharAt(t, SkipBlanks(t, 0), '{') && |rows| <= b.rows
    ensures Streams(t, ENTRIES, All, Few(b)) && TopMembers(t).Got?
    ensures StreamedElements(t, ENTRIES, All) == Entries(rows)
    ensures StreamedValue(t, ENTRIES, All).Object?
            && StreamedValue(t, ENTRIES, All).members
               == [Member(FORMAT_KEY, String(MAGIC)), Member(VERSION_KEY, Int(VERSION)), Member(ENTRIES, Array([]))]
  {
    hide Strict, ReadObject, SkipBlanks, Trim, TrimElements, BuildMembers, Handed, Show, EntryValue;
    var ms := FileValue(rows).members;
    FileKeysDiffer(Entries(rows));
    NamedIs(ms, 2);
    StreamingIsParse(t, ENTRIES);
    TopIsDocument(t);
    assert TopMembers(t).value == ms;
    assert MembersOk(Some(ENTRIES), All, Few(b), ms) by {
      forall i | 0 <= i < |ms| ensures MemberOk(Some(ENTRIES), All, Few(b), ms[i]) {
        assert MemberOk(Some(ENTRIES), All, ALWAYS, ms[i]);
      }
    }
    var r := StreamedValue(t, ENTRIES, All).members;
    assert IsEmptied(ms, ENTRIES, r);
    assert r == [r[0], r[1], r[2]];
  }

  /** A queue of usable rows with distinct ids, written and read back, is the same queue. */
  lemma QueueRoundTrip(b: Bounds, rows: seq<Row>)
    requires D.Distinct(rows) && |rows| <= b.rows && forall i :: 0 <= i < |rows| ==> Sendable(b, rows[i])
    ensures Loaded(b, FileText(rows)) == Some(rows)
  {
    hide Show, Streams, StreamedValue, StreamedElements, Writable, Strict, RowsOf, Entries, Parsed, SkipBlanks, Sendable;
    var t := FileText(rows);
    FileIsWritable(b, rows);
    ParseUndoesLine(FileValue(rows));
    StartsObject(rows);
    FileStreams(b, t, rows);
    EntriesRead(b, rows);
    FileKeysDiffer([]);
    var ms := StreamedValue(t, ENTRIES, All).members;
    NamedIs(ms, 0);
    NamedIs(ms, 1);
    NamedIs(ms, 2);
  }

  lemma StartsObject(rows: seq<Row>)
    ensures CharAt(FileText(rows), SkipBlanks(FileText(rows), 0), '{')
  {
    assert FileText(rows)[0] == '{';
  }

  // ----- On the card -----

  /** Save the queue: refused whole when the next boot would refuse it, and whole or not at all on the card. */
  method SaveQueue(card: A.Card, path: A.Path, b: Bounds, rows: seq<Row>) returns (ok: bool)
    modifies card`files, card`states
    ensures old(card.states) <= card.states
    ensures A.AllOffer(old(card.files), card.states, |old(card.states)|, path, FileText(rows))
    ensures ok ==> A.Lookup(card.files, path) == Some(FileText(rows)) && |FileText(rows)| <= b.bytes
    ensures ok ==> |rows| <= b.rows && forall i :: 0 <= i < |rows| ==> Usable(b, rows[i])
    ensures !ok ==> A.View(card.files, path) == A.View(old(card.files), path)
    ensures card.obliging && |rows| <= b.rows && (forall i :: 0 <= i < |rows| ==> Usable(b, rows[i])) && |FileText(rows)| <= b.bytes ==> ok
  {
    hide FileText, Piece, Usable, A.Offers, A.View;
    ok := false;
    if |rows| > b.rows {
      return;
    }
    for i := 0 to |rows|
      invariant forall k :: 0 <= k < i ==> Usable(b, rows[k])
      modifies {}
    {
      if !Usable(b, rows[i]) {
        return;
      }
    }
    var size, pieces := 0, [];
    for i := 0 to PieceCount(rows)
      invariant pieces == Pieces(rows)[..i] && size == |A.Concat(pieces)|
      modifies {}
    {
      var piece := AppendPiece(rows, i, "");
      assert "" + Piece(rows, i) == Piece(rows, i);
      assert (pieces + [piece])[..i] == pieces;
      size, pieces := size + |piece|, pieces + [piece];
    }
    assert Pieces(rows)[..PieceCount(rows)] == Pieces(rows);
    PiecesAreTheText(rows);
    if size > b.bytes {
      return;
    }
    ok := A.WriteAtomically(card, path, pieces);
  }

  /** The next boot finds the queue that was saved, if the file will open. */
  method SaveThenLoad(card: A.Card, path: A.Path, b: Bounds, rows: seq<Row>) returns (ok: bool, outcome: A.Outcome, loaded: Option<seq<Row>>)
    requires D.Distinct(rows) && forall i :: 0 <= i < |rows| ==> Sendable(b, rows[i])
    modifies card`files, card`states
    ensures ok ==> (outcome.Read? && loaded == Some(rows)) || (outcome.Unreadable? && !card.obliging)
  {
    hide FileText, Sendable, Loaded;
    ok := SaveQueue(card, path, b, rows);
    outcome := A.Load(card, path, b.bytes);
    loaded := None;
    if outcome.Read? {
      loaded := ParseQueue(b, outcome.contents);
    }
    if ok { QueueRoundTrip(b, rows); }
  }
}
