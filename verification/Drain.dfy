/** The download worker (core/src/download.cpp): one drain of the queue, whatever the server answers,
    whatever lies on the card, and whatever is asked for or taken back meanwhile. */
module Drain {
  import opened Options
  import D = DownloadQueue
  import A = AtomicFile

  type Path = A.Path
  type Bytes = A.Bytes
  type Files = A.Files

  /** What the server says of a rom. */
  datatype Detail = Detail(id: int, slug: string, fsName: string, sizeBytes: int, sha1: string, md5: string,
                           multiFile: bool, missing: bool, nested: bool, fileNames: seq<string>)

  datatype Fault = Canceled | InvalidRequest | DiskFull | FileTooLarge | TooLarge | WriteFailed | Other

  /** A body that is no rom's description is `None`. */
  datatype Reply = Failed(fault: Fault) | Answered(status: int, detail: Option<Detail>)

  datatype Verdict = Fine | Retry | Fatal | Unauthorized | Forbidden | Stopped

  function Judge(reply: Reply): (verdict: Verdict)
    ensures verdict == Fine <==> reply.Answered? && 200 <= reply.status < 300
    ensures verdict == Stopped <==> reply == Failed(Canceled)
    ensures verdict == Unauthorized <==> reply.Answered? && reply.status == 401
    ensures verdict == Forbidden <==> reply.Answered? && reply.status == 403
    ensures verdict == Retry <==> reply == Failed(Other) || (reply.Answered? && (reply.status in {408, 429} || reply.status >= 500))
  {
    match reply
    case Failed(fault) =>
      if fault.Canceled? then Stopped else if fault.Other? then Retry else Fatal
    case Answered(status, _) =>
      if 200 <= status < 300 then Fine
      else if status == 401 then Unauthorized
      else if status == 403 then Forbidden
      else if status == 404 then Fatal
      else if status >= 500 || status == 408 || status == 429 then Retry
      else Fatal
  }

  datatype Outcome = Idle | Completed | Retryable | Rejected | NotAllowed | Cut | StoreFailed | Disabled

  function OutcomeFor(verdict: Verdict): Outcome {
    match verdict
    case Retry => Retryable
    case Unauthorized => Rejected
    case Forbidden => NotAllowed
    case Stopped => Cut
    case _ => Completed
  }

  /** How a turn ended, and the row it settled for good, when it did. */
  datatype Step = Step(outcome: Outcome, settled: Option<D.Row>)

  /** The configuration, the card's root, the digests, of which nothing is assumed, and what the server may
      say of a rom. */
  datatype Setup = Setup(enabled: bool, verifyHash: bool, resume: bool, maxAttempts: int, maxRecorded: nat, maxPath: nat,
                         folders: map<string, seq<Path>>, root: Path, onCard: Path -> bool, nameOk: string -> bool,
                         usable: D.Row -> bool, sha1: Bytes -> string, md5: Bytes -> string, offers: Detail -> bool)

  /** How many requests a turn may make before it gives up: what is configured, and one at least. */
  function Budget(setup: Setup): (budget: nat)
    ensures budget >= 1 && budget >= setup.maxAttempts && (budget == 1 || budget == setup.maxAttempts)
  {
    if setup.maxAttempts > 0 then setup.maxAttempts else 1
  }

  // ----- What to check bytes against -----

  datatype Want = Nothing | Sha1(hex: string) | Md5(hex: string)

  function LowerHex(text: string): string {
    seq(|text|, i requires 0 <= i < |text| => if 'A' <= text[i] <= 'F' then text[i] - 'A' + 'a' else text[i])
  }

  function WantOf(setup: Setup, detail: Detail): Want {
    if !setup.verifyHash then Nothing
    else if detail.sha1 != "" then Sha1(LowerHex(detail.sha1))
    else if detail.md5 != "" then Md5(LowerHex(detail.md5))
    else Nothing
  }

  function DigestOf(setup: Setup, want: Want, bytes: Bytes): string {
    if want.Sha1? then setup.sha1(bytes) else setup.md5(bytes)
  }

  predicate Fits(setup: Setup, want: Want, bytes: Bytes) {
    match want
    case Nothing => true
    case Sha1(hex) => setup.sha1(bytes) == hex
    case Md5(hex) => setup.md5(bytes) == hex
  }

  /** The digest is what the server recorded, its letters in lower case. */
  ghost predicate SameHex(recorded: string, digest: string) {
    && |digest| == |recorded|
    && forall i :: 0 <= i < |recorded| ==>
         if 'A' <= recorded[i] <= 'F' then digest[i] as int == recorded[i] as int + 32 else digest[i] == recorded[i]
  }

  /** What the server recorded of the rom vouches for the bytes: its SHA-1, or its MD5 when it has only that. */
  ghost predicate Attested(setup: Setup, detail: Detail, bytes: Bytes) {
    setup.verifyHash ==>
      && (detail.sha1 != "" ==> SameHex(detail.sha1, setup.sha1(bytes)))
      && (detail.sha1 == "" && detail.md5 != "" ==> SameHex(detail.md5, setup.md5(bytes)))
  }

  lemma LowerIsSame(recorded: string, digest: string)
    ensures digest == LowerHex(recorded) <==> SameHex(recorded, digest)
  {
    if SameHex(recorded, digest) {
      assert forall i :: 0 <= i < |recorded| ==> digest[i] == LowerHex(recorded)[i];
    }
  }

  /** The check a rom's bytes are put to is what vouches for them, and nothing is asked only when nothing is recorded. */
  lemma FitsIsAttested(setup: Setup, detail: Detail, bytes: Bytes)
    ensures Fits(setup, WantOf(setup, detail), bytes) <==> Attested(setup, detail, bytes)
    ensures WantOf(setup, detail) == Nothing <==> !setup.verifyHash || (detail.sha1 == "" && detail.md5 == "")
  {
    hide SameHex, LowerHex;
    LowerIsSame(detail.sha1, setup.sha1(bytes));
    LowerIsSame(detail.md5, setup.md5(bytes));
  }

  // ----- Where a rom goes -----

  /** What is written down of a rom once it was asked about. */
  function Described(row: D.Row, detail: Detail): D.Row {
    row.(slug := detail.slug, fsName := detail.fsName, sizeBytes := detail.sizeBytes, sha1 := detail.sha1)
  }

  /** It is the rom that was asked about, in one file that the server has, and the row that says so may be written. */
  ghost predicate Placeable(setup: Setup, romId: int, detail: Detail) {
    && detail.id == romId && !detail.multiFile && !detail.missing
    && forall row: D.Row :: row.romId == romId ==> setup.usable(Described(row, detail))
  }

  function PartialPathFor(path: Path): Path { path + ".part" }

  predicate NamesOneFile(setup: Setup, name: string) { name != "" && '/' !in name && setup.nameOk(name) }

  function Join(directory: Path, leaf: string): Path {
    (if directory == "" || directory[|directory| - 1] != '/' then directory + "/" else directory) + leaf
  }

  function Resolve(setup: Setup, path: Path): Path { if setup.onCard(path) then setup.root + path else "" }

  function FoldersFor(setup: Setup, slug: string, leaf: string): seq<Path> {
    if slug in setup.folders && NamesOneFile(setup, leaf) then setup.folders[slug] else []
  }

  function DestinationFor(setup: Setup, slug: string, leaf: string): Option<Path> {
    var folders := FoldersFor(setup, slug, leaf);
    if folders == [] || |Join(folders[0], leaf)| > setup.maxPath then None else Some(Join(folders[0], leaf))
  }

  function LastDot(name: string): Option<nat> {
    if name == "" then None
    else if name[|name| - 1] == '.' then Some(|name| - 1)
    else LastDot(name[..|name| - 1])
  }

  function ExtensionOf(name: string): string {
    match LastDot(name)
    case None => ""
    case Some(dot) => if 0 < dot <= |name| then name[dot..] else ""
  }

  /** The name a rom is written under: a folder holding one file takes that file's extension. */
  function NameOnTheCard(setup: Setup, detail: Detail): Option<string> {
    if !detail.nested then Some(detail.fsName)
    else if |detail.fileNames| != 1 || !NamesOneFile(setup, detail.fileNames[0]) then None
    else if ExtensionOf(detail.fsName) == "" then Some(detail.fsName + ExtensionOf(detail.fileNames[0]))
    else Some(detail.fsName)
  }

  /** Where a rom's bytes are written, if anywhere. */
  function GoesTo(setup: Setup, detail: Detail): Option<Path> {
    match NameOnTheCard(setup, detail)
    case None => None
    case Some(leaf) =>
      match DestinationFor(setup, detail.slug, leaf)
      case None => None
      case Some(path) => if Resolve(setup, path) == "" then None else Some(Resolve(setup, path))
  }

  /** What is behind a name from its last point on, unless that is its first letter. */
  ghost predicate IsExtension(name: string, extension: string) {
    if exists dot :: 0 < dot < |name| && name[dot] == '.' then
      exists dot :: 0 < dot < |name| && name[dot] == '.' && '.' !in name[dot + 1..] && extension == name[dot..]
    else extension == ""
  }

  lemma {:induction false} LastDotIs(name: string)
    ensures match LastDot(name)
            case None => '.' !in name
            case Some(dot) => dot < |name| && name[dot] == '.' && '.' !in name[dot + 1..]
  {
    if name != "" && name[|name| - 1] != '.' {
      var init := name[..|name| - 1];
      LastDotIs(init);
      match LastDot(init)
      case None => assert name == init + [name[|name| - 1]];
      case Some(dot) => assert name[dot + 1..] == init[dot + 1..] + [name[|name| - 1]];
    }
  }

  lemma ExtensionIs(name: string, extension: string)
    ensures ExtensionOf(name) == extension <==> IsExtension(name, extension)
  {
    LastDotIs(name);
    hide LastDot;
    match LastDot(name)
    case None => assert forall i :: 0 <= i < |name| ==> name[i] in name;
    case Some(dot) =>
      assert forall i :: dot < i < |name| ==> name[i] == name[dot + 1..][i - dot - 1];
      forall other | 0 < other < dot && name[other] == '.' ensures '.' in name[other + 1..] {
        assert name[dot] == name[other + 1..][dot - other - 1];
      }
  }

  /** A folder of one file is written under its own name, with that file's extension if it has none. */
  ghost predicate WrittenAs(setup: Setup, detail: Detail, leaf: string) {
    if !detail.nested then leaf == detail.fsName
    else
      && |detail.fileNames| == 1 && detail.fileNames[0] != "" && '/' !in detail.fileNames[0] && setup.nameOk(detail.fileNames[0])
      && if IsExtension(detail.fsName, "") then exists extension :: IsExtension(detail.fileNames[0], extension) && leaf == detail.fsName + extension
         else leaf == detail.fsName
  }

  /** In the first folder that its platform maps, if the name is plain and the whole no longer than a path may be. */
  ghost predicate IsWrittenTo(setup: Setup, detail: Detail, leaf: string, path: Path) {
    && WrittenAs(setup, detail, leaf) && leaf != "" && '/' !in leaf && setup.nameOk(leaf)
    && detail.slug in setup.folders && setup.folders[detail.slug] != []
    && var folder := setup.folders[detail.slug][0];
       var name := if folder != "" && folder[|folder| - 1] == '/' then folder + leaf else folder + "/" + leaf;
       |name| <= setup.maxPath && setup.onCard(name) && path == setup.root + name && path != ""
  }

  lemma WrittenUnder(setup: Setup, detail: Detail, leaf: string)
    ensures NameOnTheCard(setup, detail) == Some(leaf) <==> WrittenAs(setup, detail, leaf)
  {
    hide ExtensionOf, IsExtension;
    ExtensionIs(detail.fsName, "");
    if detail.nested && |detail.fileNames| == 1 {
      var file := detail.fileNames[0];
      ExtensionIs(file, ExtensionOf(file));
      if extension :| IsExtension(file, extension) && leaf == detail.fsName + extension { ExtensionIs(file, extension); }
    }
  }

  /** Where a rom goes, from its names and the folders. */
  lemma GoesWhere(setup: Setup, detail: Detail, path: Path)
    ensures GoesTo(setup, detail) == Some(path) <==> exists leaf :: IsWrittenTo(setup, detail, leaf, path)
  {
    hide NameOnTheCard, WrittenAs;
    forall leaf ensures NameOnTheCard(setup, detail) == Some(leaf) <==> WrittenAs(setup, detail, leaf) { WrittenUnder(setup, detail, leaf); }
    if GoesTo(setup, detail) == Some(path) { assert IsWrittenTo(setup, detail, NameOnTheCard(setup, detail).value, path); }
  }

  /** A path some rom on offer is written to. */
  ghost predicate IsDestination(setup: Setup, path: Path) {
    exists detail :: setup.offers(detail) && GoesTo(setup, detail) == Some(path)
  }

  /** A path where the rom may be: in any of the folders its platform maps. */
  ghost predicate Lies(setup: Setup, detail: Detail, path: Path) {
    exists leaf, next: nat :: LiesAt(setup, detail, leaf, next, path)
  }

  /** A path where some rom on offer may be. */
  ghost predicate IsHome(setup: Setup, path: Path) { exists detail :: setup.offers(detail) && Lies(setup, detail, path) }

  ghost predicate LiesAt(setup: Setup, detail: Detail, leaf: string, next: nat, path: Path) {
    && NameOnTheCard(setup, detail) == Some(leaf) && next < |FoldersFor(setup, detail.slug, leaf)|
    && path == Resolve(setup, Join(FoldersFor(setup, detail.slug, leaf)[next], leaf)) != ""
  }

  /** A transfer to `other` works under the name `path`, or is one to the name a reader of `path` falls back on. */
  ghost predicate Collides(path: Path, other: Path) {
    path in Scratch(other) || path == A.PreviousPathFor(other) || other == A.PreviousPathFor(path)
  }

  /** `other` is written to where `detail` may be, and what passes its check need not pass the first one's. */
  ghost predicate Overwrites(setup: Setup, detail: Detail, other: Detail, path: Path) {
    && Lies(setup, detail, path) && GoesTo(setup, other) == Some(path)
    && WantOf(setup, detail) != Nothing && WantOf(setup, detail) != WantOf(setup, other)
  }

  /** No rom on offer may be at a name that the transfer of another works under, nor at one another is written to,
      unless the two are held to the same digest. */
  ghost predicate Apart(setup: Setup) {
    && (forall path, other :: IsHome(setup, path) && IsDestination(setup, other) ==> !Collides(path, other))
    && (forall detail, other, path :: setup.offers(detail) && setup.offers(other) ==> !Overwrites(setup, detail, other, path))
  }

  lemma DestinationIsHome(setup: Setup, detail: Detail, path: Path)
    requires setup.offers(detail) && GoesTo(setup, detail) == Some(path)
    ensures IsDestination(setup, path) && IsHome(setup, path) && Lies(setup, detail, path)
  {
    hide NameOnTheCard, Join;
    assert LiesAt(setup, detail, NameOnTheCard(setup, detail).value, 0, path);
  }

  /** The names a transfer to `path` may touch. */
  ghost function Scratch(path: Path): set<Path> { {A.TempPathFor(path), PartialPathFor(A.TempPathFor(path))} }

  ghost function Family(path: Path): set<Path> { {path, A.PreviousPathFor(path)} + Scratch(path) }

  lemma ScratchIsApart(path: Path)
    ensures path !in Scratch(path) && A.PreviousPathFor(path) !in Scratch(path)
    ensures A.TempPathFor(path) != PartialPathFor(A.TempPathFor(path)) && A.PreviousPathFor(path) != path
  {
    A.TempIsApart(path);
    var part := PartialPathFor(A.TempPathFor(path));
    assert |part| == |path| + 9;
  }

  /** A copy of the rom in any of its platform's folders is no scratch file of the one being written. */
  lemma CopiesAreApart(root: Path, directory: Path, other: Path, leaf: string)
    requires '/' !in leaf
    ensures root + Join(other, leaf) !in Scratch(root + Join(directory, leaf))
  {
    SuffixIsApart(root, directory, other, leaf, ".tmp");
    SuffixIsApart(root, directory, other, leaf, ".tmp.part");
    var path := root + Join(directory, leaf);
    assert A.TempPathFor(path) == path + ".tmp";
    assert PartialPathFor(A.TempPathFor(path)) == path + ".tmp.part" by { assert ".tmp" + ".part" == ".tmp.part"; }
  }

  lemma SuffixIsApart(root: Path, directory: Path, other: Path, leaf: string, suffix: string)
    requires '/' !in leaf && '/' !in suffix && suffix != ""
    ensures root + Join(other, leaf) != root + Join(directory, leaf) + suffix
  {
    var a, b := root + Join(other, leaf), root + Join(directory, leaf) + suffix;
    JoinEndsIn(other, leaf);
    JoinEndsIn(directory, leaf);
    if |a| == |b| {
      var slash := |a| - |leaf| - 1;
      assert a[slash] == Join(other, leaf)[slash - |root|] == '/';
      var last := |b| - |suffix|;
      assert b[slash] == if slash < last then leaf[slash - (last - |leaf|)] else suffix[slash - last];
    }
  }

  lemma JoinEndsIn(directory: Path, leaf: string)
    ensures |Join(directory, leaf)| > |leaf| && Join(directory, leaf)[|Join(directory, leaf)| - |leaf| - 1] == '/'
    ensures Join(directory, leaf)[|Join(directory, leaf)| - |leaf|..] == leaf
  {
  }

  // ----- What a turn may do to the card -----

  /** A reader of `path` finds what it would have found before the turn, or bytes that pass the check;
      and nothing but the transfer's own names has changed. */
  ghost predicate Kept(setup: Setup, want: Want, path: Path, before: Files, now: Files) {
    && A.SameBut(before, now, Family(path))
    && (A.View(now, path) == A.View(before, path)
        || (A.View(now, path).Some? && Fits(setup, want, A.View(now, path).value)))
  }

  ghost predicate AllKept(setup: Setup, want: Want, path: Path, before: Files, states: seq<Files>, from: nat) {
    forall i :: from <= i < |states| ==> Kept(setup, want, path, before, states[i])
  }

  lemma ScratchKeeps(setup: Setup, want: Want, path: Path, before: Files, was: Files, now: Files)
    requires Kept(setup, want, path, before, was) && A.SameBut(was, now, Scratch(path))
    ensures Kept(setup, want, path, before, now)
  {
    ScratchIsApart(path);
    assert A.Lookup(was, path) == A.Lookup(now, path);
    assert A.Lookup(was, A.PreviousPathFor(path)) == A.Lookup(now, A.PreviousPathFor(path));
  }

  lemma CommitKeeps(setup: Setup, want: Want, path: Path, before: Files, was: Files, now: Files)
    requires Kept(setup, want, path, before, was) && A.Safe(was, now, A.TempPathFor(path), path)
    requires A.TempPathFor(path) in was ==> Fits(setup, want, was[A.TempPathFor(path)])
    ensures Kept(setup, want, path, before, now)
  {
  }

  lemma CommitKeepsAll(setup: Setup, want: Want, path: Path, before: Files, was: Files, states: seq<Files>, from: nat, committed: nat)
    requires Kept(setup, want, path, before, was) && from <= committed <= |states|
    requires AllKept(setup, want, path, before, states[..committed], from)
    requires A.AllSafe(was, states, committed, A.TempPathFor(path), path)
    requires A.TempPathFor(path) in was ==> Fits(setup, want, was[A.TempPathFor(path)])
    ensures AllKept(setup, want, path, before, states, from)
  {
    hide Kept, A.Safe, Fits;
    forall i | from <= i < |states| ensures Kept(setup, want, path, before, states[i]) {
      if i < committed {
        assert states[..committed][i] == states[i];
      } else {
        CommitKeeps(setup, want, path, before, was, states[i]);
      }
    }
  }

  lemma OneMoreKept(setup: Setup, want: Want, path: Path, before: Files, states: seq<Files>, now: Files, from: nat)
    requires AllKept(setup, want, path, before, states, from) && Kept(setup, want, path, before, now)
    ensures AllKept(setup, want, path, before, states + [now], from)
  {
  }

  /** What a commit to `path` leaves of the names it works under: no staged file; and a former record has been
      under the name for one. */
  ghost predicate Landed(was: Files, states: seq<Files>, from: nat, now: Files, path: Path) {
    A.TempPathFor(path) !in now && (path in was ==> A.SetAside(states, from, path, was[path]))
  }

  lemma LandedEarlier(was: Files, then_: Files, states: seq<Files>, from: nat, since: nat, now: Files, path: Path)
    requires A.SameBut(was, then_, Scratch(path)) && from <= since && Landed(then_, states, since, now, path)
    ensures Landed(was, states, from, now, path)
  {
    ScratchIsApart(path);
    assert A.Lookup(was, path) == A.Lookup(then_, path);
    if path in was {
      var i :| since <= i < |states| && A.Lookup(states[i], A.PreviousPathFor(path)) == Some(was[path]);
    }
  }

  ghost predicate HasSize(files: Files, path: Path, size: int) { path in files && |files[path]| == size }

  /** How long a file is, as far as the card knows it. */
  ghost function SizeIn(files: Files, path: Path): nat { if path in files then |files[path]| else 0 }

  lemma ScratchAgain(a: Files, b: Files, c: Files, path: Path)
    requires A.SameBut(a, b, Scratch(path)) && A.SameBut(b, c, Scratch(path))
    ensures A.SameBut(a, c, Scratch(path))
  {
  }

  // ----- What waits, turn by turn -----

  /** Without new arrivals nothing starts to wait, except perhaps `romId`, whose turn it is. */
  ghost predicate Since(was: set<int>, left: nat, now: set<int>, leftNow: nat, romId: int) {
    leftNow <= left && (leftNow == left ==> now <= was + {romId})
  }

  lemma SinceAgain(a: set<int>, left: nat, b: set<int>, then_: nat, c: set<int>, now: nat, romId: int)
    requires Since(a, left, b, then_, romId) && Since(b, then_, c, now, romId)
    ensures Since(a, left, c, now, romId)
  {
  }

  datatype Checked = Mismatched | Verified | NotChecked

  datatype Tally = Tally(downloaded: nat, arrived: seq<int>, skipped: nat, failed: nat)

  const ALREADY_HERE := "already on the card"

  function Counted(tally: Tally, row: D.Row): Tally {
    match row.state
    case Done =>
      tally.(downloaded := tally.downloaded + 1,
             arrived := if row.message == ALREADY_HERE then tally.arrived else tally.arrived + [row.romId])
    case Skipped => tally.(skipped := tally.skipped + 1)
    case _ => tally.(failed := tally.failed + 1)
  }

  /** The counts after a turn that ended with `step`, or did not end yet. */
  function Tallied(tally: Tally, step: Option<Step>): Tally {
    if step.Some? && step.value.settled.Some? then Counted(tally, step.value.settled.value) else tally
  }

  /** The rom a turn was on, and where its bytes were to go. */
  datatype Target = Target(path: Path, detail: Detail)

  /** The turn ended with bytes moved into place. */
  ghost predicate Transferred(step: Option<Step>) {
    step.Some? && step.value.settled.Some? && step.value.settled.value.state == D.Done && step.value.settled.value.message != ALREADY_HERE
  }

  /** The rom is on the card. */
  ghost predicate Brought(step: Step) { step.outcome == Completed && step.settled.Some? && step.settled.value.state == D.Done }

  /** The card before the turn, all its states during it, and after it; and whether bytes were asked for. */
  datatype Turn = Turn(romId: int, target: Option<Target>, step: Step, before: Files, states: seq<Files>, after: Files, fetched: bool)

  // ----- A whole drain -----

  ghost function Later(turns: seq<Turn>): set<int> { set turn | turn in turns && turn.step.outcome == Retryable :: turn.romId }

  const NONE_COUNTED := Tally(0, [], 0, 0)

  /** The turns counted one after the other. */
  ghost function TallyOf(turns: seq<Turn>): Tally {
    if turns == [] then NONE_COUNTED else Tallied(TallyOf(turns[..|turns| - 1]), Some(turns[|turns| - 1].step))
  }

  /** How many turns settled their row in this state. */
  ghost function HowMany(turns: seq<Turn>, state: D.State): nat {
    if turns == [] then 0
    else
      var settled := turns[|turns| - 1].step.settled;
      HowMany(turns[..|turns| - 1], state) + if settled.Some? && settled.value.state == state then 1 else 0
  }

  /** The roms that were brought, in order, and not those that were there already. */
  ghost function NewOnes(turns: seq<Turn>): seq<int> {
    if turns == [] then []
    else
      var settled := turns[|turns| - 1].step.settled;
      NewOnes(turns[..|turns| - 1])
      + if settled.Some? && settled.value.state == D.Done && settled.value.message != "already on the card" then [settled.value.romId] else []
  }

  ghost predicate AllTerminal(turns: seq<Turn>) {
    forall turn :: turn in turns && turn.step.settled.Some? ==> turn.step.settled.value.state in {D.Done, D.Skipped, D.Failed}
  }

  /** The counts are of the turns' rows, each once and by what became of it. */
  lemma {:induction false} TallyCounts(turns: seq<Turn>)
    requires AllTerminal(turns)
    ensures TallyOf(turns) == Tally(HowMany(turns, D.Done), NewOnes(turns), HowMany(turns, D.Skipped), HowMany(turns, D.Failed))
  {
    if turns != [] {
      assert turns[|turns| - 1] in turns && forall turn :: turn in turns[..|turns| - 1] ==> turn in turns;
      TallyCounts(turns[..|turns| - 1]);
    }
  }

  ghost function Members(ids: seq<int>): set<int> { set id | id in ids }

  /** What a drain may say of itself, and what it says of the rows. */
  ghost predicate Concluded(outcome: Outcome, waiting: set<int>, turns: seq<Turn>) {
    match outcome
    case Completed => waiting == {} && turns != []
    case Idle => waiting == {} && turns == []
    case Retryable => waiting <= Later(turns) && turns != []
    case Disabled => turns == []
    case _ => true
  }

  /** A row settled as done names a path that held bytes passing the rom's own check. */
  ghost predicate TurnHolds(setup: Setup, turn: Turn) {
    turn.step.settled.Some? && turn.step.settled.value.state == D.Done ==>
      var path := Resolve(setup, turn.step.settled.value.destination);
      && turn.target.Some? && turn.target.value.detail.id == turn.step.settled.value.romId == turn.romId && Lies(setup, turn.target.value.detail, path)
      && path in turn.after && Fits(setup, WantOf(setup, turn.target.value.detail), turn.after[path])
  }

  /** The same, from what the server recorded: a row settled as done names bytes its digest vouches for. */
  ghost predicate TurnAttested(setup: Setup, turn: Turn) {
    turn.step.settled.Some? && turn.step.settled.value.state == D.Done ==>
      var path := Resolve(setup, turn.step.settled.value.destination);
      && turn.target.Some? && turn.target.value.detail.id == turn.step.settled.value.romId
      && path in turn.after && Attested(setup, turn.target.value.detail, turn.after[path])
  }

  ghost predicate AllAttested(setup: Setup, turns: seq<Turn>) { forall turn :: turn in turns ==> TurnAttested(setup, turn) }

  lemma HoldsIsAttested(setup: Setup, turns: seq<Turn>)
    requires AllHold(setup, turns)
    ensures AllAttested(setup, turns)
  {
    hide Resolve, Attested, Fits, WantOf, Lies;
    forall turn | turn in turns ensures TurnAttested(setup, turn) {
      assert TurnHolds(setup, turn);
      if turn.step.settled.Some? && turn.step.settled.value.state == D.Done {
        FitsIsAttested(setup, turn.target.value.detail, turn.after[Resolve(setup, turn.step.settled.value.destination)]);
      }
    }
  }

  ghost predicate AllHold(setup: Setup, turns: seq<Turn>) { forall turn :: turn in turns ==> TurnHolds(setup, turn) }

  /** No turn's files are at `path`, except as the destination itself. */
  ghost predicate OnlyDestination(turns: seq<Turn>, path: Path) {
    forall turn :: turn in turns && turn.target.Some? && turn.target.value.path != path ==>
                     path !in Family(turn.target.value.path) && A.PreviousPathFor(path) !in Family(turn.target.value.path)
  }

  ghost predicate BroughtBy(setup: Setup, turns: seq<Turn>, path: Path, bytes: Bytes) {
    exists turn :: turn in turns && turn.target.Some? && turn.target.value.path == path
                   && Fits(setup, WantOf(setup, turn.target.value.detail), bytes)
  }

  /** A reader of `path` finds what it would have found, or bytes that pass the check of a rom that goes there. */
  ghost predicate Reads(setup: Setup, turns: seq<Turn>, path: Path, before: Files, now: Files) {
    A.View(now, path) == A.View(before, path) || (A.View(now, path).Some? && BroughtBy(setup, turns, path, A.View(now, path).value))
  }

  /** Wherever no turn's own files are: a reader finds what it would have found before the drain, or
      bytes that pass the check of a rom that goes there. */
  ghost predicate Delivered(setup: Setup, turns: seq<Turn>, before: Files, now: Files) {
    forall path :: OnlyDestination(turns, path) ==>
                     Reads(setup, turns, path, before, now)
  }

  /** The turns were about roms on offer, and each rom's bytes went where they go. */
  ghost predicate AllOffered(setup: Setup, turns: seq<Turn>) {
    forall turn :: turn in turns && turn.target.Some? ==>
                     setup.offers(turn.target.value.detail) && GoesTo(setup, turn.target.value.detail) == Some(turn.target.value.path)
  }

  /** A reader finds what it would have found, or bytes that pass the rom's own check. */
  ghost predicate ReadsOwn(setup: Setup, detail: Detail, path: Path, before: Files, now: Files) {
    A.View(now, path) == A.View(before, path) || (A.View(now, path).Some? && Fits(setup, WantOf(setup, detail), A.View(now, path).value))
  }

  /** So it is of every rom on offer, wherever that may be. */
  ghost predicate HomesKept(setup: Setup, before: Files, now: Files) {
    forall detail, path :: setup.offers(detail) && Lies(setup, detail, path) ==> ReadsOwn(setup, detail, path, before, now)
  }

  ghost predicate AllHomesKept(setup: Setup, before: Files, states: seq<Files>, from: nat) {
    forall i :: from <= i < |states| ==> HomesKept(setup, before, states[i])
  }

  /** A reader finds what it would have found, or bytes that the rom's recorded digest vouches for. */
  ghost predicate ReadsAttested(setup: Setup, detail: Detail, path: Path, before: Files, now: Files) {
    A.View(now, path) == A.View(before, path) || (A.View(now, path).Some? && Attested(setup, detail, A.View(now, path).value))
  }

  ghost predicate HomesAttested(setup: Setup, before: Files, now: Files) {
    forall detail, path :: setup.offers(detail) && Lies(setup, detail, path) ==> ReadsAttested(setup, detail, path, before, now)
  }

  ghost predicate AllHomesAttested(setup: Setup, before: Files, states: seq<Files>, from: nat) {
    forall i :: from <= i < |states| ==> HomesAttested(setup, before, states[i])
  }

  lemma KeptIsAttested(setup: Setup, before: Files, now: Files)
    requires HomesKept(setup, before, now)
    ensures HomesAttested(setup, before, now)
  {
    hide Lies, A.View, Fits, WantOf, Attested;
    forall detail, path | setup.offers(detail) && Lies(setup, detail, path) ensures ReadsAttested(setup, detail, path, before, now) {
      assert ReadsOwn(setup, detail, path, before, now);
      if A.View(now, path) != A.View(before, path) { FitsIsAttested(setup, detail, A.View(now, path).value); }
    }
  }

  lemma AllKeptIsAttested(setup: Setup, before: Files, states: seq<Files>, from: nat)
    requires AllHomesKept(setup, before, states, from)
    ensures AllHomesAttested(setup, before, states, from)
  {
    hide HomesKept, HomesAttested;
    forall i | from <= i < |states| ensures HomesAttested(setup, before, states[i]) { KeptIsAttested(setup, before, states[i]); }
  }

  /** The row settled as done in that turn names bytes that pass its own check. */
  ghost predicate StillHolds(setup: Setup, turn: Turn, files: Files) {
    turn.step.settled.Some? && turn.step.settled.value.state == D.Done && turn.target.Some? ==>
      var path := Resolve(setup, turn.step.settled.value.destination);
      A.View(files, path).Some? && Fits(setup, WantOf(setup, turn.target.value.detail), A.View(files, path).value)
  }

  ghost predicate AllStillHold(setup: Setup, turns: seq<Turn>, files: Files) {
    forall turn :: turn in turns ==> StillHolds(setup, turn, files)
  }

  /** In raw terms: where the row says the rom is, a reader finds bytes that its recorded digest vouches for. */
  ghost predicate AllStillAttested(setup: Setup, turns: seq<Turn>, files: Files) {
    forall turn :: turn in turns ==> StillAttested(setup, turn, files)
  }

  ghost predicate StillAttested(setup: Setup, turn: Turn, files: Files) {
    turn.step.settled.Some? && turn.step.settled.value.state == D.Done && turn.target.Some? ==>
      var path := Resolve(setup, turn.step.settled.value.destination);
      A.View(files, path).Some? && Attested(setup, turn.target.value.detail, A.View(files, path).value)
  }

  lemma HoldIsAttested(setup: Setup, turns: seq<Turn>, files: Files)
    requires AllStillHold(setup, turns, files)
    ensures AllStillAttested(setup, turns, files)
  {
    hide Resolve, Attested, Fits, WantOf, A.View;
    forall turn | turn in turns ensures StillAttested(setup, turn, files) {
      assert StillHolds(setup, turn, files);
      if turn.step.settled.Some? && turn.step.settled.value.state == D.Done && turn.target.Some? {
        FitsIsAttested(setup, turn.target.value.detail, A.View(files, Resolve(setup, turn.step.settled.value.destination)).value);
      }
    }
  }

  /** A turn touches its own names only, and one that moved bytes into place used up those it worked under. */
  ghost predicate UsesUp(turn: Turn) {
    && (turn.target.Some? ==> A.SameBut(turn.before, turn.after, Family(turn.target.value.path)))
    && (Transferred(Some(turn.step)) && turn.target.Some? ==>
      && Landed(turn.before, turn.states, 0, turn.after, turn.target.value.path)
      && (turn.fetched ==> PartialPathFor(A.TempPathFor(turn.target.value.path)) !in turn.after))
  }

  /** What each turn says of the names it worked under, and of which states the card was in. */
  ghost predicate AllUseUp(turns: seq<Turn>, states: seq<Files>) {
    forall turn :: turn in turns ==> UsesUp(turn) && forall files :: files in turn.states ==> files in states
  }

  lemma SuffixesDiffer(a: Path, b: Path)
    ensures A.PreviousPathFor(a) !in Scratch(b) && (A.PreviousPathFor(a) == A.PreviousPathFor(b) ==> a == b)
  {
    var old_, temp, part := A.PreviousPathFor(a), A.TempPathFor(b), PartialPathFor(A.TempPathFor(b));
    assert old_[|old_| - 1] == 'd' && temp[|temp| - 1] == 'p' && part[|part| - 1] == 't';
    assert old_[..|old_| - 4] == a && A.PreviousPathFor(b)[..|b|] == b;
  }

  lemma ApartIsOnly(setup: Setup, turns: seq<Turn>, path: Path)
    requires Apart(setup) && AllOffered(setup, turns) && IsHome(setup, path)
    ensures OnlyDestination(turns, path)
  {
    hide IsHome, GoesTo, Scratch;
    forall turn | turn in turns && turn.target.Some? && turn.target.value.path != path
      ensures path !in Family(turn.target.value.path) && A.PreviousPathFor(path) !in Family(turn.target.value.path)
    {
      var other := turn.target.value.path;
      assert IsDestination(setup, other);
      assert !Collides(path, other);
      SuffixesDiffer(path, other);
    }
  }

  /** What another brought to where a rom may be passes that rom's check too. */
  lemma BroughtFits(setup: Setup, turns: seq<Turn>, detail: Detail, path: Path, bytes: Bytes)
    requires Apart(setup) && AllOffered(setup, turns) && setup.offers(detail) && Lies(setup, detail, path)
    requires BroughtBy(setup, turns, path, bytes)
    ensures Fits(setup, WantOf(setup, detail), bytes)
  {
    hide Lies, GoesTo, Collides, IsHome, IsDestination, WantOf;
    var turn :| turn in turns && turn.target.Some? && turn.target.value.path == path && Fits(setup, WantOf(setup, turn.target.value.detail), bytes);
    assert !Overwrites(setup, detail, turn.target.value.detail, path);
  }

  /** The condition can be checked before a drain: with it, no rom on offer is lost whatever the drain does. */
  lemma ApartKeepsHomes(setup: Setup, turns: seq<Turn>, before: Files, now: Files)
    requires Apart(setup) && AllOffered(setup, turns) && Delivered(setup, turns, before, now)
    ensures HomesKept(setup, before, now)
  {
    hide OnlyDestination, Lies, Apart, AllOffered, BroughtBy, A.View, WantOf, Fits;
    forall detail, path | setup.offers(detail) && Lies(setup, detail, path) ensures ReadsOwn(setup, detail, path, before, now) {
      ApartIsOnly(setup, turns, path);
      assert Reads(setup, turns, path, before, now);
      if A.View(now, path) != A.View(before, path) { BroughtFits(setup, turns, detail, path, A.View(now, path).value); }
    }
  }

  lemma ApartKeepsAllHomes(setup: Setup, turns: seq<Turn>, before: Files, states: seq<Files>, from: nat)
    requires Apart(setup) && AllOffered(setup, turns) && AllDelivered(setup, turns, before, states, from)
    ensures AllHomesKept(setup, before, states, from)
  {
    hide Delivered, HomesKept, Apart, AllOffered;
    forall i | from <= i < |states| ensures HomesKept(setup, before, states[i]) {
      ApartKeepsHomes(setup, turns, before, states[i]);
    }
  }

  // ----- Without it -----

  /** A rom whose file is at the name another's transfer stages its bytes under is lost to that transfer: a reader
      finds what lay at the name for its former record, if anything did. */
  lemma StagingLoses(setup: Setup, turn: Turn, path: Path)
    requires UsesUp(turn) && Transferred(Some(turn.step)) && turn.target.Some?
    requires path == A.TempPathFor(turn.target.value.path)
             || (turn.fetched && path == PartialPathFor(A.TempPathFor(turn.target.value.path)))
    ensures A.View(turn.after, path) == A.Lookup(turn.before, A.PreviousPathFor(path))
    ensures path in turn.before && A.PreviousPathFor(path) !in turn.before ==>
              forall detail :: !ReadsOwn(setup, detail, path, turn.before, turn.after)
  {
    var other := turn.target.value.path;
    assert |A.PreviousPathFor(path)| > |path| > |other|;
    assert A.PreviousPathFor(path) !in Scratch(other) by { SuffixesDiffer(path, other); }
    assert A.PreviousPathFor(path) != A.PreviousPathFor(other) by { SuffixesDiffer(path, other); }
    assert A.Lookup(turn.before, A.PreviousPathFor(path)) == A.Lookup(turn.after, A.PreviousPathFor(path));
  }

  /** One at the name for another's former record is taken for that record: in some state a reader finds it there. */
  lemma MovingAsideLoses(setup: Setup, turn: Turn, detail: Detail, path: Path)
    requires UsesUp(turn) && Transferred(Some(turn.step)) && turn.target.Some?
    requires path == A.PreviousPathFor(turn.target.value.path) && turn.target.value.path in turn.before
    requires A.View(turn.before, path) != Some(turn.before[turn.target.value.path])
    requires !Fits(setup, WantOf(setup, detail), turn.before[turn.target.value.path])
    ensures exists i :: 0 <= i < |turn.states| && !ReadsOwn(setup, detail, path, turn.before, turn.states[i])
  {
    hide Fits, WantOf;
    var i :| 0 <= i < |turn.states| && A.Lookup(turn.states[i], path) == Some(turn.before[turn.target.value.path]);
    assert !ReadsOwn(setup, detail, path, turn.before, turn.states[i]);
  }

  /** One whose name, with `.old` behind it, is another's destination is taken to be that other, once it is missing. */
  lemma FallingBackMisleads(setup: Setup, turn: Turn, detail: Detail, path: Path)
    requires TurnHolds(setup, turn) && Transferred(Some(turn.step))
    requires Resolve(setup, turn.step.settled.value.destination) == A.PreviousPathFor(path)
    requires A.View(turn.before, path) == None && path !in turn.after
    requires A.PreviousPathFor(path) in turn.after ==> !Fits(setup, WantOf(setup, detail), turn.after[A.PreviousPathFor(path)])
    ensures A.View(turn.after, path).Some? && !ReadsOwn(setup, detail, path, turn.before, turn.after)
  {
  }

  /** Two digests of a kind that differ are never both met. */
  ghost predicate Excludes(a: Want, b: Want) { (a.Sha1? && b.Sha1? && a != b) || (a.Md5? && b.Md5? && a != b) }

  /** A rom that may be where another goes, under another digest, is replaced by every turn that moves that other there. */
  lemma SharingLoses(setup: Setup, turn: Turn, detail: Detail, path: Path)
    requires TurnHolds(setup, turn) && Transferred(Some(turn.step)) && turn.target.Some?
    requires Resolve(setup, turn.step.settled.value.destination) == path
    requires Excludes(WantOf(setup, detail), WantOf(setup, turn.target.value.detail))
    requires A.View(turn.before, path).Some? ==> Fits(setup, WantOf(setup, detail), A.View(turn.before, path).value)
    ensures A.View(turn.after, path).Some? && !ReadsOwn(setup, detail, path, turn.before, turn.after)
  {
  }

  /** Two roms of one folder whose names differ by a suffix that a transfer puts on names. */
  lemma SuffixCollides(setup: Setup, x: Detail, y: Detail, suffix: string)
    requires setup.offers(x) && setup.offers(y) && x.slug == y.slug && GoesTo(setup, x).Some? && GoesTo(setup, y).Some?
    requires NameOnTheCard(setup, y).value == NameOnTheCard(setup, x).value + suffix
    requires FoldersFor(setup, x.slug, NameOnTheCard(setup, x).value)[0] == FoldersFor(setup, y.slug, NameOnTheCard(setup, y).value)[0]
    requires suffix in {".tmp", ".tmp.part", ".old"}
    ensures GoesTo(setup, y).value == GoesTo(setup, x).value + suffix && !Apart(setup)
  {
    hide NameOnTheCard;
    var a, b := GoesTo(setup, x).value, GoesTo(setup, y).value;
    var folder, leaf := FoldersFor(setup, x.slug, NameOnTheCard(setup, x).value)[0], NameOnTheCard(setup, x).value;
    assert Join(folder, leaf + suffix) == Join(folder, leaf) + suffix;
    assert setup.root + (Join(folder, leaf) + suffix) == setup.root + Join(folder, leaf) + suffix;
    assert a + ".tmp" + ".part" == a + ".tmp.part" by { assert ".tmp" + ".part" == ".tmp.part"; }
    assert Collides(b, a);
    DestinationIsHome(setup, x, a);
    DestinationIsHome(setup, y, b);
  }

  /** Two roms that are written to one place, under different digests. */
  lemma SharedDestinationIsNotApart(setup: Setup, x: Detail, y: Detail)
    requires setup.offers(x) && setup.offers(y) && GoesTo(setup, x).Some? && GoesTo(setup, x) == GoesTo(setup, y)
    requires Excludes(WantOf(setup, x), WantOf(setup, y))
    ensures !Apart(setup)
  {
    hide GoesTo, Lies;
    DestinationIsHome(setup, x, GoesTo(setup, x).value);
    assert Overwrites(setup, x, y, GoesTo(setup, x).value);
  }

  const GAME := Detail(1, "gb", "game", 4, "a", "", false, false, false, [])
  const GAME_TMP := Detail(2, "gb", "game.tmp", 4, "b", "", false, false, false, [])

  /** A library of these two, on a card with one folder. */
  function TwoGames(): Setup {
    Setup(true, true, true, 3, 3, 255, map["gb" := ["/roms/gb"]], "sd:", path => true, name => true,
          row => true, bytes => if bytes == "game" then "a" else "b", bytes => "", detail => detail == GAME || detail == GAME_TMP)
  }

  /** Both are valid names; the transfer of `game` works on `game.tmp`, and loses it once it was there and checked. */
  lemma GameLosesItsTemp(turn: Turn)
    requires UsesUp(turn) && Transferred(Some(turn.step)) && AllOffered(TwoGames(), [turn])
    requires turn.target.Some? && turn.target.value.detail == GAME
    requires turn.before == map["sd:/roms/gb/game.tmp" := "temp"]
    ensures !Apart(TwoGames()) && GoesTo(TwoGames(), GAME_TMP) == Some("sd:/roms/gb/game.tmp")
    ensures Fits(TwoGames(), WantOf(TwoGames(), GAME_TMP), turn.before["sd:/roms/gb/game.tmp"])
    ensures !ReadsOwn(TwoGames(), GAME_TMP, "sd:/roms/gb/game.tmp", turn.before, turn.after)
  {
    GamesGo();
    assert turn in [turn];
    assert turn.target.value.path == "sd:/roms/gb/game";
    assert A.TempPathFor("sd:/roms/gb/game") == "sd:/roms/gb/game.tmp" && A.PreviousPathFor("sd:/roms/gb/game.tmp") == "sd:/roms/gb/game.tmp.old";
    assert |"sd:/roms/gb/game.tmp.old"| > |"sd:/roms/gb/game.tmp"|;
    StagingLoses(TwoGames(), turn, "sd:/roms/gb/game.tmp");
    SuffixCollides(TwoGames(), GAME, GAME_TMP, ".tmp");
  }

  lemma GamesGo()
    ensures GoesTo(TwoGames(), GAME) == Some("sd:/roms/gb/game") && GoesTo(TwoGames(), GAME_TMP) == Some("sd:/roms/gb/game.tmp")
  {
    assert Join("/roms/gb", "game") == "/roms/gb/game" && Join("/roms/gb", "game.tmp") == "/roms/gb/game.tmp";
    assert "sd:" + "/roms/gb/game" == "sd:/roms/gb/game" && "sd:" + "/roms/gb/game.tmp" == "sd:/roms/gb/game.tmp";
  }

  const ARCADE := Detail(1, "arcade", "sf2.zip", 4, "a", "", false, false, false, [])
  const FBNEO := Detail(2, "fbneo", "sf2.zip", 4, "b", "", false, false, false, [])

  /** Two platforms that the built-in map sends to one folder, with a rom of the same name each. */
  function TwoPlatforms(): Setup {
    TwoGames().(folders := map["arcade" := ["/tico/roms/fbneo"], "fbneo" := ["/tico/roms/fbneo"]],
                offers := detail => detail == ARCADE || detail == FBNEO)
  }

  /** The transfer of the second replaces the first, which was there and checked, and is settled as done. */
  lemma FbneoReplacesArcade(turn: Turn)
    requires TurnHolds(TwoPlatforms(), turn) && Transferred(Some(turn.step)) && turn.target == Some(Target("sd:/tico/roms/fbneo/sf2.zip", FBNEO))
    requires Resolve(TwoPlatforms(), turn.step.settled.value.destination) == "sd:/tico/roms/fbneo/sf2.zip"
    requires turn.before == map["sd:/tico/roms/fbneo/sf2.zip" := "game"]
    ensures !Apart(TwoPlatforms()) && GoesTo(TwoPlatforms(), ARCADE) == GoesTo(TwoPlatforms(), FBNEO) == Some("sd:/tico/roms/fbneo/sf2.zip")
    ensures Fits(TwoPlatforms(), WantOf(TwoPlatforms(), ARCADE), "game")
    ensures !ReadsOwn(TwoPlatforms(), ARCADE, "sd:/tico/roms/fbneo/sf2.zip", turn.before, turn.after)
  {
    assert Join("/tico/roms/fbneo", "sf2.zip") == "/tico/roms/fbneo/sf2.zip" && "sd:" + "/tico/roms/fbneo/sf2.zip" == "sd:/tico/roms/fbneo/sf2.zip";
    assert LowerHex("a") == "a" && LowerHex("b") == "b" && "a"[0] != "b"[0];
    SharedDestinationIsNotApart(TwoPlatforms(), ARCADE, FBNEO);
    SharingLoses(TwoPlatforms(), turn, ARCADE, "sd:/tico/roms/fbneo/sf2.zip");
  }

  ghost predicate AllDelivered(setup: Setup, turns: seq<Turn>, before: Files, states: seq<Files>, from: nat) {
    forall i :: from <= i < |states| ==> Delivered(setup, turns, before, states[i])
  }

  lemma NothingDelivered(setup: Setup, files: Files, states: seq<Files>)
    ensures Delivered(setup, [], files, files) && AllDelivered(setup, [], files, states, |states|)
  {
  }

  lemma StillOnly(turns: seq<Turn>, turn: Turn, path: Path)
    requires OnlyDestination(turns + [turn], path)
    ensures OnlyDestination(turns, path)
  {
    assert forall t :: t in turns ==> t in turns + [turn];
  }

  lemma StillBrought(setup: Setup, turns: seq<Turn>, turn: Turn, path: Path, bytes: Bytes)
    requires BroughtBy(setup, turns, path, bytes)
    ensures BroughtBy(setup, turns + [turn], path, bytes)
  {
    assert forall t :: t in turns ==> t in turns + [turn];
  }

  lemma StillDelivered(setup: Setup, turns: seq<Turn>, turn: Turn, before: Files, now: Files)
    requires Delivered(setup, turns, before, now)
    ensures Delivered(setup, turns + [turn], before, now)
  {
    hide OnlyDestination, BroughtBy, A.View;
    forall path | OnlyDestination(turns + [turn], path)
      ensures Reads(setup, turns + [turn], path, before, now)
    {
      StillOnly(turns, turn, path);
      if A.View(now, path) != A.View(before, path) { StillBrought(setup, turns, turn, path, A.View(now, path).value); }
    }
  }

  lemma TurnDelivers(setup: Setup, turns: seq<Turn>, turn: Turn, before: Files, was: Files, now: Files)
    requires Delivered(setup, turns, before, was) && turn.target.Some?
    requires Kept(setup, WantOf(setup, turn.target.value.detail), turn.target.value.path, was, now)
    ensures Delivered(setup, turns + [turn], before, now)
  {
    hide Fits, WantOf, Family, Delivered;
    var target, more := turn.target.value, turns + [turn];
    StillDelivered(setup, turns, turn, before, was);
    forall path | OnlyDestination(more, path)
      ensures Reads(setup, more, path, before, now)
    {
      assert turn in more;
      DeliveredAt(setup, more, before, was, path);
      if target.path != path {
        assert A.Lookup(was, path) == A.Lookup(now, path);
        assert A.Lookup(was, A.PreviousPathFor(path)) == A.Lookup(now, A.PreviousPathFor(path));
      }
    }
    DeliveredEverywhere(setup, more, before, now);
  }

  lemma TurnDeliversAll(setup: Setup, turns: seq<Turn>, turn: Turn, first: Files, was: Files, now: Files,
                        states: seq<Files>, more: seq<Files>, from: nat)
    requires Delivered(setup, turns, first, was) && AllDelivered(setup, turns, first, states, from)
    requires states <= more && from <= |states|
    requires turn.target.None? ==> now == was && more == states
    requires turn.target.Some? ==>
               var want, path := WantOf(setup, turn.target.value.detail), turn.target.value.path;
               Kept(setup, want, path, was, now) && AllKept(setup, want, path, was, more, |states|)
    ensures Delivered(setup, turns + [turn], first, now) && AllDelivered(setup, turns + [turn], first, more, from)
  {
    hide Delivered, Kept, WantOf;
    forall i | from <= i < |more| ensures Delivered(setup, turns + [turn], first, more[i]) {
      if i < |states| {
        assert more[i] == states[i];
        StillDelivered(setup, turns, turn, first, more[i]);
      } else {
        TurnDelivers(setup, turns, turn, first, was, more[i]);
      }
    }
    if turn.target.None? {
      StillDelivered(setup, turns, turn, first, now);
    } else {
      TurnDelivers(setup, turns, turn, first, was, now);
    }
  }

  lemma StillOffered(setup: Setup, turns: seq<Turn>, turn: Turn)
    requires AllOffered(setup, turns)
    requires turn.target.Some? ==> setup.offers(turn.target.value.detail) && GoesTo(setup, turn.target.value.detail) == Some(turn.target.value.path)
    ensures AllOffered(setup, turns + [turn])
  {
  }

  lemma EarlierHolds(setup: Setup, turns: seq<Turn>, earlier: Turn, turn: Turn, was: Files)
    requires Apart(setup) && AllOffered(setup, turns + [turn]) && earlier in turns && TurnHolds(setup, earlier) && StillHolds(setup, earlier, was)
    requires turn.target.None? ==> turn.after == was
    requires turn.target.Some? ==> Kept(setup, WantOf(setup, turn.target.value.detail), turn.target.value.path, was, turn.after)
    ensures StillHolds(setup, earlier, turn.after)
  {
    hide Apart, Lies, GoesTo, WantOf, Fits, Family, Resolve;
    var more := turns + [turn];
    assert turn in more && earlier in more;
    if earlier.step.settled.Some? && earlier.step.settled.value.state == D.Done && earlier.target.Some? && turn.target.Some? {
      var path, detail := Resolve(setup, earlier.step.settled.value.destination), earlier.target.value.detail;
      ApartIsOnly(setup, more, path) by { assert IsHome(setup, path); }
      if turn.target.value.path == path {
        if A.View(turn.after, path) != A.View(was, path) {
          assert BroughtBy(setup, more, path, A.View(turn.after, path).value);
          BroughtFits(setup, more, detail, path, A.View(turn.after, path).value);
        }
      } else {
        assert A.Lookup(was, path) == A.Lookup(turn.after, path);
        assert A.Lookup(was, A.PreviousPathFor(path)) == A.Lookup(turn.after, A.PreviousPathFor(path));
      }
    }
  }

  lemma TurnStands(setup: Setup, turns: seq<Turn>, turn: Turn, was: Files)
    requires Apart(setup) && AllOffered(setup, turns + [turn]) && AllHold(setup, turns + [turn]) && AllStillHold(setup, turns, was)
    requires turn.target.None? ==> turn.after == was
    requires turn.target.Some? ==> Kept(setup, WantOf(setup, turn.target.value.detail), turn.target.value.path, was, turn.after)
    ensures AllStillHold(setup, turns + [turn], turn.after)
  {
    hide Apart, AllOffered, Kept, StillHolds, TurnHolds, WantOf;
    forall t | t in turns + [turn] ensures StillHolds(setup, t, turn.after) {
      assert TurnHolds(setup, t);
      if t in turns {
        EarlierHolds(setup, turns, t, turn, was);
      } else {
        JustArrived(setup, turn);
      }
    }
  }

  lemma JustArrived(setup: Setup, turn: Turn)
    requires TurnHolds(setup, turn)
    ensures StillHolds(setup, turn, turn.after)
  {
  }

  lemma AllUsedUp(turns: seq<Turn>, turn: Turn, states: seq<Files>, more: seq<Files>)
    requires AllUseUp(turns, states) && states <= more && UsesUp(turn) && turn.states == more[|states|..]
    ensures AllUseUp(turns + [turn], more)
  {
    hide UsesUp;
    assert forall files :: files in states ==> files in more;
    assert forall files :: files in more[|states|..] ==> files in more;
  }

  lemma LaterGrows(turns: seq<Turn>, turn: Turn)
    ensures Later(turns) <= Later(turns + [turn])
    ensures turn.step.outcome == Retryable ==> turn.romId in Later(turns + [turn])
  {
    assert forall t :: t in turns ==> t in turns + [turn];
    assert turn in turns + [turn];
  }

  lemma MoreRequests(turns: nat, each: nat)
    ensures (turns + 1) * each == turns * each + each
  {
  }

  /** What ends a drain's loop: the last turn went well, or its outcome is true of every row. */
  ghost predicate Stops(outcome: Outcome) { outcome !in {Idle, Disabled, Retryable} }

  function Conclusion(stopped: Outcome, deferred: seq<int>, worked: bool): Outcome {
    if stopped != Completed then stopped else if deferred != [] then Retryable else if worked then Completed else Idle
  }

  lemma Concludes(stopped: Outcome, waiting: set<int>, deferred: seq<int>, worked: bool, turns: seq<Turn>)
    requires Stops(stopped) && (stopped == Completed ==> waiting <= Members(deferred)) && Members(deferred) <= Later(turns)
    requires worked <==> turns != []
    ensures Concluded(Conclusion(stopped, deferred, worked), waiting, turns)
    ensures Conclusion(stopped, deferred, worked) != Disabled
  {
    if deferred != [] {
      assert deferred[0] in Members(deferred);
    }
  }

  /** How many rows wait for a turn in this drain. */
  ghost function ToDo(rows: seq<D.Row>, deferred: seq<int>): nat { |D.WaitingIds(rows) - Members(deferred)| }

  lemma Smaller(a: set<int>, b: set<int>)
    requires a <= b
    ensures |a| <= |b|
  {
    assert b == a + (b - a);
  }

  /** A turn that ends with the rom finished, or set aside, leaves fewer to give a turn to. */
  lemma Fewer(was: set<int>, meanwhile: set<int>, now: set<int>, aside: seq<int>, asideNow: seq<int>, romId: int)
    requires meanwhile <= was && now <= meanwhile + {romId} && romId in meanwhile && romId !in aside
    requires (asideNow == aside && romId !in now) || asideNow == aside + [romId]
    ensures |now - Members(asideNow)| < |was - Members(aside)|
  {
    Smaller(now - Members(asideNow), was - Members(aside) - {romId});
  }

  lemma DeliveredAt(setup: Setup, turns: seq<Turn>, before: Files, now: Files, path: Path)
    requires Delivered(setup, turns, before, now) && OnlyDestination(turns, path)
    ensures Reads(setup, turns, path, before, now)
  {
  }

  lemma DeliveredEverywhere(setup: Setup, turns: seq<Turn>, before: Files, now: Files)
    requires forall path :: OnlyDestination(turns, path) ==>
                              Reads(setup, turns, path, before, now)
    ensures Delivered(setup, turns, before, now)
  {
  }

  // ----- What a drain has come to, turn by turn -----

  /** What the turns so far say of the card. */
  ghost predicate Account(setup: Setup, turns: seq<Turn>, first: Files, from: nat, states: seq<Files>, now: Files) {
    && AllHold(setup, turns) && AllOffered(setup, turns) && AllUseUp(turns, states)
    && (Apart(setup) ==> AllStillHold(setup, turns, now))
    && Delivered(setup, turns, first, now) && AllDelivered(setup, turns, first, states, from)
  }

  /** What one turn has done, seen from the card as it found it. */
  ghost predicate Took(setup: Setup, turn: Turn, was: Files, states: seq<Files>, now: Files, more: seq<Files>) {
    && TurnHolds(setup, turn) && UsesUp(turn) && turn.after == now && states <= more && turn.states == more[|states|..]
    && (turn.target.None? ==> now == was && more == states)
    && (turn.target.Some? ==>
          var target := turn.target.value;
          && setup.offers(target.detail) && GoesTo(setup, target.detail) == Some(target.path)
          && Kept(setup, WantOf(setup, target.detail), target.path, was, now)
          && AllKept(setup, WantOf(setup, target.detail), target.path, was, more, |states|))
  }

  lemma Accounted(setup: Setup, turns: seq<Turn>, turn: Turn, first: Files, from: nat, was: Files, states: seq<Files>, now: Files, more: seq<Files>)
    requires Account(setup, turns, first, from, states, was) && Took(setup, turn, was, states, now, more) && from <= |states|
    ensures Account(setup, turns + [turn], first, from, more, now)
  {
    hide Delivered, AllDelivered, TurnHolds, Kept, AllKept, WantOf, GoesTo, UsesUp, Apart, StillHolds;
    StillOffered(setup, turns, turn);
    AllUsedUp(turns, turn, states, more);
    OneMoreHolds(setup, turns, turn);
    if Apart(setup) { TurnStands(setup, turns, turn, was); }
    TurnDeliversAll(setup, turns, turn, first, was, now, states, more, from);
  }

  lemma OneMoreHolds(setup: Setup, turns: seq<Turn>, turn: Turn)
    requires AllHold(setup, turns) && TurnHolds(setup, turn)
    ensures AllHold(setup, turns + [turn])
  {
    hide TurnHolds;
  }

  class Worker {
    const setup: Setup
    const queue: D.Queue
    const store: D.Store
    const card: A.Card
    /** Nothing outside gets in the way: nobody stops the drain, asks for a rom or takes one back, there is room on the
        card, and every request is answered, with what is served of the rom. */
    const calm: bool
    const served: int -> (Detail, Bytes)
    /** The drain is told to stop from the start. */
    const halted: bool
    var spent: nat
    var requests: nat
    var deferred: seq<int>
    var destination: Path
    var staging: Path
    var tally: Tally
    /** How many more roms will be asked for while this drain runs. */
    var arrivals: nat
    /** The card as the turn found it, all the states it had been in, and what the rom's bytes are held to. */
    ghost var before: Files
    ghost var past: seq<Files>
    ghost var want: Want
    /** The rom the turn is on. */
    ghost var rom: Detail
    /** How many transfers have been asked for. */
    ghost var fetches: nat

    constructor (setup: Setup, queue: D.Queue, store: D.Store, card: A.Card, arrivals: nat, calm: bool, halted: bool,
                 served: int -> (Detail, Bytes))
      ensures this.setup == setup && this.queue == queue && this.store == store && this.card == card
      ensures this.calm == calm && this.halted == halted && this.served == served
      ensures this.arrivals == arrivals && deferred == [] && requests == 0 && tally == NONE_COUNTED
    {
      this.setup, this.queue, this.store, this.card, this.calm, this.halted, this.served := setup, queue, store, card, calm, halted, served;
      spent, requests, deferred, destination, staging, tally := 0, 0, [], "", "", Tally(0, [], 0, 0);
      this.arrivals, before, past, want, fetches := arrivals, card.files, card.states, Nothing, 0;
      rom := Detail(0, "", "", 0, "", "", false, false, false, []);
    }

    /** And neither the card nor what is written down of the queue refuses anything. */
    ghost predicate Smooth() { calm && card.obliging && store.obliging }

    /** What is served of this rom can be put on the card, and is what the server recorded of it. */
    ghost predicate Promised(romId: int) {
      var (detail, body) := served(romId);
      && setup.offers(detail) && Placeable(setup, romId, detail) && GoesTo(setup, detail).Some?
      && Attested(setup, detail, body) && setup.sha1(body) != "" && setup.md5(body) != ""
    }

    ghost predicate Sound()
      reads queue, store
    {
      queue.Valid() && D.Mirrors(queue.entries, store.saved)
    }

    /** The turn is on a resolved destination, and has kept to what it may do. */
    ghost predicate OnTrack()
      reads this, card
    {
      && staging == A.TempPathFor(destination) && past <= card.states && Lies(setup, rom, destination)
      && Kept(setup, want, destination, before, card.files)
      && AllKept(setup, want, destination, before, card.states, |past|)
    }

    ghost predicate Arrived(row: D.Row)
      reads this, card
    {
      var path := Resolve(setup, row.destination);
      Lies(setup, rom, path) && path in card.files && Fits(setup, want, card.files[path])
    }

    /** The row's file is there, and what the server recorded of the rom vouches for its bytes. */
    ghost predicate Vouched(row: D.Row, detail: Detail)
      reads card
    {
      var path := Resolve(setup, row.destination);
      path in card.files && Attested(setup, detail, card.files[path])
    }

    lemma ArrivedIsVouched(row: D.Row, detail: Detail)
      requires want == WantOf(setup, detail) && Arrived(row)
      ensures Vouched(row, detail)
    {
      hide Lies, Resolve, Fits, WantOf, Attested;
      FitsIsAttested(setup, detail, card.files[Resolve(setup, row.destination)]);
    }

    lemma TransferredIsVouched(step: Step, romId: int, detail: Detail)
      requires want == WantOf(setup, detail) && Ended(step, romId)
      ensures step.settled.Some? && step.settled.value.state == D.Done ==> Vouched(step.settled.value, detail)
    {
      hide Vouched, Arrived, WantOf, D.WaitingIds;
      if step.settled.Some? && step.settled.value.state == D.Done { ArrivedIsVouched(step.settled.value, detail); }
    }

    /** What a turn that ends with `step` leaves of its rom. */
    ghost predicate Ended(step: Step, romId: int)
      reads this, queue, card
    {
      && (step.outcome == Completed ==> romId !in D.WaitingIds(queue.entries))
      && (step.settled.Some? ==> step.settled.value in queue.entries && step.settled.value.romId == romId
                                 && D.Terminal(step.settled.value.state)
                                 && (step.settled.value.state == D.Done ==> Arrived(step.settled.value)))
    }

    // ----- The other thread -----

    /** Whatever is asked for, or taken back, before the worker next takes the lock. */
    method Meanwhile()
      requires Sound()
      modifies queue, store, this`arrivals
      ensures Sound() && arrivals <= old(arrivals)
      ensures calm ==> queue.entries == old(queue.entries) && arrivals == old(arrivals)
      ensures arrivals == old(arrivals) ==> D.WaitingIds(queue.entries) <= old(D.WaitingIds(queue.entries))
    {
      hide D.WaitingIds, D.Mirrors;
      var steps: nat, asks: bool, romId: int := *, *, *;
      if calm {
        steps := 0;
      }
      while steps > 0
        invariant calm ==> steps == 0 && queue.entries == old(queue.entries) && arrivals == old(arrivals)
        invariant Sound() && arrivals <= old(arrivals)
        invariant arrivals == old(arrivals) ==> D.WaitingIds(queue.entries) <= old(D.WaitingIds(queue.entries))
      {
        asks, romId := *, *;
        if asks && arrivals > 0 {
          D.Serve(queue, store, D.Enqueue(romId, steps));
          arrivals := arrivals - 1;
        } else {
          D.Serve(queue, store, D.Remove(romId));
        }
        steps := steps - 1;
      }
    }

    /** The row is there to be written, and nothing gets in the way. */
    ghost predicate Held(romId: int)
      reads queue
    {
      Smooth() && D.Held(queue.entries, romId)
    }

    lemma PromisedGoes(romId: int)
      requires Promised(romId)
      ensures GoesTo(setup, served(romId).0).Some?
    {
    }

    lemma IsCalm(romId: int)
      ensures Held(romId) ==> calm
    {
    }

    lemma HeldIs(romId: int)
      ensures Held(romId) ==> card.obliging
    {
    }

    lemma WrittenIsHeld(row: D.Row)
      requires Smooth() && row in queue.entries
      ensures Held(row.romId)
    {
    }

    /** Write a row down, and learn whether it was still there to write. */
    method Persist(row: D.Row) returns (written: D.Committed)
      requires Sound()
      modifies queue, store, this`arrivals
      ensures Sound()
      ensures Since(old(D.WaitingIds(queue.entries)), old(arrivals), D.WaitingIds(queue.entries), arrivals, row.romId)
      ensures written == D.Gone || (written == D.Written && D.Terminal(row.state)) ==> row.romId !in D.WaitingIds(queue.entries)
      ensures written == D.Written ==> row in queue.entries
      ensures old(Held(row.romId)) ==> written == D.Written && Held(row.romId)
    {
      Meanwhile();
      hide D.Mirrors, D.Distinct, D.Moving, D.WaitingIds, D.Held, D.WrittenOver;
      ghost var was := queue.entries;
      written := queue.UpdateAndStore(row, store);
      if written == D.Written {
        D.WritingOverKeepsOthers(was, queue.entries, row);
        D.MirrorsItself(queue.entries);
        WrittenIsThere(was, queue.entries, row);
        if Smooth() { WrittenIsHeld(row); }
      } else if written == D.Gone {
        GoneDoesNotWait(queue.entries, row.romId);
      }
    }

    method Settle(row: D.Row, state: D.State, message: string) returns (step: Step)
      requires Sound() && D.Terminal(state) && (state == D.Done ==> Arrived(row))
      modifies queue, store, this`arrivals, this`tally
      ensures Sound() && Ended(step, row.romId) && step.outcome in {Completed, StoreFailed}
      ensures Since(old(D.WaitingIds(queue.entries)), old(arrivals), D.WaitingIds(queue.entries), arrivals, row.romId)
      ensures tally == if step.settled.Some? then Counted(old(tally), step.settled.value) else old(tally)
      ensures old(Held(row.romId)) ==> step.settled.Some? && step.outcome == Completed
      ensures step.settled.Some? ==> step.settled.value == row.(state := state, message := message)
    {
      hide D.Mirrors, D.WaitingIds, Since, Fits, Counted, Held;
      var last := row.(state := state, message := message);
      var written := Persist(last);
      match written
      case Gone => step := Step(Completed, None);
      case StoreFailed => step := Step(StoreFailed, None);
      case Written =>
        step := Step(Completed, Some(last));
        tally := Counted(tally, last);
    }

    /** How long a file is: nothing when it is missing or will not open. */
    method SizeOf(path: Path) returns (size: nat)
      ensures size == 0 || (path in card.files && size == |card.files[path]|)
      ensures card.obliging ==> size == SizeIn(card.files, path)
    {
      size := 0;
      if path in card.files {
        var readable := card.Opens(path);
        size := if readable then |card.files[path]| else 0;
      }
    }

    /** The row goes back to waiting. */
    method Requeue(row: D.Row, message: string, outcome: Outcome) returns (step: Step)
      requires Sound() && outcome != Completed
      modifies queue, store, this`arrivals
      ensures Sound() && Ended(step, row.romId) && step.settled.None? && step.outcome in {Completed, StoreFailed, outcome}
      ensures step.outcome == outcome != StoreFailed ==> Waits(queue.entries, row.romId, message) || (row.romId !in D.WaitingIds(queue.entries) && outcome != Retryable)
      ensures outcome != Retryable ==> step.outcome in {StoreFailed, outcome}
      ensures Since(old(D.WaitingIds(queue.entries)), old(arrivals), D.WaitingIds(queue.entries), arrivals, row.romId)
    {
      hide D.Mirrors, D.WaitingIds, Since;
      var waiting := row.(state := D.Queued, message := message);
      if staging != "" {
        var partial := SizeOf(PartialPathFor(staging));
        waiting := waiting.(bytesDone := if setup.resume then partial else 0);
      }
      var written := Persist(waiting);
      if written == D.StoreFailed {
        step := Step(StoreFailed, None);
      } else if written == D.Gone && outcome == Retryable {
        step := Step(Completed, None);
      } else {
        step := Step(outcome, None);
      }
    }

    // ----- The card -----

    /** Remove one of the transfer's own files, if it is there and the card lets it go. */
    method Scrub(path: Path)
      requires OnTrack() && (path == staging || path == PartialPathFor(staging))
      modifies card`files, card`states
      ensures OnTrack() && A.SameBut(old(card.files), card.files, Scratch(destination))
      ensures card.obliging ==> path !in card.files
      ensures card.files.Keys <= old(card.files).Keys && old(card.states) <= card.states
    {
      hide AllKept, Kept, Scratch, Lies;
      ghost var was, states := card.files, card.states;
      OwnNames(destination);
      var gone := card.Remove(path);
      RemovedIsScratch(was, card.files, path, destination);
      ScratchKeeps(setup, want, destination, before, was, card.files);
      OneMoreKept(setup, want, destination, before, states, card.files, |past|);
    }

    method ScrubBoth()
      requires OnTrack()
      modifies card`files, card`states
      ensures OnTrack() && A.SameBut(old(card.files), card.files, Scratch(destination))
      ensures card.files.Keys <= old(card.files).Keys && old(card.states) <= card.states
    {
      hide AllKept, Kept, Lies;
      Scrub(staging);
      Scrub(PartialPathFor(staging));
    }

    /** Hash a file and compare it with what the server recorded. */
    method Check(path: Path, want: Want) returns (checked: Checked)
      ensures checked == NotChecked <==> want == Nothing
      ensures card.obliging && path in card.files && Fits(setup, want, card.files[path]) && DigestOf(setup, want, card.files[path]) != ""
              ==> checked != Mismatched
      ensures checked == Verified ==> path in card.files && Fits(setup, want, card.files[path])
    {
      if want == Nothing {
        return NotChecked;
      }
      var digest := "";
      if path in card.files {
        var readable := card.Opens(path);
        if readable {
          digest := DigestOf(setup, want, card.files[path]);
        }
      }
      checked := if digest == "" || digest != want.hex then Mismatched else Verified;
    }

    /** What the client may do with the two files it is given, while the other thread goes on: a body that is
        complete has been moved from the one to the other. */
    method Download(romId: int) returns (reply: Reply)
      requires Sound() && OnTrack()
      modifies queue, store, this`arrivals, this`fetches, card`files, card`states
      ensures Sound() && OnTrack() && fetches == old(fetches) + 1
      ensures Since(old(D.WaitingIds(queue.entries)), old(arrivals), D.WaitingIds(queue.entries), arrivals, romId)
      ensures A.SameBut(old(card.files), card.files, Scratch(destination)) && old(card.states) <= card.states
      ensures Judge(reply) == Fine ==> PartialPathFor(staging) !in card.files && staging in card.files
      ensures old(Held(romId)) && staging !in old(card.files) ==>
                Held(romId) && Judge(reply) == Fine && A.Lookup(card.files, staging) == Some(served(romId).1)
    {
      hide D.Mirrors, D.WaitingIds, AllKept, Kept, Scratch, Lies;
      var steps: nat, what: nat := *, *;
      var partial := PartialPathFor(staging);
      fetches := fetches + 1;
      if calm {
        steps := 0;
      }
      while steps > 0
        invariant calm ==> steps == 0 && card.files == old(card.files) && queue.entries == old(queue.entries)
        invariant Sound() && OnTrack() && fetches == old(fetches) + 1
        invariant A.SameBut(old(card.files), card.files, Scratch(destination)) && old(card.states) <= card.states
        invariant Since(old(D.WaitingIds(queue.entries)), old(arrivals), D.WaitingIds(queue.entries), arrivals, romId)
      {
        what, steps := *, steps - 1;
        ghost var was, states := card.files, card.states;
        if what < 3 {
          var ok := DownloadStep(partial, what);
          DownloadIsScratch(was, card.files, destination);
          StepKeeps(setup, want, destination, before, was, states, card.files, |past|);
          ScratchAgain(old(card.files), was, card.files, destination);
        } else if what == 3 {
          var done: nat, rate: nat := *, *;
          D.Serve(queue, store, D.Progress(romId, done, rate));
        } else {
          Meanwhile();
        }
      }
      reply := *;
      if calm {
        ghost var then_ := card.files;
        reply := DownloadWhole(partial, served(romId).1);
        ScratchAgain(old(card.files), then_, card.files, destination);
      }
      if Judge(reply) == Fine {
        ghost var was, states := card.files, card.states;
        ScratchIsApart(destination);
        var moved := DownloadStep(partial, 2);
        DownloadIsScratch(was, card.files, destination);
        StepKeeps(setup, want, destination, before, was, states, card.files, |past|);
        ScratchAgain(old(card.files), was, card.files, destination);
        if !moved {
          reply := Failed(WriteFailed);
        }
      }
    }

    /** The whole body to the partial file. */
    method DownloadWhole(partial: Path, body: Bytes) returns (reply: Reply)
      requires OnTrack() && partial == PartialPathFor(staging)
      modifies card`files, card`states
      ensures OnTrack() && A.SameBut(old(card.files), card.files, Scratch(destination)) && old(card.states) <= card.states
      ensures card.obliging ==>
                Judge(reply) == Fine && card.files == old(card.files)[partial := body]
    {
      hide AllKept, Kept, Scratch, Lies;
      ghost var was, states := card.files, card.states;
      var ok := card.Create(partial);
      DownloadIsScratch(was, card.files, destination);
      StepKeeps(setup, want, destination, before, was, states, card.files, |past|);
      if !ok {
        return Failed(WriteFailed);
      }
      ghost var then_, since := card.files, card.states;
      ok := card.Append(partial, body);
      DownloadIsScratch(then_, card.files, destination);
      StepKeeps(setup, want, destination, before, then_, since, card.files, |past|);
      ScratchAgain(was, then_, card.files, destination);
      assert "" + body == body;
      reply := if ok then Answered(200, None) else Failed(WriteFailed);
    }

    /** Open the partial file, add to it, or rename it to the staged name. */
    method DownloadStep(partial: Path, what: nat) returns (ok: bool)
      requires partial == PartialPathFor(staging) && what < 3
      modifies card`files, card`states
      ensures card.states == old(card.states) + [card.files]
      ensures A.SameBut(old(card.files), card.files, {staging, partial})
      ensures what == 2 && ok ==> A.Lookup(card.files, staging) == A.Lookup(old(card.files), partial)
      ensures what == 2 && card.obliging && partial in old(card.files) && staging !in old(card.files) ==> ok
      ensures what == 2 && ok ==> staging != partial && partial !in card.files && staging in card.files
    {
      if what == 0 || (what == 1 && partial !in card.files) {
        ok := card.Create(partial);
      } else if what == 1 {
        var piece: Bytes := *;
        ok := card.Append(partial, piece);
      } else {
        ok := card.Rename(partial, staging);
      }
    }

    /** Move the checked file over the destination. */
    method Commit() returns (ok: bool)
      requires OnTrack() && (staging in card.files ==> Fits(setup, want, card.files[staging]))
      modifies card`files, card`states
      ensures OnTrack() && (ok ==> destination in card.files && Fits(setup, want, card.files[destination]))
      ensures card.obliging && staging in old(card.files) ==> ok
      ensures ok ==> Landed(old(card.files), card.states, |old(card.states)|, card.files, destination)
      ensures PartialPathFor(staging) !in old(card.files) ==> PartialPathFor(staging) !in card.files
      ensures old(card.states) <= card.states
    {
      hide AllKept, Kept, Fits, A.AllSafe, A.View, A.SetAside, Lies;
      PartIsApart(destination);
      ghost var was, states := card.files, card.states;
      ScratchIsApart(destination);
      var durable;
      ghost var stuck;
      ok, durable, stuck := A.CommitStaged(card, staging, destination);
      assert A.Lookup(was, PartialPathFor(staging)) == A.Lookup(card.files, PartialPathFor(staging));
      assert card.states[..|states|] == states;
      CommitKeepsAll(setup, want, destination, before, was, card.states, |past|, |states|);
      CommitKeeps(setup, want, destination, before, was, card.files);
    }

    /** The bytes are the rom's, and its digest is not empty. */
    ghost predicate Good(detail: Detail, bytes: Bytes) {
      Attested(setup, detail, bytes) && setup.sha1(bytes) != "" && setup.md5(bytes) != ""
    }

    lemma GoodFits(detail: Detail, bytes: Bytes)
      requires Good(detail, bytes)
      ensures Fits(setup, WantOf(setup, detail), bytes) && DigestOf(setup, WantOf(setup, detail), bytes) != ""
    {
      hide Attested, WantOf, Fits;
      FitsIsAttested(setup, detail, bytes);
    }

    /** A complete body is staged and nothing has looked at it: only what passes is moved into place.
        No step is left when bytes this turn did not fetch failed, and have been thrown away. */
    method Verify(row: D.Row, detail: Detail, inherited: bool) returns (step: Option<Step>, left: D.Row)
      requires Sound() && OnTrack() && want == WantOf(setup, detail) && Resolve(setup, row.destination) == destination
      modifies queue, store, this`arrivals, this`tally, card`files, card`states
      ensures tally == Tallied(old(tally), step)
      ensures Sound() && OnTrack() && (step.Some? ==> Ended(step.value, row.romId))
      ensures step.None? ==> inherited && left == row.(state := D.Verifying, bytesDone := 0, message := "")
      ensures Inspected(step, row, detail, old(card.files), |old(card.states)|) && old(card.states) <= card.states
      ensures old(Held(row.romId)) && staging in old(card.files) && Good(detail, old(card.files)[staging]) ==> step.Some?
      ensures old(Held(row.romId)) && staging in old(card.files) && (inherited || Good(detail, old(card.files)[staging])) ==>
                if step.Some? then Brought(step.value) else Held(row.romId)
      ensures Since(old(D.WaitingIds(queue.entries)), old(arrivals), D.WaitingIds(queue.entries), arrivals, row.romId)
    {
      hide D.Mirrors, D.WaitingIds, AllKept, Kept, Fits, Counted, WantOf, Landed, Lies, Scratch, Since, Vouched, Attested, Held, Good, Brought;
      ghost var waited, expected := D.WaitingIds(queue.entries), arrivals;
      var size := SizeOf(staging);
      left := row.(state := D.Verifying, bytesDone := size, message := "");
      var written := Persist(left);
      ghost var waits, expects := D.WaitingIds(queue.entries), arrivals;
      if written != D.Written {
        Scrub(staging);
        return Some(Step(if written == D.Gone then Completed else StoreFailed, None)), left;
      }
      step, left := Inspect(left, detail, inherited);
      SinceAgain(waited, expected, waits, expects, D.WaitingIds(queue.entries), arrivals, row.romId);
    }

    /** What checking the staged body comes to: the rest of the turn, or nothing but the loss of what was staged. */
    ghost predicate Inspected(step: Option<Step>, row: D.Row, detail: Detail, was: Files, from: nat)
      reads this, card
    {
      && (step.Some? ==> step.value.outcome in {Completed, StoreFailed})
      && (Transferred(step) || (step.Some? && step.value.settled.Some?) ==> step.value.settled.value.state in {D.Done, D.Failed})
      && (step.None? ==> A.SameBut(was, card.files, Scratch(destination)))
      && (Transferred(step) ==>
            && Landed(was, card.states, from, card.files, destination)
            && (PartialPathFor(staging) !in was ==> PartialPathFor(staging) !in card.files)
            && step.value.settled.value.destination == row.destination && Vouched(step.value.settled.value, detail))
    }

    method Inspect(row: D.Row, detail: Detail, inherited: bool) returns (step: Option<Step>, left: D.Row)
      requires Sound() && OnTrack() && want == WantOf(setup, detail) && Resolve(setup, row.destination) == destination
      modifies queue, store, this`arrivals, this`tally, card`files, card`states
      ensures tally == Tallied(old(tally), step)
      ensures Sound() && OnTrack() && (step.Some? ==> Ended(step.value, row.romId))
      ensures step.None? ==> inherited && left == row.(bytesDone := 0) && queue.entries == old(queue.entries)
      ensures Inspected(step, row, detail, old(card.files), |old(card.states)|) && old(card.states) <= card.states
      ensures old(Held(row.romId)) && staging in old(card.files) && Good(detail, old(card.files)[staging]) ==> step.Some?
      ensures old(Held(row.romId)) && staging in old(card.files) && (inherited || Good(detail, old(card.files)[staging])) ==>
                if step.Some? then Brought(step.value) else Held(row.romId)
      ensures Since(old(D.WaitingIds(queue.entries)), old(arrivals), D.WaitingIds(queue.entries), arrivals, row.romId)
    {
      hide D.Mirrors, D.WaitingIds, AllKept, Kept, Fits, Counted, WantOf, Landed, Lies, Scratch, Since, Vouched, Attested, Held, Good, DigestOf, Brought;
      HeldIs(row.romId);
      if staging in card.files && Good(detail, card.files[staging]) { GoodFits(detail, card.files[staging]); }
      left := row;
      var checked := Check(staging, WantOf(setup, detail));
      if checked == Mismatched {
        ScrubBoth();
        left := left.(bytesDone := 0);
        if inherited {
          NothingNew(row.romId);
          return None, left;
        }
        var failed := Settle(left, D.Failed, "the bytes are not this rom's");
        return Some(failed), left;
      }
      AnythingFitsNothing(setup, want);
      var ended := MoveIntoPlace(left);
      TransferredIsVouched(ended, row.romId, detail);
      step := Some(ended);
    }

    lemma NothingNew(romId: int)
      ensures Since(D.WaitingIds(queue.entries), arrivals, D.WaitingIds(queue.entries), arrivals, romId)
    {
      hide D.WaitingIds;
    }

    /** The checked bytes over the destination, and the row settled. */
    method MoveIntoPlace(left: D.Row) returns (step: Step)
      requires Sound() && OnTrack() && Resolve(setup, left.destination) == destination
      requires staging in card.files ==> Fits(setup, want, card.files[staging])
      modifies queue, store, this`arrivals, this`tally, card`files, card`states
      ensures tally == Tallied(old(tally), Some(step))
      ensures Sound() && OnTrack() && Ended(step, left.romId) && step.outcome in {Completed, StoreFailed}
      ensures step.settled.Some? ==> step.settled.value.state in {D.Done, D.Failed} && step.settled.value.destination == left.destination
      ensures Transferred(Some(step)) ==> Landed(old(card.files), card.states, |old(card.states)|, card.files, destination)
      ensures Transferred(Some(step)) && PartialPathFor(staging) !in old(card.files) ==> PartialPathFor(staging) !in card.files
      ensures old(card.states) <= card.states
      ensures old(Held(left.romId)) && staging in old(card.files) ==> Brought(step)
      ensures Since(old(D.WaitingIds(queue.entries)), old(arrivals), D.WaitingIds(queue.entries), arrivals, left.romId)
    {
      hide D.Mirrors, D.WaitingIds, AllKept, Kept, Fits, Counted, Landed, Lies, Scratch, Since, Held;
      HeldIs(left.romId);
      var committed := Commit();
      if !committed {
        Scrub(PartialPathFor(staging));
        step := Settle(left.(bytesDone := 0), D.Failed, "the rom could not be moved into place");
        return;
      }
      var size := SizeOf(destination);
      step := Settle(left.(bytesDone := size), D.Done, "");
    }

    /** There is a file where the rom may be, as long as the rom is. */
    ghost predicate HereAlready(copy: Path, detail: Detail, leaf: string)
      reads card
    {
      exists next: nat :: LiesAt(setup, detail, leaf, next, Resolve(setup, copy)) && HasSize(card.files, Resolve(setup, copy), detail.sizeBytes)
    }

    /** The rom's own bytes are there, in that folder of its platform. */
    ghost predicate CopyAt(detail: Detail, leaf: string, next: nat)
      requires next < |FoldersFor(setup, detail.slug, leaf)|
      reads card
    {
      var name := Join(FoldersFor(setup, detail.slug, leaf)[next], leaf);
      var path := Resolve(setup, name);
      |name| <= setup.maxPath && path != "" && HasSize(card.files, path, detail.sizeBytes) && Good(detail, card.files[path])
    }

    /** The rom may be in any of the folders its platform maps: only a digest can say so. */
    method FindCopy(detail: Detail, leaf: string) returns (found: Option<Path>)
      requires WantOf(setup, detail) != Nothing && detail.sizeBytes > 0 && setup.offers(detail) && NameOnTheCard(setup, detail) == Some(leaf)
      ensures card.obliging && found.None? ==> forall next :: 0 <= next < |FoldersFor(setup, detail.slug, leaf)| ==> !CopyAt(detail, leaf, next)
      ensures found.Some? ==> Lies(setup, detail, Resolve(setup, found.value)) && HereAlready(found.value, detail, leaf)
      ensures found.Some? ==> exists directory :: found.value == Join(directory, leaf)
      ensures found.Some? ==> '/' !in leaf && Resolve(setup, found.value) == setup.root + found.value
                              && Resolve(setup, found.value) in card.files
                              && Fits(setup, WantOf(setup, detail), card.files[Resolve(setup, found.value)])
    {
      hide Fits, Join, WantOf, NameOnTheCard, Good, DigestOf;
      var folders := FoldersFor(setup, detail.slug, leaf);
      for next := 0 to |folders|
        invariant card.obliging ==> forall k :: 0 <= k < next ==> !CopyAt(detail, leaf, k)
      {
        var candidate := Join(folders[next], leaf);
        var path := Resolve(setup, candidate);
        var size := SizeOf(path);
        if CopyAt(detail, leaf, next) { GoodFits(detail, card.files[path]); }
        if |candidate| <= setup.maxPath && path != "" && size == detail.sizeBytes > 0 {
          var checked := Check(path, WantOf(setup, detail));
          if checked == Verified {
            assert LiesAt(setup, detail, leaf, next, path);
            return Some(candidate);
          }
        }
      }
      found := None;
    }

    method AlreadyOnTheCard(row: D.Row, detail: Detail, leaf: string) returns (step: Option<Step>)
      requires Sound() && OnTrack() && want == WantOf(setup, detail) && rom == detail
      requires setup.offers(detail) && NameOnTheCard(setup, detail) == Some(leaf)
      requires exists directory :: destination == setup.root + Join(directory, leaf)
      modifies queue, store, this`arrivals, this`tally, card`files, card`states
      ensures tally == Tallied(old(tally), step)
      ensures Sound() && OnTrack() && (step.Some? ==> Ended(step.value, row.romId))
      ensures step.Some? ==> step.value.outcome in {Completed, StoreFailed}
      ensures !Transferred(step) && (step.None? ==> card.files == old(card.files)) && old(card.states) <= card.states
      ensures step.Some? && step.value.settled.Some? ==>
                step.value.settled.value.bytesDone == detail.sizeBytes && HereAlready(step.value.settled.value.destination, detail, leaf)
      ensures step.Some? ==> setup.verifyHash && (detail.sha1 != "" || detail.md5 != "")
      ensures step.Some? && step.value.settled.Some? ==> step.value.settled.value.state == D.Done && Vouched(step.value.settled.value, detail)
      ensures old(Held(row.romId)) ==> if step.Some? then Brought(step.value) else Held(row.romId)
      ensures card.obliging && step.None? && setup.verifyHash && (detail.sha1 != "" || detail.md5 != "") && detail.sizeBytes > 0 ==>
                forall next :: 0 <= next < |FoldersFor(setup, detail.slug, leaf)| ==> !CopyAt(detail, leaf, next)
      ensures Since(old(D.WaitingIds(queue.entries)), old(arrivals), D.WaitingIds(queue.entries), arrivals, row.romId)
    {
      hide D.Mirrors, D.WaitingIds, AllKept, Kept, Scratch, Fits, Counted, Join, WantOf, Resolve, Lies, NameOnTheCard, Vouched, Attested, Held, CopyAt;
      FitsIsAttested(setup, detail, []);
      step := None;
      if WantOf(setup, detail) == Nothing || detail.sizeBytes <= 0 {
        return;
      }
      var found := FindCopy(detail, leaf);
      if found.Some? {
        CandidateIsApart(setup, destination, found.value, leaf);
        ghost var was := card.files;
        ScrubBoth();
        StillThere(was, card.files, Resolve(setup, found.value), Scratch(destination));
        assert HereAlready(found.value, detail, leaf);
        var settled := Settle(row.(destination := found.value, bytesDone := detail.sizeBytes), D.Done, ALREADY_HERE);
        TransferredIsVouched(settled, row.romId, detail);
        FitsIsAttested(setup, detail, []);
        step := Some(settled);
      }
    }

    /** Refuse, before the first byte moves, what the card cannot hold: `largest` is the most one file may be, and
        0 if it has no limit; `free` is what is left, and negative if the card cannot say. */
    method RoomOnTheCard(row: D.Row, largest: nat, free: int) returns (step: Option<Step>)
      requires Sound() && OnTrack()
      modifies queue, store, this`arrivals, this`tally, card`files, card`states
      ensures tally == Tallied(old(tally), step)
      ensures Sound() && OnTrack() && (step.Some? ==> Ended(step.value, row.romId))
      ensures step.Some? ==> step.value.outcome in {Completed, StoreFailed}
      ensures !Transferred(step) && (step.None? ==> card.files == old(card.files)) && old(card.states) <= card.states
      ensures step.Some? ==> row.sizeBytes > 0 && ((largest != 0 && row.sizeBytes > largest) || 0 <= free < row.sizeBytes)
      ensures step.Some? && step.value.settled.Some? ==> step.value.settled.value.state == D.Failed && step.value.settled.value.bytesDone == 0
      ensures step.None? && row.sizeBytes > 0 ==>
                && (largest == 0 || row.sizeBytes <= largest)
                && (free < 0 || row.sizeBytes <= free + SizeIn(card.files, staging) + SizeIn(card.files, PartialPathFor(staging)))
      ensures old(Held(row.romId)) && step.None? ==> Held(row.romId)
      ensures Since(old(D.WaitingIds(queue.entries)), old(arrivals), D.WaitingIds(queue.entries), arrivals, row.romId)
    {
      hide D.Mirrors, D.WaitingIds, AllKept, Kept, Scratch, Fits, Counted, Lies;
      step := None;
      if row.sizeBytes <= 0 {
        return;
      }
      var refused := largest != 0 && row.sizeBytes > largest;
      if !refused && free >= 0 {
        var staged := SizeOf(staging);
        var partial := SizeOf(PartialPathFor(staging));
        refused := row.sizeBytes > free + staged + partial;
      }
      if refused {
        ScrubBoth();
        var failed := Settle(row.(bytesDone := 0), D.Failed, "the card cannot hold this rom");
        step := Some(failed);
      }
    }

    // ----- The server -----

    method Canceled() returns (yes: bool)
      ensures calm ==> !yes
      ensures halted && !calm ==> yes
    {
      yes := *;
      yes := (yes || halted) && !calm;
    }

    /** One more request of the row's, and whether it may make another. */
    method Spend() returns (more: bool)
      modifies this`spent, this`requests
      ensures spent == old(spent) + 1 && requests == old(requests) + 1 && more == (spent < Budget(setup))
    {
      spent, requests := spent + 1, requests + 1;
      more := spent < Budget(setup);
    }

    function CountAttempt(row: D.Row): D.Row {
      if row.attempts < setup.maxRecorded then row.(attempts := row.attempts + 1) else row
    }

    /** How many attempts are on record after some more: no more than may be, unless they were. */
    ghost function Recorded(attempts: nat, more: nat): nat {
      if attempts >= setup.maxRecorded then attempts else if attempts + more <= setup.maxRecorded then attempts + more else setup.maxRecorded
    }

    method FetchDetail(row: D.Row) returns (verdict: Verdict, detail: Detail, counted: D.Row, ghost heard: seq<Verdict>)
      requires spent == 0
      modifies this`spent, this`requests
      ensures 1 <= spent <= Budget(setup) && requests == old(requests) + spent
      ensures counted == row.(attempts := counted.attempts)
      ensures verdict == Fine ==> setup.offers(detail)
      ensures |heard| == spent && (forall i :: 0 <= i < spent - 1 ==> heard[i] == Retry)
      ensures verdict == Stopped || verdict == heard[spent - 1] || (verdict == Fatal && heard[spent - 1] == Fine)
      ensures verdict == Retry ==> spent == Budget(setup)
      ensures halted && !calm ==> spent == 1 && verdict in {Fine, Stopped}
      ensures counted.attempts == Recorded(row.attempts, spent - if verdict == Fine || heard[spent - 1] == Stopped then 1 else 0)
      ensures calm && setup.offers(served(row.romId).0) ==> verdict == Fine && detail == served(row.romId).0
    {
      counted, detail, heard := row, Detail(0, "", "", 0, "", "", false, false, false, []), [];
      while true
        invariant spent < Budget(setup) && requests == old(requests) + spent
        invariant counted == row.(attempts := counted.attempts) && counted.attempts == Recorded(row.attempts, spent)
        invariant halted && !calm ==> spent == 0
        invariant |heard| == spent && forall i :: 0 <= i < spent ==> heard[i] == Retry
        decreases Budget(setup) - spent
      {
        var reply: Reply := *;
        if calm {
          reply := Answered(200, Some(served(row.romId).0));
        }
        var more := Spend();
        verdict := Judge(reply);
        heard := heard + [verdict];
        if verdict == Fine {
          if reply.detail.Some? && setup.offers(reply.detail.value) {
            detail := reply.detail.value;
            return;
          }
          verdict := Fatal;
        }
        if verdict != Stopped {
          counted := CountAttempt(counted);
        }
        var stop := Canceled();
        if stop {
          verdict := Stopped;
          return;
        }
        if verdict != Retry || !more {
          return;
        }
      }
    }

    /** What an earlier drain staged is used if it passes the check, and removed if not. */
    method Salvage(row: D.Row, detail: Detail) returns (step: Option<Step>, left: D.Row)
      requires Sound() && OnTrack() && want == WantOf(setup, detail) && Resolve(setup, row.destination) == destination
      modifies queue, store, this`arrivals, this`tally, card`files, card`states
      ensures tally == Tallied(old(tally), step)
      ensures Sound() && OnTrack() && (step.Some? ==> Ended(step.value, row.romId))
      ensures step.Some? ==> step.value.outcome in {Completed, StoreFailed}
      ensures left.romId == row.romId && left.destination == row.destination && left.sizeBytes == row.sizeBytes
      ensures step.None? ==> A.SameBut(old(card.files), card.files, Scratch(destination))
      ensures Transferred(step) ==> Landed(old(card.files), card.states, |old(card.states)|, card.files, destination)
      ensures old(card.states) <= card.states
      ensures old(Held(row.romId)) ==> if step.Some? then Brought(step.value) else Held(row.romId) && staging !in card.files
      ensures Since(old(D.WaitingIds(queue.entries)), old(arrivals), D.WaitingIds(queue.entries), arrivals, row.romId)
    {
      hide D.Mirrors, D.WaitingIds, AllKept, Kept, Fits, Counted, WantOf, Resolve, Scratch, Lies, Landed, Held, Good, Brought;
      HeldIs(row.romId);
      ghost var first, from := card.files, |card.states|;
      step, left := None, row;
      var partial := PartialPathFor(staging);
      var size := SizeOf(partial);
      if setup.resume && row.sizeBytes > 0 && size > row.sizeBytes {
        Scrub(partial);
      }
      size := SizeOf(staging);
      ghost var was, since := card.files, |card.states|;
      if WantOf(setup, detail) != Nothing && row.sizeBytes > 0 && size == row.sizeBytes {
        step, left := Verify(row, detail, true);
        if Transferred(step) { LandedEarlier(first, was, card.states, from, since, card.files, destination); }
        if step.Some? {
          left := row;
          return;
        }
      }
      if step.None? { Scratched(first, was, card.files); }
      ghost var then_ := card.files;
      Scrub(staging);
      ScratchAgain(first, then_, card.files, destination);
    }

    lemma Scratched(first: Files, was: Files, now: Files)
      requires A.SameBut(first, was, Scratch(destination)) && A.SameBut(was, now, Scratch(destination))
      ensures A.SameBut(first, now, Scratch(destination))
    {
      ScratchAgain(first, was, now, destination);
    }

    /** The transfer delivered a body. */
    method TakeBody(row: D.Row, detail: Detail, inherited: bool, more: bool) returns (step: Option<Step>, left: D.Row)
      requires Sound() && OnTrack() && want == WantOf(setup, detail) && Resolve(setup, row.destination) == destination
      modifies queue, store, this`arrivals, this`tally, card`files, card`states
      ensures tally == Tallied(old(tally), step)
      ensures Sound() && OnTrack() && (step.Some? ==> Ended(step.value, row.romId))
      ensures step.Some? ==> step.value.outcome in {Completed, StoreFailed, Cut, Retryable}
      ensures step.None? ==> more && A.SameBut(old(card.files), card.files, Scratch(destination))
      ensures Transferred(step) ==> Landed(old(card.files), card.states, |old(card.states)|, card.files, destination)
      ensures Transferred(step) && PartialPathFor(staging) !in old(card.files) ==> PartialPathFor(staging) !in card.files
      ensures old(card.states) <= card.states
      ensures halted && !calm ==> step.Some?
      ensures old(Held(row.romId)) && staging in old(card.files) && Good(detail, old(card.files)[staging]) ==> step.Some? && Brought(step.value)
      ensures step.None? ==> inherited && left.attempts == Recorded(row.attempts, 1)
      ensures left.romId == row.romId && left.destination == row.destination && left.sizeBytes == row.sizeBytes
      ensures Since(old(D.WaitingIds(queue.entries)), old(arrivals), D.WaitingIds(queue.entries), arrivals, row.romId)
    {
      hide D.Mirrors, D.WaitingIds, AllKept, Kept, Fits, Counted, WantOf, Resolve, Scratch, Landed, Lies, Held, Good, Brought;
      step, left := Verify(row, detail, inherited);
      if step.Some? {
        left := row;
        return;
      }
      left := CountAttempt(left);
      var stopped := Canceled();
      if stopped {
        var cut := Requeue(left, "the download was stopped", Cut);
        step := Some(cut);
      } else if !more {
        var later := Requeue(left, "the bytes already on the card were not this rom's", Retryable);
        step := Some(later);
      }
    }

    /** The transfer delivered no body. */
    method TakeFailure(row: D.Row, verdict: Verdict, more: bool) returns (step: Option<Step>, left: D.Row)
      requires Sound() && OnTrack() && verdict != Fine
      modifies queue, store, this`arrivals, this`tally, card`files, card`states
      ensures tally == Tallied(old(tally), step)
      ensures Sound() && OnTrack() && (step.Some? ==> Ended(step.value, row.romId))
      ensures step.Some? ==> step.value.outcome != Idle && step.value.outcome != Disabled
      ensures step.None? ==> more && verdict == Retry && card.files == old(card.files)
      ensures halted && !calm && verdict != Fatal ==> step.Some? && step.value.outcome in {Cut, StoreFailed}
      ensures calm && verdict == Retry && more ==> step.None?
      ensures !Transferred(step) && old(card.states) <= card.states
      ensures left.attempts == if verdict == Stopped then row.attempts else Recorded(row.attempts, 1)
      ensures left.romId == row.romId && left.destination == row.destination && left.sizeBytes == row.sizeBytes
      ensures Since(old(D.WaitingIds(queue.entries)), old(arrivals), D.WaitingIds(queue.entries), arrivals, row.romId)
    {
      hide D.Mirrors, D.WaitingIds, AllKept, Kept, Fits, Counted, Lies;
      step, left := None, if verdict == Stopped then row else CountAttempt(row);
      if verdict == Fatal {
        Scrub(PartialPathFor(staging));
        var failed := Settle(left.(bytesDone := 0), D.Failed, "this rom does not download");
        return Some(failed), left;
      }
      var stopped := Canceled();
      if stopped {
        var cut := Requeue(left, "the download was stopped", Cut);
        step := Some(cut);
      } else if verdict != Retry || !more {
        var later := Requeue(left, "the transfer did not complete", OutcomeFor(verdict));
        step := Some(later);
      }
    }

    /** What a turn that moved bytes into place leaves of the names it worked under. */
    ghost predicate Leaves(step: Step, was: Files, from: nat, asked: nat)
      reads this, card
    {
      Transferred(Some(step)) ==>
        Landed(was, card.states, from, card.files, destination) && (fetches != asked ==> PartialPathFor(staging) !in card.files)
    }

    /** What one request for the body comes to: an end, or nothing but scratch files and one request the less. */
    ghost predicate Tried(ended: Option<Step>, was: Files, from: nat, spentThen: nat, requestsThen: nat)
      reads this, card
    {
      && (ended.Some? ==> ended.value.outcome != Idle && ended.value.outcome != Disabled)
      && spent == spentThen + (requests - requestsThen) && requestsThen <= requests <= requestsThen + 1
      && (ended.None? ==> spentThen < spent < Budget(setup) && A.SameBut(was, card.files, Scratch(destination)))
      && (Transferred(ended) ==> Landed(was, card.states, from, card.files, destination) && PartialPathFor(staging) !in card.files)
    }

    /** One more request follows only an answer that may change, or bytes that this turn did not fetch; and it is counted. */
    ghost predicate Again(attempts: nat, now: nat, heard: Verdict, inherited: bool) {
      (heard == Retry || (heard == Fine && inherited)) && now == Recorded(attempts, 1)
    }

    /** One request for the body, and what comes of it. */
    method Attempt(asked: D.Row, detail: Detail, resume: bool) returns (ended: Option<Step>, row: D.Row, ghost heard: Verdict)
      requires Sound() && OnTrack() && want == WantOf(setup, detail) && Resolve(setup, asked.destination) == destination
      requires resume <==> setup.resume && asked.sizeBytes > 0
      modifies queue, store, this`arrivals, this`tally, this`spent, this`requests, this`fetches, card`files, card`states
      ensures tally == Tallied(old(tally), ended)
      ensures Sound() && OnTrack() && row.romId == asked.romId && row.destination == asked.destination && row.sizeBytes == asked.sizeBytes
      ensures ended.None? ==> Again(asked.attempts, row.attempts, heard, resume && PartialPathFor(staging) in old(card.files))
      ensures ended.Some? ==> Ended(ended.value, asked.romId)
      ensures Tried(ended, old(card.files), |old(card.states)|, old(spent), old(requests)) && old(card.states) <= card.states
      ensures old(Held(asked.romId)) && Promised(asked.romId) && detail == served(asked.romId).0 && staging !in old(card.files) ==>
                ended.Some? && Brought(ended.value)
      ensures Since(old(D.WaitingIds(queue.entries)), old(arrivals), D.WaitingIds(queue.entries), arrivals, asked.romId)
    {
      hide D.Mirrors, D.WaitingIds, AllKept, Kept, Fits, Counted, WantOf, Resolve, Scratch, Landed, Lies, Arrived, D.Terminal, Since, Held, Brought, Promised;
      ghost var waited, expected := D.WaitingIds(queue.entries), arrivals;
      var size := SizeOf(PartialPathFor(staging));
      var inherited := resume && size > 0;
      row := asked.(state := D.Active, bytesDone := if resume then size else 0, message := "");
      var written := Persist(row);
      if written != D.Written {
        return Some(Step(if written == D.Gone then Completed else StoreFailed, None)), row, Stopped;
      }
      ghost var waits, expects := D.WaitingIds(queue.entries), arrivals;
      ended, row, heard := Receive(row, detail, inherited);
      SinceAgain(waited, expected, waits, expects, D.WaitingIds(queue.entries), arrivals, asked.romId);
    }

    method Receive(asked: D.Row, detail: Detail, inherited: bool) returns (ended: Option<Step>, row: D.Row, ghost heard: Verdict)
      requires Sound() && OnTrack() && want == WantOf(setup, detail) && Resolve(setup, asked.destination) == destination
      modifies queue, store, this`arrivals, this`tally, this`spent, this`requests, this`fetches, card`files, card`states
      ensures tally == Tallied(old(tally), ended)
      ensures Sound() && OnTrack() && row.romId == asked.romId && row.destination == asked.destination && row.sizeBytes == asked.sizeBytes
      ensures ended.None? ==> Again(asked.attempts, row.attempts, heard, inherited)
      ensures ended.Some? ==> Ended(ended.value, asked.romId)
      ensures Tried(ended, old(card.files), |old(card.states)|, old(spent), old(requests)) && old(card.states) <= card.states
      ensures old(Held(asked.romId)) && Promised(asked.romId) && detail == served(asked.romId).0 && staging !in old(card.files) ==>
                ended.Some? && Brought(ended.value)
      ensures Since(old(D.WaitingIds(queue.entries)), old(arrivals), D.WaitingIds(queue.entries), arrivals, asked.romId)
    {
      hide D.Mirrors, D.WaitingIds, AllKept, Kept, Fits, Counted, WantOf, Resolve, Scratch, Landed, Lies, Arrived, D.Terminal, Since, Held, Brought, Promised, Good;
      PromisedIsGood(asked.romId);
      ghost var waited, expected := D.WaitingIds(queue.entries), arrivals;
      ghost var first, from := card.files, |card.states|;
      var reply := Download(asked.romId);
      ghost var waits, expects := D.WaitingIds(queue.entries), arrivals;
      ghost var was, since := card.files, |card.states|;
      var more := Spend();
      var verdict := Judge(reply);
      heard := verdict;
      ended, row := Take(asked, detail, inherited, verdict, more);
      if Transferred(ended) { LandedEarlier(first, was, card.states, from, since, card.files, destination); }
      if ended.None? { ScratchAgain(first, was, card.files, destination); }
      SinceAgain(waited, expected, waits, expects, D.WaitingIds(queue.entries), arrivals, asked.romId);
    }

    method Take(asked: D.Row, detail: Detail, inherited: bool, verdict: Verdict, more: bool) returns (ended: Option<Step>, row: D.Row)
      requires Sound() && OnTrack() && want == WantOf(setup, detail) && Resolve(setup, asked.destination) == destination
      requires verdict == Fine ==> PartialPathFor(staging) !in card.files
      modifies queue, store, this`arrivals, this`tally, card`files, card`states
      ensures tally == Tallied(old(tally), ended)
      ensures Sound() && OnTrack() && row.romId == asked.romId && row.destination == asked.destination && row.sizeBytes == asked.sizeBytes
      ensures ended.None? ==> Again(asked.attempts, row.attempts, verdict, inherited)
      ensures ended.Some? ==> Ended(ended.value, asked.romId) && ended.value.outcome != Idle && ended.value.outcome != Disabled
      ensures ended.None? ==> more && A.SameBut(old(card.files), card.files, Scratch(destination))
      ensures Transferred(ended) ==>
                Landed(old(card.files), card.states, |old(card.states)|, card.files, destination) && PartialPathFor(staging) !in card.files
      ensures verdict == Fine && old(Held(asked.romId)) && staging in old(card.files) && Good(detail, old(card.files)[staging]) ==>
                ended.Some? && Brought(ended.value)
      ensures old(card.states) <= card.states
      ensures Since(old(D.WaitingIds(queue.entries)), old(arrivals), D.WaitingIds(queue.entries), arrivals, asked.romId)
    {
      hide D.Mirrors, D.WaitingIds, AllKept, Kept, Fits, Counted, WantOf, Resolve, Scratch, Landed, Lies, Arrived, D.Terminal, Since, Held, Brought, Good;
      if verdict == Fine {
        ended, row := TakeBody(asked, detail, inherited, more);
      } else {
        ended, row := TakeFailure(asked, verdict, more);
      }
    }

    lemma PromisedIsGood(romId: int)
      ensures Promised(romId) ==> Good(served(romId).0, served(romId).1)
    {
    }

    method Transfer(asked: D.Row, detail: Detail) returns (step: Step)
      requires Sound() && OnTrack() && want == WantOf(setup, detail) && Resolve(setup, asked.destination) == destination
      requires spent <= Budget(setup)
      modifies queue, store, this`arrivals, this`tally, this`spent, this`requests, this`fetches, card`files, card`states
      ensures tally == Tallied(old(tally), Some(step))
      ensures Sound() && OnTrack() && Ended(step, asked.romId) && step.outcome != Idle && step.outcome != Disabled
      ensures Leaves(step, old(card.files), |old(card.states)|, old(fetches)) && old(card.states) <= card.states
      ensures old(Held(asked.romId)) && Promised(asked.romId) && detail == served(asked.romId).0 ==> Brought(step)
      ensures spent <= Budget(setup) + 1 && requests - old(requests) == spent - old(spent)
      ensures Since(old(D.WaitingIds(queue.entries)), old(arrivals), D.WaitingIds(queue.entries), arrivals, asked.romId)
    {
      hide D.Mirrors, D.WaitingIds, AllKept, Kept, Fits, Counted, WantOf, Resolve, Scratch, Landed, Lies, Arrived, D.Terminal, Transferred, OnTrack, Ended, Held, Brought, Promised;
      ghost var first, from := card.files, |card.states|;
      var ended, row := Salvage(asked, detail);
      if ended.Some? {
        return ended.value;
      }
      var resume := setup.resume && row.sizeBytes > 0;
      while true
        invariant Sound() && OnTrack() && row.romId == asked.romId && row.destination == asked.destination && row.sizeBytes == asked.sizeBytes
        invariant old(Held(asked.romId)) && Promised(asked.romId) && detail == served(asked.romId).0 ==> Held(row.romId) && staging !in card.files
        invariant tally == old(tally)
        invariant A.SameBut(first, card.files, Scratch(destination)) && old(card.states) <= card.states
        invariant spent <= Budget(setup) && requests - old(requests) == spent - old(spent)
        invariant Since(old(D.WaitingIds(queue.entries)), old(arrivals), D.WaitingIds(queue.entries), arrivals, row.romId)
        decreases Budget(setup) - spent
      {
        ghost var was, since := card.files, |card.states|;
        ghost var heard;
        ended, row, heard := Attempt(row, detail, resume);
        if ended.Some? {
          if Transferred(ended) { LandedEarlier(first, was, card.states, from, since, card.files, destination); }
          return ended.value;
        }
        ScratchAgain(first, was, card.files, destination);
      }
    }

    /** A row's turn: who is the rom, where does it go, is it there already, is there room, the bytes. */
    method One(queued: D.Row) returns (step: Step, ghost target: Option<Target>)
      requires Sound()
      modifies this`destination, this`staging, this`spent, this`requests, this`arrivals, this`tally, this`before, this`past, this`want, this`rom, this`fetches,
               queue, store, card`files, card`states
      ensures tally == Tallied(old(tally), Some(step))
      ensures Sound() && Ended(step, queued.romId) && step.outcome != Idle && step.outcome != Disabled
      ensures requests <= old(requests) + Budget(setup) + 1
      ensures Since(old(D.WaitingIds(queue.entries)), old(arrivals), D.WaitingIds(queue.entries), arrivals, queued.romId)
      ensures past == old(card.states) && before == old(card.files)
      ensures target.None? ==> card.files == old(card.files) && card.states == old(card.states)
      ensures target.Some? ==> OnTrack() && destination == target.value.path && target.value.detail.id == queued.romId && rom == target.value.detail
                               && want == WantOf(setup, target.value.detail)
                               && setup.offers(target.value.detail) && GoesTo(setup, target.value.detail) == Some(destination)
      ensures step.settled.Some? && step.settled.value.state == D.Done ==> target.Some?
      ensures old(Held(queued.romId)) && Promised(queued.romId) ==> Brought(step)
      ensures Leaves(step, old(card.files), |old(card.states)|, old(fetches)) && old(card.states) <= card.states
    {
      hide D.Mirrors, D.WaitingIds, OnTrack, WantOf, Resolve, Join, Landed, Lies, NameOnTheCard, DestinationFor, Arrived, Held, Promised, Brought, Counted;
      destination, staging, spent := "", "", 0;
      before, past, target := card.files, card.states, None;
      var refused, row, detail, leaf := Ask(queued);
      if refused.Some? {
        return refused.value, target;
      }
      step, target := Place(row, detail, leaf);
    }

    /** The rest of the turn: the rom is known, and where it goes. */
    method Place(row: D.Row, detail: Detail, leaf: string) returns (step: Step, ghost target: Option<Target>)
      requires Sound() && past == card.states && before == card.files && spent <= Budget(setup) && detail.id == row.romId
      requires setup.offers(detail) && NameOnTheCard(setup, detail) == Some(leaf)
      requires DestinationFor(setup, detail.slug, leaf) == Some(row.destination)
      requires exists directory :: row.destination == Join(directory, leaf)
      modifies this`destination, this`staging, this`spent, this`requests, this`arrivals, this`tally, this`want, this`rom, this`fetches,
               queue, store, card`files, card`states
      ensures tally == Tallied(old(tally), Some(step))
      ensures Sound() && Ended(step, row.romId) && step.outcome != Idle && step.outcome != Disabled
      ensures spent <= Budget(setup) + 1 && requests - old(requests) == spent - old(spent)
      ensures Since(old(D.WaitingIds(queue.entries)), old(arrivals), D.WaitingIds(queue.entries), arrivals, row.romId)
      ensures target.None? ==> card.files == old(card.files) && card.states == old(card.states)
      ensures target.Some? ==> OnTrack() && target.value == Target(destination, detail) && want == WantOf(setup, detail) && rom == detail
                               && GoesTo(setup, detail) == Some(destination)
      ensures step.settled.Some? && step.settled.value.state == D.Done ==> target.Some?
      ensures old(Held(row.romId)) && Promised(row.romId) && detail == served(row.romId).0 ==> Brought(step)
      ensures Leaves(step, old(card.files), |old(card.states)|, old(fetches)) && old(card.states) <= card.states
    {
      hide D.Mirrors, D.WaitingIds, OnTrack, WantOf, Resolve, Join, Landed, Lies, NameOnTheCard, DestinationFor, Since, Counted, Held, Promised, Brought;
      if Promised(row.romId) && detail == served(row.romId).0 { PromisedGoes(row.romId); }
      target, destination := None, Resolve(setup, row.destination);
      if destination == "" {
        step := Settle(row, D.Failed, "the mapped folder is not a path on this card");
        return;
      }
      staging, want, rom, target := A.TempPathFor(destination), WantOf(setup, detail), detail, Some(Target(destination, detail));
      DestinationIsHome(setup, detail, destination);
      Begins();
      OnTheCard(setup, row.destination, leaf);
      step := Deliver(row, detail, leaf);
    }

    /** Who is this rom, and where would it go? */
    method Ask(queued: D.Row) returns (step: Option<Step>, row: D.Row, detail: Detail, leaf: string)
      requires Sound() && spent == 0
      modifies this`spent, this`requests, this`arrivals, this`tally, queue, store
      ensures tally == Tallied(old(tally), step)
      ensures Sound() && spent <= Budget(setup) && requests == old(requests) + spent
      ensures step.Some? ==> Ended(step.value, queued.romId) && step.value.outcome != Idle && step.value.outcome != Disabled
                             && (step.value.settled.Some? ==> step.value.settled.value.state != D.Done)
      ensures step.None? ==> row.romId == queued.romId == detail.id && exists directory :: row.destination == Join(directory, leaf)
      ensures step.None? ==> setup.offers(detail) && NameOnTheCard(setup, detail) == Some(leaf)
                             && DestinationFor(setup, detail.slug, leaf) == Some(row.destination)
      ensures old(Held(queued.romId)) && Promised(queued.romId) ==> step.None? && detail == served(queued.romId).0 && Held(row.romId)
      ensures Since(old(D.WaitingIds(queue.entries)), old(arrivals), D.WaitingIds(queue.entries), arrivals, queued.romId)
    {
      hide D.Mirrors, D.WaitingIds, NameOnTheCard, DestinationFor, Join, Counted, Fits, Attested, Described;
      var verdict;
      step, leaf := None, "";
      ghost var heard;
      verdict, detail, row, heard := FetchDetail(queued);
      if verdict != Fine && verdict != Fatal {
        var later := Requeue(row, "the rom could not be asked about", OutcomeFor(verdict));
        step := Some(later);
        return;
      }
      var refused;
      refused, row, leaf := Resolved(verdict, detail, row);
      if refused.Some? {
        var settled := Settle(row, refused.value, "");
        step := Some(settled);
      }
    }

    lemma OwnNames(path: Path)
      ensures A.TempPathFor(path) in Scratch(path) && PartialPathFor(A.TempPathFor(path)) in Scratch(path)
    {
    }

    lemma PartIsApart(path: Path)
      ensures PartialPathFor(A.TempPathFor(path)) !in {A.TempPathFor(path), path, A.PreviousPathFor(path)}
    {
      assert |PartialPathFor(A.TempPathFor(path))| == |path| + 9;
    }

    lemma Begins()
      requires staging == A.TempPathFor(destination) && past == card.states && before == card.files && Lies(setup, rom, destination)
      ensures OnTrack()
    {
      NothingYet(setup, want, destination, before, past);
    }

    /** The part of a turn that may touch the card. */
    method Deliver(row: D.Row, detail: Detail, leaf: string) returns (step: Step)
      requires Sound() && OnTrack() && want == WantOf(setup, detail) && Resolve(setup, row.destination) == destination
      requires exists directory :: destination == setup.root + Join(directory, leaf)
      requires spent <= Budget(setup) && setup.offers(detail) && NameOnTheCard(setup, detail) == Some(leaf) && rom == detail
      modifies queue, store, this`arrivals, this`tally, this`spent, this`requests, this`fetches, card`files, card`states
      ensures tally == Tallied(old(tally), Some(step))
      ensures Sound() && OnTrack() && Ended(step, row.romId) && step.outcome != Idle && step.outcome != Disabled
      ensures Leaves(step, old(card.files), |old(card.states)|, old(fetches)) && old(card.states) <= card.states
      ensures spent <= Budget(setup) + 1 && requests - old(requests) == spent - old(spent)
      ensures old(Held(row.romId)) && Promised(row.romId) && detail == served(row.romId).0 ==> Brought(step)
      ensures Since(old(D.WaitingIds(queue.entries)), old(arrivals), D.WaitingIds(queue.entries), arrivals, row.romId)
    {
      hide D.Mirrors, D.WaitingIds, OnTrack, Ended, WantOf, Resolve, Join, Landed, NameOnTheCard, Held, Promised, Brought, Counted;
      IsCalm(row.romId);
      ghost var first, from := card.files, |card.states|;
      var present := AlreadyOnTheCard(row, detail, leaf);
      if present.Some? {
        return present.value;
      }
      var largest: nat, free: int := *, *;
      if calm {
        largest, free := 0, -1;
      }
      var room := RoomOnTheCard(row, largest, free);
      if room.Some? {
        return room.value;
      }
      ghost var since := |card.states|;
      step := Transfer(row, detail);
      if Transferred(Some(step)) {
        ScratchIsNone(first, destination);
        LandedEarlier(first, first, card.states, from, since, card.files, destination);
      }
    }

    lemma ScratchIsNone(files: Files, path: Path)
      ensures A.SameBut(files, files, Scratch(path))
    {
    }

    /** There is a name for the rom, and a folder that its platform maps. */
    ghost predicate GoesSomewhere(detail: Detail) {
      NameOnTheCard(setup, detail).Some? && DestinationFor(setup, detail.slug, NameOnTheCard(setup, detail).value).Some?
    }

    /** Where the rom goes, or the state it is refused in. */
    method Resolved(verdict: Verdict, detail: Detail, row: D.Row) returns (refused: Option<D.State>, described: D.Row, leaf: string)
      ensures refused.Some? ==> refused.value in {D.Failed, D.Skipped}
      ensures refused.None? <==> verdict != Fatal && detail.id == row.romId && setup.usable(Described(row, detail)) && !detail.multiFile
                                 && !detail.missing && GoesSomewhere(detail)
      ensures refused == Some(D.Failed) <==> verdict == Fatal || detail.id != row.romId
                                             || (setup.usable(Described(row, detail)) && !detail.multiFile && detail.missing)
      ensures refused.None? ==> verdict != Fatal && detail.id == row.romId && !detail.multiFile && !detail.missing
      ensures refused.None? ==> NameOnTheCard(setup, detail) == Some(leaf)
                                && DestinationFor(setup, detail.slug, leaf) == Some(described.destination)
      ensures refused.None? ==> exists directory :: described.destination == Join(directory, leaf)
      ensures described.romId == row.romId
    {
      hide NameOnTheCard, Join, NamesOneFile;
      refused, described, leaf := None, row, "";
      if verdict == Fatal || detail.id != row.romId {
        refused := Some(D.Failed);
        return;
      }
      described := Described(row, detail);
      if !setup.usable(described) {
        return Some(D.Skipped), row, "";
      }
      if detail.multiFile {
        return Some(D.Skipped), described, "";
      }
      if detail.missing {
        return Some(D.Failed), described, "";
      }
      var named := NameOnTheCard(setup, detail);
      if named.None? {
        return Some(D.Skipped), described, "";
      }
      leaf := named.value;
      var goes := DestinationFor(setup, detail.slug, leaf);
      if goes.None? {
        return Some(D.Skipped), described, leaf;
      }
      described := described.(destination := goes.value);
    }

    /** Every rom that was promised is on the card after its turn. */
    ghost predicate AllBrought(turns: seq<Turn>) { forall turn :: turn in turns && Promised(turn.romId) ==> Brought(turn.step) }

    lemma OneMoreBrought(turns: seq<Turn>, turn: Turn)
      requires Smooth() ==> AllBrought(turns) && (Promised(turn.romId) ==> Brought(turn.step))
      ensures Smooth() ==> AllBrought(turns + [turn])
    {
      hide Promised, Brought;
    }

    /** All that wait are promised, nothing gets in the way, and no more will be asked for. */
    ghost predicate AllPromised()
      reads queue, this`arrivals
    {
      Smooth() && arrivals == 0 && forall id :: id in D.WaitingIds(queue.entries) ==> Promised(id)
    }

    lemma CalmNow()
      ensures AllPromised() ==> calm
    {
    }

    lemma PromisedNow(romId: int)
      requires romId in D.WaitingIds(queue.entries)
      ensures AllPromised() ==> Smooth() && Promised(romId) && arrivals == 0 && forall id :: id in D.WaitingIds(queue.entries) ==> Promised(id)
    {
      hide Promised, D.WaitingIds;
    }

    lemma StillPromised(was: set<int>, romId: int)
      requires Smooth() && arrivals == 0 && D.WaitingIds(queue.entries) <= was + {romId}
      requires Promised(romId) && forall id :: id in was ==> Promised(id)
      ensures AllPromised()
    {
      hide Promised, D.WaitingIds;
    }

    lemma WaitingIsHeld(romId: int)
      requires romId in D.WaitingIds(queue.entries)
      ensures Smooth() ==> Held(romId)
    {
    }

    /** What a drain has kept to so far. */
    ghost predicate Underway(turns: seq<Turn>, first: Files, since: seq<Files>)
      reads this, queue, store, card
    {
      && Sound() && since <= card.states && requests <= |turns| * (Budget(setup) + 1)
      && (forall id :: id in deferred ==> id in Later(turns))
      && (Smooth() ==> AllBrought(turns)) && tally == TallyOf(turns) && AllTerminal(turns)
      && Account(setup, turns, first, |since|, card.states, card.files)
    }

    method TakeTurn(row: D.Row, ghost turns: seq<Turn>, ghost first: Files, ghost since: seq<Files>) returns (outcome: Outcome, ghost more: seq<Turn>)
      requires Underway(turns, first, since) && row.romId in D.WaitingIds(queue.entries)
      modifies this, queue, store, card`files, card`states
      ensures Smooth() && Promised(row.romId) ==> outcome == Completed
      ensures Underway(more, first, since) && more != [] && outcome != Idle && outcome != Disabled
      ensures Since(old(D.WaitingIds(queue.entries)), old(arrivals), D.WaitingIds(queue.entries), arrivals, row.romId)
      ensures outcome == Completed ==> row.romId !in D.WaitingIds(queue.entries)
      ensures deferred == if outcome == Retryable then old(deferred) + [row.romId] else old(deferred)
    {
      hide D.Mirrors, D.WaitingIds, Account, Took, Later, Since, WantOf, GoesTo, OnTrack, Leaves, Ended, Promised, AllBrought, Smooth, Held, TallyOf, AllTerminal;
      WaitingIsHeld(row.romId);
      ghost var was, states, asked := card.files, card.states, fetches;
      var step;
      ghost var target;
      step, target := One(row);
      outcome := step.outcome;
      ghost var turn := Turn(row.romId, target, step, was, card.states[|states|..], card.files, fetches != asked);
      more := turns + [turn];
      TurnTook(turn, states, asked);
      EndedIs(step, row.romId);
      Accounted(setup, turns, turn, first, |since|, was, states, card.files, card.states);
      LaterGrows(turns, turn);
      OneMoreBrought(turns, turn);
      OneMoreCounted(turns, turn);
      MoreRequests(|turns|, Budget(setup) + 1);
      if outcome == Retryable {
        deferred := deferred + [row.romId];
      }
    }

    lemma OneMoreCounted(turns: seq<Turn>, turn: Turn)
      ensures TallyOf(turns + [turn]) == Tallied(TallyOf(turns), Some(turn.step))
      ensures AllTerminal(turns) && (turn.step.settled.Some? ==> turn.step.settled.value.state in {D.Done, D.Skipped, D.Failed}) ==>
                AllTerminal(turns + [turn])
    {
      hide Counted;
      assert (turns + [turn])[..|turns|] == turns;
    }

    lemma EndedIs(step: Step, romId: int)
      requires Ended(step, romId)
      ensures step.outcome == Completed ==> romId !in D.WaitingIds(queue.entries)
      ensures step.settled.Some? ==> step.settled.value.state in {D.Done, D.Skipped, D.Failed}
    {
    }

    /** Seen from the turn's own first state. */
    lemma TurnTook(turn: Turn, states: seq<Files>, asked: nat)
      requires Leaves(turn.step, turn.before, |states|, asked) && states <= card.states && before == turn.before && past == states
      requires turn.states == card.states[|states|..] && turn.after == card.files && turn.fetched == (fetches != asked)
      requires Ended(turn.step, turn.romId)
      requires turn.step.settled.Some? && turn.step.settled.value.state == D.Done ==> turn.target.Some?
      requires turn.target.None? ==> card.files == turn.before && card.states == states
      requires turn.target.Some? ==>
                 var target := turn.target.value;
                 && OnTrack() && target.path == destination && target.detail.id == turn.romId && rom == target.detail
                 && want == WantOf(setup, target.detail) && setup.offers(target.detail) && GoesTo(setup, target.detail) == Some(destination)
      ensures Took(setup, turn, turn.before, states, card.files, card.states)
    {
      hide GoesTo, Lies, WantOf, Fits, Resolve, D.WaitingIds, AllKept, Family, A.View, Landed;
      assert UsesUp(turn) by { TurnUses(turn, |states|, asked); }
    }

    lemma TurnUses(turn: Turn, from: nat, asked: nat)
      requires Leaves(turn.step, turn.before, from, asked) && from <= |card.states|
      requires turn.states == card.states[from..] && turn.after == card.files && turn.fetched == (fetches != asked)
      requires turn.target.Some? ==> turn.target.value.path == destination && staging == A.TempPathFor(destination)
      requires turn.target.Some? ==> A.SameBut(turn.before, turn.after, Family(turn.target.value.path))
      ensures UsesUp(turn)
    {
      if Transferred(Some(turn.step)) && turn.target.Some? && destination in turn.before {
        var i :| from <= i < |card.states| && A.Lookup(card.states[i], A.PreviousPathFor(destination)) == Some(turn.before[destination]);
        assert turn.states[i - from] == card.states[i];
      }
    }

    lemma Setting(first: Files, since: seq<Files>)
      requires Sound() && deferred == [] && requests == 0 && tally == NONE_COUNTED && card.files == first && card.states == since
      ensures Underway([], first, since)
    {
      NothingDelivered(setup, first, since);
    }

    /** No rom on offer was lost on the way, and every row settled as done names what it should. */
    ghost predicate Safely(turns: seq<Turn>, first: Files, from: nat)
      reads this, card
    {
      && HomesKept(setup, first, card.files) && AllHomesKept(setup, first, card.states, from)
      && AllStillHold(setup, turns, card.files)
      && HomesAttested(setup, first, card.files) && AllHomesAttested(setup, first, card.states, from)
      && AllStillAttested(setup, turns, card.files)
    }

    /** What is told of a drain: how many roms are on the card, which of them are new, and how many rows came to nothing. */
    ghost predicate CountedRight(turns: seq<Turn>)
      reads this`tally
    {
      && tally.downloaded == HowMany(turns, D.Done) && tally.arrived == NewOnes(turns)
      && tally.skipped == HowMany(turns, D.Skipped) && tally.failed == HowMany(turns, D.Failed)
    }

    lemma Reached(turns: seq<Turn>, first: Files, since: seq<Files>)
      requires Underway(turns, first, since)
      ensures Sound() && since <= card.states && requests <= |turns| * (Budget(setup) + 1)
      ensures Smooth() ==> AllBrought(turns)
      ensures CountedRight(turns)
      ensures Members(deferred) <= Later(turns)
      ensures AllHold(setup, turns) && AllAttested(setup, turns) && Delivered(setup, turns, first, card.files)
      ensures AllDelivered(setup, turns, first, card.states, |since|)
      ensures AllOffered(setup, turns) && AllUseUp(turns, card.states)
      ensures Apart(setup) ==> Safely(turns, first, |since|)
    {
      hide Later, AllHold, Delivered, AllDelivered, D.Mirrors, AllStillHold, AllOffered, AllUseUp, Apart, AllBrought, Smooth, HomesKept, AllHomesKept;
      hide TallyOf, HowMany, NewOnes, AllTerminal, AllAttested, HomesAttested, AllHomesAttested, AllStillAttested;
      HoldsIsAttested(setup, turns);
      TallyCounts(turns);
      if Apart(setup) {
        ApartKeepsHomes(setup, turns, first, card.files);
        ApartKeepsAllHomes(setup, turns, first, card.states, |since|);
        KeptIsAttested(setup, first, card.files);
        AllKeptIsAttested(setup, first, card.states, |since|);
        HoldIsAttested(setup, turns, card.files);
      }
      forall id | id in Members(deferred) ensures id in Later(turns) {}
    }

    /** The next row to work on, once the other thread has done what it does. */
    method Await(ghost turns: seq<Turn>, ghost first: Files, ghost since: seq<Files>) returns (next: Option<D.Row>)
      requires Underway(turns, first, since)
      modifies queue, store, this`arrivals
      ensures Underway(turns, first, since) && arrivals <= old(arrivals)
      ensures old(AllPromised()) ==> AllPromised()
      ensures arrivals == old(arrivals) ==> D.WaitingIds(queue.entries) <= old(D.WaitingIds(queue.entries))
      ensures if next.None? then D.WaitingIds(queue.entries) <= Members(deferred)
              else next.value.romId in D.WaitingIds(queue.entries) && next.value.romId !in deferred
    {
      hide D.Mirrors, Delivered, AllDelivered, AllHold, Later;
      Meanwhile();
      next := queue.NextPending(deferred);
      if next.None? {
        NoneReady(queue.entries, deferred);
      }
    }

    /** One drain: every row still to be worked on gets its turn, unless something stops them all. */
    method Run() returns (outcome: Outcome, ghost turns: seq<Turn>)
      requires Sound() && deferred == [] && requests == 0 && tally == NONE_COUNTED
      modifies this, queue, store, card`files, card`states
      ensures Smooth() ==> AllBrought(turns)
      ensures CountedRight(turns)
      ensures old(AllPromised()) && setup.enabled ==> D.WaitingIds(queue.entries) == {} && outcome in {Completed, Idle}
      ensures halted && !calm && setup.enabled ==> outcome == Cut && turns == []
      ensures Sound() && old(card.states) <= card.states
      ensures Concluded(outcome, D.WaitingIds(queue.entries), turns) && (outcome == Disabled <==> !setup.enabled)
      ensures requests <= |turns| * (Budget(setup) + 1)
      ensures AllHold(setup, turns) && AllAttested(setup, turns)
      ensures Delivered(setup, turns, old(card.files), card.files)
      ensures AllDelivered(setup, turns, old(card.files), card.states, |old(card.states)|)
      ensures AllOffered(setup, turns) && AllUseUp(turns, card.states)
      ensures Apart(setup) ==> Safely(turns, old(card.files), |old(card.states)|)
    {
      turns := [];
      NothingDelivered(setup, card.files, card.states);
      TallyCounts([]);
      if !setup.enabled {
        return Disabled, [];
      }
      hide *;
      ghost var first, since := card.files, card.states;
      Setting(first, since);
      var worked, going := false, true;
      outcome := Completed;
      while going
        invariant Underway(turns, first, since) && Stops(outcome) && (worked <==> turns != [])
        invariant old(AllPromised()) ==> AllPromised() && outcome == Completed && deferred == []
        invariant halted && !calm ==> turns == [] && (going || outcome == Cut)
        invariant !going && outcome == Completed ==> D.WaitingIds(queue.entries) <= Members(deferred)
        decreases going, arrivals, ToDo(queue.entries, deferred)
      {
        outcome, going, worked, turns := Round(worked, turns, first, since);
      }
      Reached(turns, first, since);
      Concludes(outcome, D.WaitingIds(queue.entries), deferred, worked, turns);
      outcome := Conclusion(outcome, deferred, worked);
    }

    /** The next row's turn, or the end: nothing is left to give a turn to, or something stops the drain. */
    method Round(worked: bool, ghost turns: seq<Turn>, ghost first: Files, ghost since: seq<Files>)
      returns (outcome: Outcome, going: bool, works: bool, ghost more: seq<Turn>)
      requires Underway(turns, first, since) && (worked <==> turns != [])
      modifies this, queue, store, card`files, card`states
      ensures Underway(more, first, since) && Stops(outcome) && (works <==> more != [])
      ensures arrivals <= old(arrivals)
      ensures halted && !calm ==> !going && outcome == Cut && more == turns
      ensures old(AllPromised()) ==> AllPromised() && outcome == Completed && deferred == old(deferred)
      ensures going && arrivals == old(arrivals) ==> ToDo(queue.entries, deferred) < old(ToDo(queue.entries, deferred))
      ensures !going && outcome == Completed ==> D.WaitingIds(queue.entries) <= Members(deferred)
    {
      hide D.WaitingIds, Delivered, AllDelivered, AllHold, Later, Members, D.Mirrors, Underway, AllPromised;
      CalmNow();
      outcome, going, works, more := Cut, false, worked, turns;
      var cut := Canceled();
      if cut {
        return;
      }
      ghost var before, left := D.WaitingIds(queue.entries), arrivals;
      var next := Await(turns, first, since);
      if next.None? {
        outcome := Completed;
        return;
      }
      ghost var waiting, aside := D.WaitingIds(queue.entries), deferred;
      ghost var all, promised := AllPromised(), Promised(next.value.romId);
      PromisedNow(next.value.romId);
      outcome, more := TakeTurn(next.value, turns, first, since);
      if all { StillPromised(waiting, next.value.romId); }
      works := true;
      if outcome == Completed || outcome == Retryable {
        outcome, going := Completed, true;
        if arrivals == left { Fewer(before, waiting, D.WaitingIds(queue.entries), aside, deferred, next.value.romId); }
      }
    }
  }

  /** The rom's row is in the queue again, and says why. */
  ghost predicate Waits(rows: seq<D.Row>, romId: int, message: string) {
    exists row :: row in rows && row.romId == romId && row.state == D.Queued && row.message == message
  }

  lemma WrittenIsThere(was: seq<D.Row>, rows: seq<D.Row>, row: D.Row)
    requires D.WrittenOver(was, rows, row)
    ensures row in rows
  {
    var at :| 0 <= at < |was| && was[at].romId == row.romId && rows == was[at := row];
    assert rows[at] == row;
  }

  lemma GoneDoesNotWait(rows: seq<D.Row>, romId: int)
    requires !D.Held(rows, romId)
    ensures romId !in D.WaitingIds(rows)
  {
  }

  lemma CandidateIsApart(setup: Setup, destination: Path, copy: Path, leaf: string)
    requires '/' !in leaf && exists directory :: destination == setup.root + Join(directory, leaf)
    requires exists directory :: copy == Join(directory, leaf)
    ensures setup.root + copy !in Scratch(destination)
  {
    var directory :| destination == setup.root + Join(directory, leaf);
    var other :| copy == Join(other, leaf);
    CopiesAreApart(setup.root, directory, other, leaf);
  }

  lemma StillThere(was: Files, now: Files, path: Path, touched: set<Path>)
    requires path in was && path !in touched && A.SameBut(was, now, touched)
    ensures path in now && now[path] == was[path]
  {
    assert A.Lookup(was, path) == A.Lookup(now, path);
  }

  lemma NothingYet(setup: Setup, want: Want, path: Path, files: Files, states: seq<Files>)
    ensures Kept(setup, want, path, files, files) && AllKept(setup, want, path, files, states, |states|)
  {
  }

  lemma OnTheCard(setup: Setup, path: Path, leaf: string)
    requires Resolve(setup, path) != "" && exists directory :: path == Join(directory, leaf)
    ensures exists directory :: Resolve(setup, path) == setup.root + Join(directory, leaf)
  {
  }

  lemma NoneReady(rows: seq<D.Row>, skip: seq<int>)
    requires forall row :: row in rows && !D.Terminal(row.state) ==> row.romId in skip
    ensures D.WaitingIds(rows) <= Members(skip)
  {
  }

  lemma AnythingFitsNothing(setup: Setup, want: Want)
    ensures want == Nothing ==> forall bytes :: Fits(setup, want, bytes)
  {
  }

  lemma DownloadIsScratch(was: Files, now: Files, destination: Path)
    requires A.SameBut(was, now, {A.TempPathFor(destination), PartialPathFor(A.TempPathFor(destination))})
    ensures A.SameBut(was, now, Scratch(destination))
  {
  }

  lemma StepKeeps(setup: Setup, want: Want, path: Path, before: Files, was: Files, states: seq<Files>, now: Files, from: nat)
    requires Kept(setup, want, path, before, was) && AllKept(setup, want, path, before, states, from)
    requires A.SameBut(was, now, Scratch(path))
    ensures Kept(setup, want, path, before, now) && AllKept(setup, want, path, before, states + [now], from)
  {
    ScratchKeeps(setup, want, path, before, was, now);
  }

  lemma RemovedIsScratch(was: Files, now: Files, path: Path, destination: Path)
    requires path in Scratch(destination) && (now == was || now == was - {path})
    ensures A.SameBut(was, now, Scratch(destination))
  {
  }
}
