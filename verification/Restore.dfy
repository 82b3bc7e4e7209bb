/** `Restore` (core/src/conflict_record.cpp): putting a save's backup back over it while a game that
    may be running writes that save at any moment up to the last check. */
module Restore {
  import opened Options
  import opened AtomicFile

  datatype CopyError = Copied | SourceMissing | SourceUnreadable | OpenFailed | WriteFailed | CommitFailed

  datatype OperationError = NoError | UnreadableCard | BackupFailed | Unverified

  datatype Outcome =
    | NoSuchEntry
    | NothingToRestore
    | RestoreWriteFailed
    | BackupMissing
    | RestoreBackupFailed
    | ChangedSinceBackup
    | Restored

  /** What the history holds of one conflict. */
  datatype Entry = Entry(id: int, restorable: bool, sdPath: Path, backupPath: Path)

  ghost function Family(path: Path): set<Path> { {path, TempPathFor(path), PreviousPathFor(path)} }

  ghost function Families(names: seq<Path>): set<Path> {
    set n, p | n in names && p in Family(n) :: p
  }

  /** Only the game has touched the save, and nothing outside `touched` has changed. */
  ghost predicate OnlyTheGame(before: Files, since: nat, now: Files, written: seq<Option<Bytes>>, save: Path, touched: set<Path>) {
    && SameBut(before, now, touched + {save})
    && Lookup(now, save) == Left(Lookup(before, save), since, written)
  }

  lemma Compose(a: Files, i: nat, b: Files, v: seq<Option<Bytes>>, c: Files, w: seq<Option<Bytes>>, save: Path, touched: set<Path>)
    requires OnlyTheGame(a, i, b, v, save, touched) && OnlyTheGame(b, |v|, c, w, save, touched)
    requires i <= |v| && v <= w
    ensures OnlyTheGame(a, i, c, w, save, touched)
  {
  }

  const CHUNK := 4096

  /** As much of the source as was there at first is at the temp file; all of it, when the copy has ended. */
  ghost predicate CopiedTo(before: Files, now: Files, from: Path, temp: Path, at: nat, ended: bool) {
    from in before && temp in now && at <= |before[from]| && now[temp] == before[from][..at] && (ended ==> at == |before[from]|)
  }

  /** One buffer: what is left of the source, or the end of it. */
  function Buffer(source: Bytes, at: nat): (got: Bytes)
    ensures |got| <= CHUNK && (got == "" <==> at >= |source|)
  {
    if at > |source| then "" else if at + CHUNK <= |source| then source[at..at + CHUNK] else source[at..]
  }

  lemma CopiedMore(before: Files, was: Files, now: Files, from: Path, temp: Path, at: nat, got: Bytes)
    requires CopiedTo(before, was, from, temp, at, false) && got == Buffer(before[from], at) && temp in now
    requires now[temp] == if got == "" then was[temp] else was[temp] + got
    ensures CopiedTo(before, now, from, temp, at + |got|, got == "")
  {
    assert before[from][..at] + got == before[from][..at + |got|];
  }

  /** Buffer after buffer to an empty temp file, until the source ends. The game may write between any two, and if the
      source is the save it writes, the copy may never see its end. */
  method CopyChunks(card: Card, from: Path, temp: Path, save: Path, ghost before: Files, ghost since: nat) returns (wrote: bool, ended: bool)
    requires save != temp && from != temp && Lookup(card.files, temp) == Some("") && from in before
    requires OnlyTheGame(before, since, card.files, card.written, save, {temp}) && since == |card.written|
    modifies card
    ensures old(card.states) <= card.states && old(card.written) <= card.written
    ensures OnlyTheGame(before, since, card.files, card.written, save, {temp}) && temp in card.files
    ensures (from != save || card.written == old(card.written)) && wrote && ended ==> Lookup(card.files, temp) == Some(before[from])
    ensures card.obliging ==> wrote && (card.written == old(card.written) ==> ended)
  {
    hide OnlyTheGame, CopiedTo;
    var patience: nat, at: nat := *, 0;
    patience, wrote, ended := patience + 1, true, false;
    NothingCopied(before, card.files, from, temp);
    while patience > 0 && wrote && !ended
      invariant old(card.states) <= card.states && old(card.written) <= card.written
      invariant OnlyTheGame(before, since, card.files, card.written, save, {temp})
      invariant temp in card.files && (card.written == old(card.written) ==> patience > 0) && (card.obliging ==> wrote)
      invariant (from != save || card.written == old(card.written)) && wrote ==> CopiedTo(before, card.files, from, temp, at, ended)
      decreases patience, (if from in card.files then |card.files[from]| else 0) - at, !ended
    {
      ghost var was, writ := card.files, card.written;
      var acts := card.Game(save);
      if acts {
        patience := patience - 1;
      }
      Played(before, since, was, writ, card.files, card.written, from, temp, save);
      var source := if from in card.files then card.files[from] else "";
      var got := Buffer(source, at);
      ghost var then_ := card.files;
      if got == "" {
        ended := true;
      } else {
        wrote := card.Append(temp, got);
      }
      Appended(before, since, then_, card.files, card.written, temp, save);
      if (from != save || card.written == old(card.written)) && wrote {
        CopiedMore(before, then_, card.files, from, temp, at, got);
      }
      at := at + |got|;
    }
    if (from != save || card.written == old(card.written)) && wrote && ended { AllCopied(before, card.files, from, temp, at); }
  }

  lemma NothingCopied(before: Files, now: Files, from: Path, temp: Path)
    requires from in before && Lookup(now, temp) == Some("")
    ensures CopiedTo(before, now, from, temp, 0, false)
  {
  }

  lemma AllCopied(before: Files, now: Files, from: Path, temp: Path, at: nat)
    requires CopiedTo(before, now, from, temp, at, true)
    ensures Lookup(now, temp) == Some(before[from])
  {
    assert before[from][..|before[from]|] == before[from];
  }

  /** The game has done what it does: the temp file is as it was, and so is the source unless it is the save. */
  lemma Played(before: Files, since: nat, was: Files, writ: seq<Option<Bytes>>, now: Files, written: seq<Option<Bytes>>, from: Path, temp: Path, save: Path)
    requires OnlyTheGame(before, since, was, writ, save, {temp}) && since <= |writ| && writ <= written
    requires SameBut(now, was, {save}) && Left(Lookup(was, save), |writ|, written) == Lookup(now, save)
    requires save != temp && from != temp
    ensures OnlyTheGame(before, since, now, written, save, {temp}) && Lookup(now, temp) == Lookup(was, temp)
    ensures from != save || |written| == since ==> Lookup(now, from) == Lookup(before, from)
    ensures forall at: nat :: (from != save || |written| == since) && CopiedTo(before, was, from, temp, at, false) ==> CopiedTo(before, now, from, temp, at, false)
  {
    ByTheGame(was, |writ|, now, written, save, {temp});
    Compose(before, since, was, writ, now, written, save, {temp});
    assert Lookup(now, temp) == Lookup(was, temp);
  }

  lemma Appended(before: Files, since: nat, was: Files, now: Files, written: seq<Option<Bytes>>, temp: Path, save: Path)
    requires OnlyTheGame(before, since, was, written, save, {temp}) && SameBut(now, was, {temp}) && save != temp
    ensures OnlyTheGame(before, since, now, written, save, {temp})
  {
    assert Lookup(now, save) == Lookup(was, save);
  }

  /** Copy `from` to `to`'s temp file, a buffer at a time; the game may write between any two. */
  method CopyStaged(card: Card, from: Path, to: Path, save: Path) returns (error: CopyError)
    requires save != TempPathFor(to) && from != TempPathFor(to)
    modifies card
    ensures old(card.states) <= card.states && old(card.written) <= card.written
    ensures OnlyTheGame(old(card.files), |old(card.written)|, card.files, card.written, save, {TempPathFor(to)})
    ensures error == SourceMissing ==> card.files == old(card.files)
    ensures error == SourceMissing <==> from !in old(card.files)
    ensures error == Copied && from != save ==>
              from in old(card.files) && Lookup(card.files, TempPathFor(to)) == Some(old(card.files)[from])
    ensures error == Copied ==> TempPathFor(to) in card.files
    ensures card.obliging && error != Copied && TempPathFor(to) !in old(card.files) ==> TempPathFor(to) !in card.files
    ensures card.obliging && card.written == old(card.written) && from in old(card.files) ==>
              error == Copied && Lookup(card.files, TempPathFor(to)) == Some(old(card.files)[from])
  {
    var temp := TempPathFor(to);
    if from !in card.files {
      return SourceMissing;
    }
    var readable := card.Opens(from);
    if !readable {
      return SourceUnreadable;
    }
    ghost var before, since := card.files, |card.written|;
    var made := card.Create(temp);
    if !made {
      return OpenFailed;
    }
    var wrote, ended := CopyChunks(card, from, temp, save, before, since);
    if !ended && wrote {
      var gone := card.Remove(temp);
      return SourceUnreadable;
    }
    var synced := false;
    if wrote {
      synced := card.Sync(temp);
    }
    if !synced {
      var gone := card.Remove(temp);
      return WriteFailed;
    }
    error := Copied;
  }

  /** A copy that is published whole or not at all. */
  method CopyAtomically(card: Card, from: Path, to: Path, save: Path) returns (error: CopyError, durable: bool)
    requires save !in Family(to) && from !in Family(to)
    modifies card
    ensures old(card.states) <= card.states && old(card.written) <= card.written
    ensures OnlyTheGame(old(card.files), |old(card.written)|, card.files, card.written, save, Family(to))
    ensures error == SourceMissing ==> card.files == old(card.files)
    ensures error == SourceMissing <==> from !in old(card.files)
    ensures error == Copied ==> to in card.files && TempPathFor(to) !in card.files
    ensures error == Copied && from != save ==> from in old(card.files) && Lookup(card.files, to) == Some(old(card.files)[from])
    ensures card.obliging && card.written == old(card.written) && from in old(card.files) ==>
              error == Copied && durable && Lookup(card.files, to) == Some(old(card.files)[from])
  {
    TempIsApart(to);
    durable := false;
    error := CopyStaged(card, from, to, save);
    if error != Copied {
      return;
    }
    var ok;
    ghost var stuck;
    ok, durable, stuck := CommitStaged(card, TempPathFor(to), to);
    if !ok {
      error := CommitFailed;
    }
  }

  /** Copy what is at `save` under a name of its own, if anything is there: the first of `names` that the card does
      not show to be taken, which is all that is `tried`. A copy is kept only if the card `confirmed` it. */
  method BackUpFirst(card: Card, save: Path, names: seq<Path>) returns (error: OperationError, kept: Option<Path>, ghost tried: seq<Path>, ghost confirmed: bool)
    requires forall n :: n in names ==> save !in Family(n)
    modifies card
    ensures old(card.states) <= card.states && old(card.written) <= card.written
    ensures tried == [] || exists i :: 0 <= i < |names| && tried == [names[i]] && forall j :: 0 <= j < i ==> names[j] in old(card.files)
    ensures OnlyTheGame(old(card.files), |old(card.written)|, card.files, card.written, save, Families(tried))
    ensures kept.Some? ==> error == NoError && kept.value in tried && kept.value in card.files && confirmed
    ensures error == NoError && kept.None? ==> save !in card.files && card.files == old(card.files)
    ensures error != NoError && tried == [] ==> forall n :: n in names ==> n in card.files
    ensures card.obliging && card.written == old(card.written) && (exists n :: n in names && n !in old(card.files)) ==>
              error == NoError && forall n :: n in tried ==> n !in old(card.files)
    ensures card.obliging && card.written == old(card.written) && kept.Some? ==> Lookup(card.files, save) == Lookup(card.files, kept.value)
  {
    kept, tried, confirmed := None, [], false;
    for attempt := 0 to |names|
      invariant card.states == old(card.states) && card.written == old(card.written) && card.files == old(card.files)
      invariant forall j :: 0 <= j < attempt ==> names[j] in card.files
    {
      var destination := names[attempt];
      assert destination in names;
      var taken := card.Exists(destination);
      if !taken {
        tried := [destination];
        var copied, durable := CopyAtomically(card, save, destination, save);
        confirmed := durable;
        Widen(old(card.files), |old(card.written)|, card.files, card.written, save, Family(destination), Families(tried));
        if copied == SourceMissing {
          return NoError, None, tried, confirmed;
        }
        if copied != Copied {
          return BackupFailed, None, tried, confirmed;
        }
        if !durable {
          var gone := card.Remove(destination);
          return BackupFailed, None, tried, confirmed;
        }
        return NoError, Some(destination), tried, confirmed;
      }
    }
    error := BackupFailed;
  }

  lemma Widen(before: Files, since: nat, now: Files, written: seq<Option<Bytes>>, save: Path, touched: set<Path>, more: set<Path>)
    requires OnlyTheGame(before, since, now, written, save, touched) && touched <= more
    ensures OnlyTheGame(before, since, now, written, save, more)
  {
  }

  /** Whether the save still holds what was copied; a backup that cannot be read proves nothing. */
  method UnchangedSinceBackup(card: Card, save: Path, kept: Option<Path>) returns (error: OperationError)
    ensures error == NoError ==> if kept.Some? then kept.value in card.files && Lookup(card.files, save) == Lookup(card.files, kept.value)
                                 else save !in card.files
    ensures error in {NoError, UnreadableCard, Unverified} && (error == UnreadableCard ==> kept.Some?)
    ensures card.obliging && error == UnreadableCard ==> kept.value !in card.files
    ensures card.obliging && (if kept.Some? then kept.value in card.files && Lookup(card.files, save) == Lookup(card.files, kept.value) else save !in card.files)
            ==> error == NoError
  {
    if kept.None? {
      return if save in card.files then Unverified else NoError;
    }
    if kept.value !in card.files {
      return UnreadableCard;
    }
    var readable := card.Opens(kept.value);
    if !readable {
      return UnreadableCard;
    }
    if save !in card.files {
      return Unverified;
    }
    var again := card.Opens(save);
    if !again || card.files[save] != card.files[kept.value] {
      return Unverified;
    }
    error := NoError;
  }

  /** The bytes are still somewhere a person can be pointed to. */
  ghost predicate Kept(files: Files, save: Path, kept: Option<Path>, bytes: Bytes) {
    || Lookup(files, save) == Some(bytes)
    || Lookup(files, PreviousPathFor(save)) == Some(bytes)
    || (kept.Some? && Lookup(files, kept.value) == Some(bytes))
  }

  ghost predicate AllKept(states: seq<Files>, from: nat, save: Path, kept: Option<Path>, bytes: Option<Bytes>) {
    bytes.Some? ==> forall i :: from <= i < |states| ==> Kept(states[i], save, kept, bytes.value)
  }

  /** What a reader of the save recovers when `left` is there and its previous record is as it was. */
  ghost function Recovered(before: Files, save: Path, left: Option<Bytes>): Option<Bytes> {
    if left.Some? then left else Lookup(before, PreviousPathFor(save))
  }

  /** Neither the save nor the backup is a name that writing the other, or a new backup, works under. The backup may
      be one of the names a new one could take: it is there, and is stepped past. */
  ghost predicate InNoWay(save: Path, backup: Path, names: seq<Path>) {
    && backup !in Family(save)
    && forall n :: n in names ==> Family(n) !! Family(save) && backup != TempPathFor(n) && backup != PreviousPathFor(n)
  }

  /** And the new backup was not put where the old one is. */
  lemma NotTried(save: Path, backup: Path, names: seq<Path>, tried: seq<Path>)
    requires InNoWay(save, backup, names) && backup !in tried && forall n :: n in tried ==> n in names
    ensures Apart(save, backup, tried)
  {
  }

  /** The save, the backup and the names a new backup took keep out of each other's way. */
  ghost predicate Apart(save: Path, backup: Path, names: seq<Path>) {
    && backup !in Family(save)
    && forall n :: n in names ==> Family(n) !! Family(save) && backup !in Family(n)
  }

  /** What a restore of `save` from `backup` comes to. `left` is what the game left at the save. */
  ghost predicate Settled(before: Files, now: Files, states: seq<Files>, checked: nat, left: Option<Bytes>,
                          save: Path, backup: Path, names: seq<Path>, outcome: Outcome, kept: Option<Path>) {
    && SameBut(before, now, Families(names) + Family(save)) && Lookup(now, backup) == Lookup(before, backup)
    && (if outcome == Restored then backup in before && Lookup(now, save) == Some(before[backup])
        else View(now, save) == Recovered(before, save, left))
    && AllKept(states + [now], checked, save, kept, left)
  }

  /** Nothing of the restore's own has reached the save yet. */
  lemma StandDown(before: Files, since: nat, now: Files, written: seq<Option<Bytes>>, states: seq<Files>, save: Path, backup: Path, names: seq<Path>,
                  outcome: Outcome, kept: Option<Path>)
    requires OnlyTheGame(before, since, now, written, save, Families(names) + {TempPathFor(save)})
    requires Apart(save, backup, names) && outcome != Restored
    ensures Settled(before, now, states, |states|, Left(Lookup(before, save), since, written), save, backup, names, outcome, kept)
  {
    TempIsApart(save);
    BackupApart(save, backup, names);
  }

  lemma BackupApart(save: Path, backup: Path, names: seq<Path>)
    requires Apart(save, backup, names)
    ensures backup !in Families(names) + Family(save)
    ensures forall p :: p in Family(save) ==> p !in Families(names)
  {
  }

  /** The check passed at `atCheck`: from there on the commit cannot lose what was found. */
  lemma CommitKeeps(before: Files, since: nat, atCheck: Files, written: seq<Option<Bytes>>, now: Files, states: seq<Files>, checked: nat,
                    save: Path, backup: Path, names: seq<Path>, kept: Option<Path>, committed: bool)
    requires OnlyTheGame(before, since, atCheck, written, save, Families(names) + {TempPathFor(save)})
    requires Apart(save, backup, names)
    requires if kept.Some? then kept.value in names && kept.value in atCheck && Lookup(atCheck, save) == Lookup(atCheck, kept.value)
             else save !in atCheck
    requires backup in before && Lookup(atCheck, TempPathFor(save)) == Some(before[backup])
    requires AllSafe(atCheck, states, checked, TempPathFor(save), save) && Safe(atCheck, now, TempPathFor(save), save)
    requires if committed then Lookup(now, save) == Some(before[backup]) else View(now, save) == View(atCheck, save)
    ensures Settled(before, now, states, checked, Left(Lookup(before, save), since, written), save, backup, names,
                    if committed then Restored else RestoreWriteFailed, kept)
  {
    hide Safe, View, Left;
    var left := Left(Lookup(before, save), since, written);
    StandDown(before, since, atCheck, written, [], save, backup, names, RestoreWriteFailed, kept);
    BackupApart(save, backup, names);
    var all := states + [now];
    forall i | checked <= i < |all| ensures Safe(atCheck, all[i], TempPathFor(save), save) {}
    if left.Some? {
      forall i | checked <= i < |all| ensures Kept(all[i], save, kept, left.value) {
        SafeElsewhere(atCheck, all[i], save, kept.value);
      }
    }
    SafeElsewhere(atCheck, now, save, backup);
    forall p | p !in Families(names) + Family(save) ensures Lookup(before, p) == Lookup(now, p) {
      SafeElsewhere(atCheck, now, save, p);
    }
  }

  lemma SafeElsewhere(before: Files, now: Files, save: Path, p: Path)
    requires Safe(before, now, TempPathFor(save), save) && p !in Family(save)
    ensures Lookup(now, p) == Lookup(before, p)
  {
  }

  function Find(history: seq<Entry>, id: int): (r: Option<Entry>)
    ensures r.Some? ==> exists i :: 0 <= i < |history| && history[i] == r.value && r.value.id == id && forall j :: 0 <= j < i ==> history[j].id != id
    ensures r.None? ==> forall i :: 0 <= i < |history| ==> history[i].id != id
  {
    if history == [] then None else if history[0].id == id then Some(history[0]) else Find(history[1..], id)
  }

  /** Whether the entry names two paths this card can open and something to put between them. */
  predicate Feasible(history: seq<Entry>, id: int, resolve: Path -> Option<Path>) {
    var e := Find(history, id);
    e.Some? && e.value.restorable && resolve(e.value.sdPath).Some? && resolve(e.value.backupPath).Some?
  }

  /** Put a conflict's backup back. `checked` counts the card's states up to the last look at the
      save before it is replaced, or up to the end when it never comes to that. */
  method Restore(card: Card, history: seq<Entry>, id: int, resolve: Path -> Option<Path>, names: seq<Path>)
    returns (outcome: Outcome, kept: Option<Path>, ghost checked: nat, ghost tried: seq<Path>)
    requires Feasible(history, id, resolve) ==>
               var e := Find(history, id).value; InNoWay(resolve(e.sdPath).value, resolve(e.backupPath).value, names)
    modifies card
    ensures old(card.states) <= card.states && old(card.written) <= card.written && checked <= |card.states|
    ensures !Feasible(history, id, resolve) ==>
              outcome in {NoSuchEntry, NothingToRestore, RestoreWriteFailed, BackupMissing}
              && card.files == old(card.files) && card.states == old(card.states)
    ensures Feasible(history, id, resolve) ==>
              var save, backup := resolve(Find(history, id).value.sdPath).value, resolve(Find(history, id).value.backupPath).value;
              var left := Left(Lookup(old(card.files), save), |old(card.written)|, card.written);
              && StepsPast(old(card.files), names, tried)
              && ComesTo(old(card.files), card.files, card.states, checked, left, save, backup, tried, outcome, kept)
              && (card.obliging && card.written == old(card.written) && backup in old(card.files) && (exists n :: n in names && n !in old(card.files))
                  ==> outcome == Restored)
              && (backup !in old(card.files) ==> outcome == BackupMissing)
              && (outcome == BackupMissing ==> tried == [] && (card.obliging ==> backup !in old(card.files)))
              && (backup !in names ==> Settled(old(card.files), card.files, card.states, checked, left, save, backup, tried, outcome, kept))
  {
    hide Settled, InNoWay, Safe;
    kept, checked, tried := None, |card.states|, [];
    var entry := Find(history, id);
    if entry.None? {
      return NoSuchEntry, kept, checked, tried;
    }
    if !entry.value.restorable {
      return NothingToRestore, kept, checked, tried;
    }
    var destination := resolve(entry.value.sdPath);
    if destination.None? {
      return RestoreWriteFailed, kept, checked, tried;
    }
    var backup := resolve(entry.value.backupPath);
    if backup.None? {
      return BackupMissing, kept, checked, tried;
    }
    outcome, kept, checked, tried := Replace(card, destination.value, backup.value, names);
  }

  lemma NothingYet(files: Files, written: seq<Option<Bytes>>, save: Path, touched: set<Path>)
    ensures OnlyTheGame(files, |written|, files, written, save, touched)
  {
  }

  lemma ByTheGame(before: Files, since: nat, now: Files, written: seq<Option<Bytes>>, save: Path, touched: set<Path>)
    requires SameBut(now, before, {save}) && Left(Lookup(before, save), since, written) == Lookup(now, save)
    ensures OnlyTheGame(before, since, now, written, save, touched)
  {
  }

  lemma DroppedTemp(before: Files, since: nat, mid: Files, now: Files, written: seq<Option<Bytes>>, save: Path, touched: set<Path>)
    requires OnlyTheGame(before, since, mid, written, save, touched) && TempPathFor(save) in touched
    requires now == mid || now == mid - {TempPathFor(save)}
    ensures OnlyTheGame(before, since, now, written, save, touched)
  {
    TempIsApart(save);
  }

  lemma BackupStays(before: Files, since: nat, now: Files, written: seq<Option<Bytes>>, save: Path, backup: Path, names: seq<Path>)
    requires OnlyTheGame(before, since, now, written, save, Families(names) + {TempPathFor(save)}) && Apart(save, backup, names)
    ensures Lookup(now, backup) == Lookup(before, backup)
  {
    BackupApart(save, backup, names);
  }

  /** At most one name was written under: the first that was not there, or that the card would not show. */
  ghost predicate StepsPast(before: Files, names: seq<Path>, tried: seq<Path>) {
    tried == [] || exists i :: 0 <= i < |names| && tried == [names[i]] && forall j :: 0 <= j < i ==> names[j] in before
  }

  /** The game writes nothing but the save. */
  lemma SteppedPast(before: Files, mid: Files, save: Path, names: seq<Path>, tried: seq<Path>)
    requires SameBut(mid, before, {save}) && forall n :: n in names ==> save !in Family(n)
    requires tried == [] || exists i :: 0 <= i < |names| && tried == [names[i]] && forall j :: 0 <= j < i ==> names[j] in mid
    ensures StepsPast(before, names, tried)
  {
    if tried != [] {
      var i :| 0 <= i < |names| && tried == [names[i]] && forall j :: 0 <= j < i ==> names[j] in mid;
      forall j | 0 <= j < i ensures names[j] in before {
        assert names[j] in names && Lookup(mid, names[j]) == Lookup(before, names[j]);
      }
    }
  }

  /** What a restore comes to: for an old backup that was not written over, all that is claimed of it. For one that
      was, because the card showed it and then did not, `Restored` says nothing: the save and the backup both hold what
      was to be replaced. */
  ghost predicate ComesTo(before: Files, now: Files, states: seq<Files>, checked: nat, left: Option<Bytes>,
                          save: Path, backup: Path, tried: seq<Path>, outcome: Outcome, kept: Option<Path>) {
    && (backup !in tried ==> Settled(before, now, states, checked, left, save, backup, tried, outcome, kept))
    && (outcome == Restored ==> (kept.Some? <==> left.Some?) && (kept.Some? ==> kept.value in tried))
    && (outcome == Restored && kept == Some(backup) ==> Lookup(now, save) == left == Lookup(now, backup))
  }

  lemma StoodDown(before: Files, since: nat, now: Files, written: seq<Option<Bytes>>, states: seq<Files>, save: Path, backup: Path,
                  names: seq<Path>, tried: seq<Path>, outcome: Outcome, kept: Option<Path>)
    requires OnlyTheGame(before, since, now, written, save, Families(tried) + {TempPathFor(save)}) && outcome != Restored
    requires InNoWay(save, backup, names) && forall n :: n in tried ==> n in names
    ensures ComesTo(before, now, states, |states|, Left(Lookup(before, save), since, written), save, backup, tried, outcome, kept)
  {
    if backup !in tried {
      NotTried(save, backup, names, tried);
      StandDown(before, since, now, written, states, save, backup, tried, outcome, kept);
    }
  }

  /** The restore proper, once both paths are known. */
  method Replace(card: Card, save: Path, backup: Path, names: seq<Path>)
    returns (outcome: Outcome, kept: Option<Path>, ghost checked: nat, ghost tried: seq<Path>)
    requires InNoWay(save, backup, names)
    modifies card
    ensures old(card.states) <= card.states && old(card.written) <= card.written && checked <= |card.states|
    ensures StepsPast(old(card.files), names, tried)
    ensures ComesTo(old(card.files), card.files, card.states, checked,
                    Left(Lookup(old(card.files), save), |old(card.written)|, card.written), save, backup, tried, outcome, kept)
    ensures card.obliging && card.written == old(card.written) && backup in old(card.files) && (exists n :: n in names && n !in old(card.files))
            ==> outcome == Restored
    ensures backup !in old(card.files) ==> outcome == BackupMissing
    ensures outcome == BackupMissing ==> tried == [] && (card.obliging ==> backup !in old(card.files))
  {
    hide ComesTo, SameBut, InNoWay, StepsPast, OnlyTheGame, Families, Family, Left, TempPathFor;
    ghost var before, since := card.files, |card.written|;
    kept, tried := None, [];
    NamesApart(save, backup, names);
    var _ := card.Game(save);
    SteppedPast(before, card.files, save, names, []);
    ByTheGame(before, since, card.files, card.written, save, Families(tried) + {TempPathFor(save)});
    OtherThanSave(before, card.files, save, backup);
    var there := card.Exists(backup);
    if !there {
      StoodDown(before, since, card.files, card.written, card.states, save, backup, names, tried, BackupMissing, kept);
      return BackupMissing, kept, |card.states|, tried;
    }
    ghost var mid, writ := card.files, card.written;
    ByTheGame(before, since, mid, writ, save, {});
    var backedUp;
    ghost var confirmed;
    backedUp, kept, tried, confirmed := BackUpFirst(card, save, names);
    ghost var touched := Families(tried) + {TempPathFor(save)};
    SteppedPast(before, mid, save, names, tried);
    AmongNames(before, names, tried);
    Widen(before, since, mid, writ, save, {}, touched);
    Widen(mid, |writ|, card.files, card.written, save, Families(tried), touched);
    Compose(before, since, mid, writ, card.files, card.written, save, touched);
    if card.obliging && card.written == writ && backup in mid && exists n :: n in names && n !in mid {
      BackedUpNow(mid, |writ|, card.files, card.written, save, backup, names, tried, kept);
    }
    if backedUp != NoError {
      StoodDown(before, since, card.files, card.written, card.states, save, backup, names, tried, RestoreBackupFailed, None);
      return RestoreBackupFailed, None, |card.states|, tried;
    }
    outcome, checked := Overwrite(card, save, backup, kept, names, tried, before, since);
  }

  /** The save is backed up under a name that was free, and the old backup is where it was. */
  lemma BackedUpNow(mid: Files, since: nat, now: Files, written: seq<Option<Bytes>>, save: Path, backup: Path, names: seq<Path>, tried: seq<Path>,
                    kept: Option<Path>)
    requires OnlyTheGame(mid, since, now, written, save, Families(tried)) && InNoWay(save, backup, names) && backup in mid
    requires (forall n :: n in tried ==> n in names && n !in mid)
    requires (kept.Some? ==> kept.value in now && Lookup(now, save) == Lookup(now, kept.value)) && (kept.None? ==> save !in now)
    ensures BackedUp(now, save, kept) && backup in now
  {
    hide InNoWay, Families, Family, Apart;
    NotTried(save, backup, names, tried);
    BackupApart(save, backup, tried);
    NamesApart(save, backup, names);
    assert Lookup(now, backup) == Lookup(mid, backup);
  }

  lemma OtherThanSave(before: Files, now: Files, save: Path, backup: Path)
    requires SameBut(now, before, {save}) && backup != save
    ensures backup in now <==> backup in before
  {
    assert Lookup(now, backup) == Lookup(before, backup);
  }

  lemma AmongNames(before: Files, names: seq<Path>, tried: seq<Path>)
    requires StepsPast(before, names, tried)
    ensures forall n :: n in tried ==> n in names
  {
  }

  /** What is at the save was copied, if anything is there. */
  ghost predicate BackedUp(files: Files, save: Path, kept: Option<Path>) {
    if kept.Some? then kept.value in files && Lookup(files, save) == Lookup(files, kept.value) else save !in files
  }

  /** Staging the old backup touches neither the save nor its copy. */
  lemma StillBackedUp(mid: Files, since: nat, now: Files, written: seq<Option<Bytes>>, save: Path, names: seq<Path>, tried: seq<Path>,
                      kept: Option<Path>, backup: Path)
    requires OnlyTheGame(mid, since, now, written, save, {TempPathFor(save)}) && |written| <= since
    requires InNoWay(save, backup, names) && (forall n :: n in tried ==> n in names) && (kept.Some? ==> kept.value in tried)
    ensures BackedUp(mid, save, kept) ==> BackedUp(now, save, kept)
  {
    if kept.Some? {
      assert kept.value in Family(kept.value) && save in Family(save) && TempPathFor(save) in Family(save);
      assert Lookup(now, kept.value) == Lookup(mid, kept.value);
    }
  }

  /** With the save's bytes backed up: stage the old backup, look at the save again, and commit. */
  method Overwrite(card: Card, save: Path, backup: Path, kept: Option<Path>, ghost names: seq<Path>, ghost tried: seq<Path>, ghost before: Files, ghost since: nat)
    returns (outcome: Outcome, ghost checked: nat)
    requires InNoWay(save, backup, names) && (forall n :: n in tried ==> n in names) && since <= |card.written|
    requires OnlyTheGame(before, since, card.files, card.written, save, Families(tried) + {TempPathFor(save)})
    requires kept.Some? ==> kept.value in tried
    modifies card
    ensures old(card.states) <= card.states && old(card.written) <= card.written && checked <= |card.states|
    ensures ComesTo(before, card.files, card.states, checked, Left(Lookup(before, save), since, card.written), save, backup, tried, outcome, kept)
    ensures card.obliging && card.written == old(card.written) && backup in old(card.files) && BackedUp(old(card.files), save, kept) ==> outcome == Restored
    ensures outcome in {Restored, RestoreWriteFailed, ChangedSinceBackup, RestoreBackupFailed}
    ensures card.obliging && outcome == ChangedSinceBackup ==> !BackedUp(card.files, save, kept)
    ensures card.obliging && outcome == RestoreBackupFailed ==> kept.Some? && kept.value !in card.files
    ensures card.obliging && TempPathFor(save) !in old(card.files) ==> TempPathFor(save) !in card.files
  {
    hide ComesTo, SameBut, InNoWay, OnlyTheGame, Families, Family, Left, TempPathFor, Safe, AllSafe, View;
    ghost var touched, mid, writ := Families(tried) + {TempPathFor(save)}, card.files, card.written;
    NamesApart(save, backup, names);
    TempIsApart(save);
    var copied := CopyStaged(card, backup, save, save);
    Staged(mid, |writ|, card.files, card.written, save, backup);
    Widen(mid, |writ|, card.files, card.written, save, {TempPathFor(save)}, touched);
    Compose(before, since, mid, writ, card.files, card.written, save, touched);
    if card.written == writ { StillBackedUp(mid, |writ|, card.files, card.written, save, names, tried, kept, backup); }
    if copied != Copied {
      StoodDown(before, since, card.files, card.written, card.states, save, backup, names, tried, RestoreWriteFailed, kept);
      return RestoreWriteFailed, |card.states|;
    }
    ghost var atCheck := card.files;
    var same := UnchangedSinceBackup(card, save, kept);
    if same != NoError {
      writ := card.written;
      var gone := card.Remove(TempPathFor(save));
      DroppedTemp(before, since, atCheck, card.files, card.written, save, touched);
      KeptApart(save, backup, names, tried, kept);
      outcome := if same == Unverified then ChangedSinceBackup else RestoreBackupFailed;
      StoodDown(before, since, card.files, card.written, card.states, save, backup, names, tried, outcome, kept);
      return outcome, |card.states|;
    }
    checked := |card.states|;
    var committed, durable;
    ghost var stuck;
    committed, durable, stuck := CommitStaged(card, TempPathFor(save), save);
    Committed(before, since, mid, atCheck, card.written, card.files, card.states, checked, save, backup, names, tried, kept, committed);
    outcome := if committed then Restored else RestoreWriteFailed;
  }

  lemma KeptApart(save: Path, backup: Path, names: seq<Path>, tried: seq<Path>, kept: Option<Path>)
    requires InNoWay(save, backup, names) && (forall n :: n in tried ==> n in names) && (kept.Some? ==> kept.value in tried)
    ensures kept.Some? ==> kept.value != TempPathFor(save)
  {
    if kept.Some? { assert kept.value in Family(kept.value) && TempPathFor(save) in Family(save); }
  }

  /** The old backup is as it was when it was copied. */
  lemma Staged(mid: Files, since: nat, now: Files, written: seq<Option<Bytes>>, save: Path, backup: Path)
    requires OnlyTheGame(mid, since, now, written, save, {TempPathFor(save)}) && backup != save && backup != TempPathFor(save)
    ensures Lookup(now, backup) == Lookup(mid, backup)
  {
  }

  lemma Committed(before: Files, since: nat, mid: Files, atCheck: Files, written: seq<Option<Bytes>>, now: Files, states: seq<Files>, checked: nat,
                  save: Path, backup: Path, names: seq<Path>, tried: seq<Path>, kept: Option<Path>, committed: bool)
    requires InNoWay(save, backup, names) && (forall n :: n in tried ==> n in names) && (kept.Some? ==> kept.value in tried)
    requires OnlyTheGame(before, since, atCheck, written, save, Families(tried) + {TempPathFor(save)})
    requires if kept.Some? then kept.value in atCheck && Lookup(atCheck, save) == Lookup(atCheck, kept.value) else save !in atCheck
    requires backup in mid && Lookup(atCheck, backup) == Lookup(mid, backup) == Lookup(atCheck, TempPathFor(save))
    requires AllSafe(atCheck, states, checked, TempPathFor(save), save) && Safe(atCheck, now, TempPathFor(save), save)
    requires if committed then Lookup(now, save) == Lookup(atCheck, TempPathFor(save)) else View(now, save) == View(atCheck, save)
    ensures ComesTo(before, now, states, checked, Left(Lookup(before, save), since, written), save, backup, tried,
                    if committed then Restored else RestoreWriteFailed, kept)
  {
    hide AllSafe, View, Left, Settled;
    if backup !in tried {
      NotTried(save, backup, names, tried);
      BackupStays(before, since, atCheck, written, save, backup, tried);
      CommitKeeps(before, since, atCheck, written, now, states, checked, save, backup, tried, kept, committed);
    }
    SafeElsewhere(atCheck, now, save, backup);
  }

  lemma NamesApart(save: Path, backup: Path, names: seq<Path>)
    requires InNoWay(save, backup, names)
    ensures backup != TempPathFor(save) && backup != save && forall n :: n in names ==> save !in Family(n)
  {
    forall n | n in names ensures save !in Family(n) { assert save in Family(save); }
  }

  /** The new backup takes the old one's name: whatever the card answers, a restore that is reported done, of a save no
      game writes meanwhile, has put the save's own bytes back, and the old backup's are at neither name. */
  method RestoresItself(card: Card) returns (outcome: Outcome)
    requires card.files == map["save" := "new", "backup" := "old"]
    modifies card
    ensures outcome == Restored && card.written == old(card.written) ==>
              Lookup(card.files, "save") == Some("new") == Lookup(card.files, "backup")
  {
    var kept;
    ghost var checked, tried;
    outcome, kept, checked, tried := Replace(card, "save", "backup", ["backup"]);
  }
}
