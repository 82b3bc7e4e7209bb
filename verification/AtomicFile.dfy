/** Crash-safe replacement of a file (core/src/atomic_file.cpp), on a card whose every operation may
    refuse, whose rename refuses an existing destination, and whose power may go after any step. */
module AtomicFile {
  import opened Options

  type Path = string
  type Bytes = string
  type Files = map<Path, Bytes>

  function TempPathFor(path: Path): Path { path + ".tmp" }

  function PreviousPathFor(path: Path): Path { path + ".old" }

  function Lookup(files: Files, path: Path): Option<Bytes> {
    if path in files then Some(files[path]) else None
  }

  /** What a reader finds: the file, or the previous one when the file is missing. */
  function View(files: Files, path: Path): Option<Bytes> {
    if path in files then Some(files[path]) else Lookup(files, PreviousPathFor(path))
  }

  /** Apart from `touched`, nothing differs. */
  ghost predicate SameBut(a: Files, b: Files, touched: set<Path>) {
    forall p :: p !in touched ==> Lookup(a, p) == Lookup(b, p)
  }

  /** What the game has left since `since` writes ago, or what was there before any of them. */
  ghost function Left(before: Option<Bytes>, since: nat, written: seq<Option<Bytes>>): Option<Bytes> {
    if |written| > since then written[|written| - 1] else before
  }

  class Card {
    var files: Files
    /** A card that refuses nothing it could do. */
    const obliging: bool
    /** Every state the card has been in: any of them is what a power cut can leave. */
    ghost var states: seq<Files>
    /** Everything a running game has left at the save it has open, in order. */
    ghost var written: seq<Option<Bytes>>

    /** The game writes its save, or removes it, or does nothing just now. */
    method Game(save: Path) returns (acts: bool)
      modifies this
      ensures states == old(states) + [files]
      ensures SameBut(files, old(files), {save}) && Left(old(Lookup(files, save)), |old(written)|, written) == Lookup(files, save)
      ensures old(written) <= written && (acts <==> written != old(written)) && (!acts ==> files == old(files))
    {
      var bytes: Option<Bytes> := *;
      acts := *;
      if acts {
        files := match bytes { case Some(b) => files[save := b] case None => files - {save} };
        written := written + [Lookup(files, save)];
      }
      states := states + [files];
    }

    /** Opening may fail for other reasons than the file not being there. */
    method Exists(path: Path) returns (yes: bool)
      ensures yes ==> path in files
      ensures obliging ==> (yes <==> path in files)
    {
      var answered: bool := *;
      yes := path in files && (answered || obliging);
    }

    method Remove(path: Path) returns (ok: bool)
      modifies this`files, this`states
      ensures states == old(states) + [files]
      ensures ok ==> path in old(files) && files == old(files) - {path}
      ensures !ok ==> files == old(files)
      ensures obliging && path in old(files) ==> ok
    {
      ok := *;
      ok := (ok || obliging) && path in files;
      if ok {
        files := files - {path};
      }
      states := states + [files];
    }

    method Rename(from: Path, to: Path) returns (ok: bool)
      modifies this`files, this`states
      ensures states == old(states) + [files]
      ensures ok ==> from in old(files) && to !in old(files) && files == old(files)[to := old(files)[from]] - {from}
      ensures !ok ==> files == old(files)
      ensures obliging && from in old(files) && to !in old(files) ==> ok
    {
      ok := *;
      ok := (ok || obliging) && from in files && to !in files;
      if ok {
        files := files[to := files[from]] - {from};
      }
      states := states + [files];
    }

    /** Open for writing: what was there is gone. */
    method Create(path: Path) returns (ok: bool)
      modifies this`files, this`states
      ensures states == old(states) + [files]
      ensures files == if ok then old(files)[path := ""] else old(files)
      ensures obliging ==> ok
    {
      ok := *;
      ok := ok || obliging;
      if ok {
        files := files[path := ""];
      }
      states := states + [files];
    }

    /** Add to an open file; a refused write may still have left some of it. */
    method Append(path: Path, piece: Bytes) returns (ok: bool)
      requires path in files
      modifies this`files, this`states
      ensures states == old(states) + [files]
      ensures path in files && SameBut(files, old(files), {path})
      ensures ok ==> files == old(files)[path := old(files)[path] + piece]
      ensures obliging ==> ok
    {
      ok := *;
      ok := ok || obliging;
      if ok {
        files := files[path := files[path] + piece];
      } else {
        var kept :| 0 <= kept <= |piece|;
        files := files[path := files[path] + piece[..kept]];
      }
      states := states + [files];
    }

    /** Ask the card to confirm what it was given. */
    method Sync(path: Path) returns (ok: bool)
      ensures obliging ==> ok
    {
      ok := *;
      ok := ok || obliging;
    }

    /** A file that is there may still not open for reading. */
    method Opens(path: Path) returns (yes: bool)
      requires path in files
      ensures obliging ==> yes
    {
      yes := *;
      yes := yes || obliging;
    }
  }

  // ----- Committing -----

  /** What holds of every state on the way: a reader finds what it would have found before, or
      the whole new record; and nothing but the three names changes. */
  ghost predicate Safe(before: Files, after: Files, staged: Path, path: Path) {
    && SameBut(before, after, {staged, path, PreviousPathFor(path)})
    && (View(after, path) == View(before, path) || (staged in before && View(after, path) == Some(before[staged])))
  }

  ghost predicate AllSafe(before: Files, states: seq<Files>, from: nat, staged: Path, path: Path) {
    forall i :: from <= i < |states| ==> Safe(before, states[i], staged, path)
  }

  lemma OneMoreSafe(before: Files, states: seq<Files>, more: seq<Files>, now: Files, from: nat, staged: Path, path: Path)
    requires AllSafe(before, states, from, staged, path) && more == states + [now] && Safe(before, now, staged, path)
    ensures AllSafe(before, more, from, staged, path)
  {
  }

  /** The former record is in place, or aside while its place is empty. */
  lemma StillFormer(before: Files, now: Files, staged: Path, path: Path)
    requires path in before && SameBut(before, now, {staged, path, PreviousPathFor(path)})
    requires Lookup(now, path) == Some(before[path]) || (path !in now && Lookup(now, PreviousPathFor(path)) == Some(before[path]))
    ensures Safe(before, now, staged, path) && View(now, path) == View(before, path)
  {
  }

  /** Nothing but the staged file has changed. */
  lemma StillUntouched(before: Files, now: Files, staged: Path, path: Path)
    requires SameBut(before, now, {staged}) && staged != path && staged != PreviousPathFor(path)
    ensures Safe(before, now, staged, path) && View(now, path) == View(before, path)
  {
    assert Lookup(before, path) == Lookup(now, path);
    assert Lookup(before, PreviousPathFor(path)) == Lookup(now, PreviousPathFor(path));
  }

  lemma IsPublished(before: Files, now: Files, staged: Path, path: Path)
    requires staged in before && SameBut(before, now, {staged, path, PreviousPathFor(path)})
    requires Lookup(now, path) == Some(before[staged])
    ensures Safe(before, now, staged, path)
  {
  }

  /** In one of the states since, the name for the former record holds `bytes`. */
  ghost predicate SetAside(states: seq<Files>, from: nat, path: Path, bytes: Bytes) {
    exists i :: from <= i < |states| && Lookup(states[i], PreviousPathFor(path)) == Some(bytes)
  }

  lemma StillAside(states: seq<Files>, more: seq<Files>, from: nat, path: Path, bytes: Bytes)
    requires SetAside(states, from, path, bytes) && states <= more
    ensures SetAside(more, from, path, bytes)
  {
    var i :| from <= i < |states| && Lookup(states[i], PreviousPathFor(path)) == Some(bytes);
    assert more[i] == states[i];
  }

  /** Move the former record aside, once a stale one is out of the way. */
  method MoveAside(card: Card, staged: Path, path: Path) returns (ok: bool)
    requires staged != path && staged != PreviousPathFor(path) && path in card.files
    modifies card`files, card`states
    ensures old(card.states) <= card.states
    ensures AllSafe(old(card.files), card.states, |old(card.states)|, staged, path)
    ensures SameBut(old(card.files), card.files, {path, PreviousPathFor(path)})
    ensures ok ==> SetAside(card.states, |old(card.states)|, path, old(card.files)[path])
    ensures card.obliging ==> ok
    ensures if ok then path !in card.files && Lookup(card.files, PreviousPathFor(path)) == Some(old(card.files)[path])
            else Lookup(card.files, path) == Some(old(card.files)[path])
  {
    hide AllSafe, Safe;
    var previous := PreviousPathFor(path);
    assert previous != path by { assert |previous| == |path| + 4; }
    ghost var before, from, was := card.files, |card.states|, card.states;
    NoneYet(before, was, staged, path);
    var gone := card.Remove(previous);
    StillFormer(before, card.files, staged, path);
    OneMoreSafe(before, was, card.states, card.files, from, staged, path);
    was := card.states;
    ok := card.Rename(path, previous);
    StillFormer(before, card.files, staged, path);
    OneMoreSafe(before, was, card.states, card.files, from, staged, path);
    assert card.states[|card.states| - 1] == card.files;
  }

  lemma NoneYet(before: Files, states: seq<Files>, staged: Path, path: Path)
    ensures AllSafe(before, states, |states|, staged, path)
  {
  }

  /** Move `staged` over `path`, keeping the former record aside until that is done. `stuck` says that it was moved
      aside, and that the card would not move it back. */
  method CommitStaged(card: Card, staged: Path, path: Path) returns (ok: bool, durable: bool, ghost stuck: bool)
    requires staged != path && staged != PreviousPathFor(path)
    modifies card`files, card`states
    ensures old(card.states) <= card.states
    ensures AllSafe(old(card.files), card.states, |old(card.states)|, staged, path) && Safe(old(card.files), card.files, staged, path)
    ensures ok ==> staged in old(card.files) && Lookup(card.files, path) == Some(old(card.files)[staged]) && staged !in card.files
    ensures !ok ==> View(card.files, path) == View(old(card.files), path)
    ensures !ok && !stuck ==> Lookup(card.files, path) == Lookup(old(card.files), path)
    ensures ok && path in old(card.files) ==> SetAside(card.states, |old(card.states)|, path, old(card.files)[path])
    ensures card.obliging && staged in old(card.files) ==> ok && durable && PreviousPathFor(path) !in card.files
  {
    hide AllSafe, Safe, View, SetAside;
    ghost var before, from, was := card.files, |card.states|, card.states;
    NoneYet(before, was, staged, path);
    StillUntouched(before, before, staged, path);
    ok, durable, stuck := false, false, false;
    var present := card.Exists(staged);
    if !present {
      return;
    }
    var previous := PreviousPathFor(path);
    assert previous != path by { assert |previous| == |path| + 4; }
    var replacing := card.Exists(path);
    if replacing {
      var aside := MoveAside(card, staged, path);
      if !aside {
        StillFormer(before, card.files, staged, path);
        Discard(card, before, from, staged, path);
        return;
      }
    }
    was := card.states;
    ghost var moved := card.states;
    assert Lookup(card.files, staged) == Lookup(before, staged);
    ok := card.Rename(staged, path);
    if !ok {
      Unchanged(before, card.files, replacing, staged, path);
      OneMoreSafe(before, was, card.states, card.files, from, staged, path);
      if replacing {
        was := card.states;
        var back := card.Rename(previous, path);
        stuck := !back;
        StillFormer(before, card.files, staged, path);
        OneMoreSafe(before, was, card.states, card.files, from, staged, path);
      }
      Discard(card, before, from, staged, path);
      return;
    }
    IsPublished(before, card.files, staged, path);
    OneMoreSafe(before, was, card.states, card.files, from, staged, path);
    was := card.states;
    var gone := card.Remove(previous);
    IsPublished(before, card.files, staged, path);
    OneMoreSafe(before, was, card.states, card.files, from, staged, path);
    if path in before { StillAside(moved, card.states, from, path, before[path]); }
    durable := card.Sync(path);
  }

  lemma Unchanged(before: Files, now: Files, replacing: bool, staged: Path, path: Path)
    requires staged != path && staged != PreviousPathFor(path)
    requires if replacing then path in before && SameBut(before, now, {path, PreviousPathFor(path)})
                               && path !in now && Lookup(now, PreviousPathFor(path)) == Some(before[path])
             else now == before
    ensures Safe(before, now, staged, path) && View(now, path) == View(before, path)
  {
  }

  /** Drop the staged file; the former record is wherever it was. */
  method Discard(card: Card, ghost before: Files, ghost from: nat, staged: Path, path: Path)
    requires staged != path && staged != PreviousPathFor(path) && from <= |card.states|
    requires SameBut(before, card.files, {staged, path, PreviousPathFor(path)})
    requires AllSafe(before, card.states, from, staged, path) && View(card.files, path) == View(before, path)
    modifies card`files, card`states
    ensures old(card.states) <= card.states
    ensures AllSafe(before, card.states, from, staged, path) && Safe(before, card.files, staged, path)
    ensures View(card.files, path) == View(before, path) && Lookup(card.files, path) == Lookup(old(card.files), path)
  {
    ghost var was := card.states;
    var gone := card.Remove(staged);
    assert Lookup(card.files, path) == Lookup(old(card.files), path);
    assert Lookup(card.files, PreviousPathFor(path)) == Lookup(old(card.files), PreviousPathFor(path));
    OneMoreSafe(before, was, card.states, card.files, from, staged, path);
  }

  function Concat(pieces: seq<Bytes>): Bytes {
    if pieces == [] then "" else Concat(pieces[..|pieces| - 1]) + pieces[|pieces| - 1]
  }

  /** From `before` on, every state offers a reader of `path` what it would have found, or `record`. */
  ghost predicate Offers(before: Files, after: Files, path: Path, record: Bytes) {
    && SameBut(before, after, {TempPathFor(path), path, PreviousPathFor(path)})
    && (View(after, path) == View(before, path) || View(after, path) == Some(record))
  }

  ghost predicate AllOffer(before: Files, states: seq<Files>, from: nat, path: Path, record: Bytes) {
    forall i :: from <= i < |states| ==> Offers(before, states[i], path, record)
  }

  lemma OnlyTemp(before: Files, now: Files, path: Path, record: Bytes)
    requires SameBut(before, now, {TempPathFor(path)})
    ensures Offers(before, now, path, record) && View(now, path) == View(before, path)
  {
    TempIsApart(path);
    assert Lookup(before, path) == Lookup(now, path);
    assert Lookup(before, PreviousPathFor(path)) == Lookup(now, PreviousPathFor(path));
  }

  /** A commit of the finished temp file, seen from before it was begun. */
  lemma CommitOffers(before: Files, ready: Files, now: Files, path: Path, record: Bytes)
    requires SameBut(before, ready, {TempPathFor(path)}) && Lookup(ready, TempPathFor(path)) == Some(record)
    requires Safe(ready, now, TempPathFor(path), path)
    ensures Offers(before, now, path, record)
  {
    OnlyTemp(before, ready, path, record);
  }

  /** Write a record, in one piece or many: all of it is published, or none. */
  method WriteAtomically(card: Card, path: Path, pieces: seq<Bytes>) returns (ok: bool)
    modifies card`files, card`states
    ensures old(card.states) <= card.states
    ensures AllOffer(old(card.files), card.states, |old(card.states)|, path, Concat(pieces))
    ensures Offers(old(card.files), card.files, path, Concat(pieces))
    ensures ok ==> Lookup(card.files, path) == Some(Concat(pieces))
    ensures !ok ==> View(card.files, path) == View(old(card.files), path)
    ensures card.obliging ==> ok && TempPathFor(path) !in card.files && PreviousPathFor(path) !in card.files
  {
    hide Offers, View, Safe;
    ghost var before, from, record := card.files, |card.states|, Concat(pieces);
    var temp := TempPathFor(path);
    TempIsApart(path);
    OnlyTemp(before, card.files, path, record);
    ok := card.Create(temp);
    OnlyTemp(before, card.files, path, record);
    if !ok {
      return;
    }
    var next := 0;
    while next < |pieces| && ok
      invariant 0 <= next <= |pieces| && old(card.states) <= card.states
      invariant temp in card.files && SameBut(before, card.files, {temp})
      invariant ok ==> card.files[temp] == Concat(pieces[..next])
      invariant card.obliging ==> ok
      invariant AllOffer(before, card.states, from, path, record)
      decreases |pieces| - next, ok
    {
      ok := card.Append(temp, pieces[next]);
      OnlyTemp(before, card.files, path, record);
      assert pieces[..next + 1][..next] == pieces[..next];
      next := next + 1;
    }
    if ok {
      assert pieces[..next] == pieces;
      ok := card.Sync(temp);
    }
    if !ok {
      var gone := card.Remove(temp);
      OnlyTemp(before, card.files, path, record);
      return;
    }
    ghost var ready, soFar := card.files, |card.states|;
    OnlyTemp(before, ready, path, record);
    var durable;
    ghost var stuck;
    ok, durable, stuck := CommitStaged(card, temp, path);
    forall i | from <= i < |card.states| ensures Offers(before, card.states[i], path, record) {
      if i >= soFar { CommitOffers(before, ready, card.states[i], path, record); }
    }
    CommitOffers(before, ready, card.files, path, record);
  }

  lemma TempIsApart(path: Path)
    ensures TempPathFor(path) != path && PreviousPathFor(path) != path && TempPathFor(path) != PreviousPathFor(path)
  {
    assert TempPathFor(path)[|path|..] == ".tmp" && PreviousPathFor(path)[|path|..] == ".old";
    assert ".tmp"[1] != ".old"[1];
  }

  // ----- Recovering -----

  datatype Outcome = Read(contents: Bytes) | Missing | Unreadable | TooLarge

  /** A file that will not open, or is longer than it may be, is not a missing one. */
  method ReadBounded(card: Card, path: Path, limit: nat) returns (outcome: Outcome)
    ensures outcome.Missing? <==> path !in card.files
    ensures outcome.Read? ==> path in card.files && card.files[path] == outcome.contents && |outcome.contents| <= limit
    ensures outcome.TooLarge? ==> path in card.files && |card.files[path]| > limit
    ensures card.obliging ==> !outcome.Unreadable?
  {
    if path !in card.files {
      return Missing;
    }
    var readable := card.Opens(path);
    if !readable {
      return Unreadable;
    }
    outcome := if |card.files[path]| > limit then TooLarge else Read(card.files[path]);
  }

  /** What a reader recovers: the previous record, but only when the file itself is missing. So a record found is
      the one every commit keeps within reach, and nothing is found where there is one only if it cannot be read. */
  method Load(card: Card, path: Path, limit: nat) returns (outcome: Outcome)
    ensures outcome.Read? ==> View(card.files, path) == Some(outcome.contents) && |outcome.contents| <= limit
    ensures outcome.Missing? ==> path !in card.files
    ensures outcome.Unreadable? || outcome.TooLarge? ==> path in card.files
    ensures outcome.TooLarge? ==> |card.files[path]| > limit
    ensures card.obliging && View(card.files, path).Some? && |View(card.files, path).value| <= limit ==> outcome.Read?
  {
    outcome := ReadBounded(card, path, limit);
    if outcome.Missing? {
      var former := ReadBounded(card, PreviousPathFor(path), limit);
      if former.Read? {
        outcome := former;
      }
    }
  }

  /** Wherever the power went while `record` was being written, a reader that finds something finds the former
      record or the new one, whole. */
  method LoadAfterCut(card: Card, path: Path, limit: nat, ghost before: Files, ghost record: Bytes) returns (outcome: Outcome)
    requires Offers(before, card.files, path, record)
    ensures outcome.Read? ==> View(before, path) == Some(outcome.contents) || outcome.contents == record
    ensures outcome.Missing? && path in before ==> PreviousPathFor(path) in card.files
  {
    outcome := Load(card, path, limit);
  }
}
