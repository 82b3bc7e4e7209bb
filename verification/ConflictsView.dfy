/** The overlay's conflicts screen (core/src/overlay_conflicts_view.cpp): a press that overwrites a save
    is sent once or not at all, whatever the answers and however often the link is lost. */
module ConflictsView {

  datatype KeepLocal = Open | Held | Waiting

  datatype Row = Row(id: int, saveConflict: bool, overwrote: bool, backupNamed: bool, backupPresent: bool, keepLocal: KeepLocal)

  predicate Ready(row: Row) { row.overwrote && row.backupNamed && row.backupPresent }

  datatype Page = Page(offset: int, total: int, entries: seq<Row>, hasMore: bool)

  datatype Outcome = Restored | HeldBack | BackupMissing | BackupFailed | WriteFailed | NothingDone

  datatype Phase = Idle | Running | Done

  datatype RestoreState = RestoreState(entryId: int, phase: Phase, outcome: Outcome)

  datatype Mode = List | Detail | Confirm

  datatype Link = Up | NotResponding | Dropped

  datatype Kind = Nothing | ListConflicts | Restore | Poll | Keep | Cancel

  datatype Command = Command(kind: Kind, entryId: int, offset: int)

  /** A press that asks for a save to be overwritten. */
  datatype Press = Press(entryId: int, keepLocal: bool)

  function PressOf(kind: Kind, entryId: int): Press { Press(entryId, kind == Keep) }

  predicate Overwrites(kind: Kind) { kind == Restore || kind == Keep }

  const PREFETCH := 4
  const MAX_EMPTY_PAGES := 4
  const KEEP_SERVER := 0
  const KEEP_LOCAL := 1
  const SKIP := 2

  function Clamp(n: int, low: int, high: int): int { if n < low then low else if n > high then high else n }

  // ----- The screen's state -----

  /** The rows loaded, and the fetch of more. */
  datatype Listing = Listing(rows: seq<Row>, offset: int, hasMore: bool, loading: bool, emptyPages: nat, failed: bool, selected: int)

  /** What is wanted, what is out, and what the next answer answers. */
  datatype Asking = Asking(wanted: int, keepWanted: bool, restoring: int, keeping: bool, awaiting: bool,
                           cancelWanted: int, cancelling: int, issued: Kind)

  /** What is drawn: the entry the detail is about, and what its last press came to. */
  datatype Screen = Screen(mode: Mode, about: int, choice: int, lost: int, outcome: Shown, keptServer: int, cancelAnswered: int)

  datatype Shown = NoOutcome | Outcome(of: Outcome, keptLocal: bool)

  /** The entry of every row opened; every confirming press, and which opening it was made under; every command
      sent for a press, and which press it was sent for. */
  datatype History = History(picked: seq<int>, pressed: seq<Press>, under: seq<nat>, sent: seq<Press>, of: seq<nat>)

  const NO_HISTORY := History([], [], [], [], [])

  const NO_ROWS := Listing([], 0, true, false, 0, false, 0)
  const NOTHING_OUT := Asking(0, false, 0, false, false, 0, 0, Nothing)
  const AT_THE_LIST := Screen(List, 0, KEEP_SERVER, 0, NoOutcome, 0, 0)

  /** The next page is asked for at the rows already held, and the selection is one of them. */
  ghost predicate Paged(list: Listing, max: nat) {
    && list.offset == |list.rows| <= max
    && (if list.rows == [] then list.selected == 0 else 0 <= list.selected < |list.rows|)
    && (list.hasMore ==> list.emptyPages < MAX_EMPTY_PAGES)
  }

  /** At most one restore is out, and a cancel only while its answer is. */
  ghost predicate OneOut(asks: Asking) {
    && (Overwrites(asks.issued) ==> asks.restoring == asks.wanted != 0 && !asks.awaiting
                                    && asks.keeping == asks.keepWanted == (asks.issued == Keep))
    && (asks.wanted != 0 && !Overwrites(asks.issued) ==> asks.restoring == 0)
    && (asks.restoring != 0 ==> asks.awaiting || Overwrites(asks.issued))
    && (asks.awaiting ==> asks.restoring != 0 && asks.wanted == 0)
    && (asks.issued == Poll ==> asks.awaiting)
    && (if asks.issued == Cancel then asks.cancelling == asks.cancelWanted != 0 else asks.cancelling == 0)
  }

  /** Each press names the entry opened last when it was made. */
  ghost predicate MadeUnder(history: History) {
    && |history.under| == |history.pressed|
    && (forall i :: 0 <= i < |history.under| ==> history.under[i] < |history.picked| && history.pressed[i].entryId == history.picked[history.under[i]])
    && (forall i, j :: 0 <= i <= j < |history.under| ==> history.under[i] <= history.under[j])
  }

  /** What a detail or its confirmation is about is the entry opened last. */
  ghost predicate AboutOpened(screen: Screen, history: History) {
    screen.mode != List ==> history.picked != [] && screen.about == history.picked[|history.picked| - 1]
  }

  /** Each command sent answers a press of its own, the presses in order. */
  ghost predicate SentFor(history: History) {
    && |history.of| == |history.sent|
    && (forall i, j :: 0 <= i < j < |history.of| ==> history.of[i] < history.of[j])
    && (forall i :: 0 <= i < |history.of| ==> history.of[i] < |history.pressed| && history.sent[i] == history.pressed[history.of[i]])
  }

  ghost predicate LastUnsent(history: History) {
    |history.pressed| > 0 && forall i :: 0 <= i < |history.of| ==> history.of[i] < |history.pressed| - 1
  }

  /** What is wanted is the last press, and not yet sent unless it is out. */
  ghost predicate Answers(asks: Asking, history: History) {
    && SentFor(history)
    && (asks.wanted != 0 ==> |history.pressed| > 0 && history.pressed[|history.pressed| - 1] == Press(asks.wanted, asks.keepWanted))
    && (asks.wanted != 0 && !Overwrites(asks.issued) ==> LastUnsent(history))
  }

  ghost function Opening(history: History, id: int): History { history.(picked := history.picked + [id]) }

  ghost function Pressing(history: History, press: Press): History
    requires history.picked != []
  {
    history.(pressed := history.pressed + [press], under := history.under + [|history.picked| - 1])
  }

  ghost function Sending(history: History): History
    requires |history.pressed| > 0
  {
    var last := |history.pressed| - 1;
    history.(sent := history.sent + [history.pressed[last]], of := history.of + [last])
  }

  lemma PressingAnswers(history: History, press: Press)
    requires SentFor(history) && history.picked != []
    ensures SentFor(Pressing(history, press)) && LastUnsent(Pressing(history, press))
  {
  }

  lemma PressingIsUnder(history: History, press: Press)
    requires MadeUnder(history) && history.picked != [] && press.entryId == history.picked[|history.picked| - 1]
    ensures MadeUnder(Pressing(history, press))
  {
  }

  lemma OpeningKeeps(history: History, id: int)
    ensures MadeUnder(history) ==> MadeUnder(Opening(history, id))
    ensures SentFor(history) ==> SentFor(Opening(history, id))
    ensures LastUnsent(history) ==> LastUnsent(Opening(history, id))
  {
  }

  lemma SendingIsUnder(history: History)
    requires MadeUnder(history) && |history.pressed| > 0
    ensures MadeUnder(Sending(history))
  {
  }

  /** What is sent names the entry that was opened last when its press was made. */
  ghost predicate SentAsOpened(history: History) {
    forall i :: 0 <= i < |history.sent| ==>
      i < |history.of| && history.of[i] < |history.under| && history.under[history.of[i]] < |history.picked|
      && history.sent[i].entryId == history.picked[history.under[history.of[i]]]
  }

  lemma SentIsAsOpened(history: History)
    requires SentFor(history) && MadeUnder(history)
    ensures SentAsOpened(history)
  {
  }

  lemma SendingAnswers(history: History)
    requires SentFor(history) && LastUnsent(history)
    ensures SentFor(Sending(history))
  {
  }

  /** No more commands than presses, and no more of any one than there were presses for it. */
  lemma {:induction false} NoMoreThanPressed(history: History)
    requires SentFor(history)
    ensures |history.sent| <= |history.pressed| && multiset(history.sent) <= multiset(history.pressed)
    decreases |history.sent|
  {
    hide SentFor;
    if history.sent != [] {
      var last := LastSent(history);
      NoMoreThanPressed(history.(pressed := history.pressed[..last], sent := history.sent[..|history.sent| - 1], of := history.of[..|history.of| - 1]));
      OneMoreSent(history.pressed, history.sent, last);
    }
  }

  lemma LastSent(history: History) returns (last: nat)
    requires SentFor(history) && history.sent != []
    ensures |history.of| == |history.sent| && last < |history.pressed| && history.pressed[last] == history.sent[|history.sent| - 1]
    ensures SentFor(history.(pressed := history.pressed[..last], sent := history.sent[..|history.sent| - 1], of := history.of[..|history.of| - 1]))
  {
    last := history.of[|history.of| - 1];
  }

  lemma OneMoreSent(pressed: seq<Press>, sent: seq<Press>, last: nat)
    requires sent != [] && last < |pressed| && pressed[last] == sent[|sent| - 1]
    requires |sent| - 1 <= last && multiset(sent[..|sent| - 1]) <= multiset(pressed[..last])
    ensures |sent| <= |pressed| && multiset(sent) <= multiset(pressed)
  {
    assert sent == sent[..|sent| - 1] + [sent[|sent| - 1]];
    assert pressed == pressed[..last] + [pressed[last]] + pressed[last + 1..];
  }

  /** The row a press on the confirmation is about: the first with its id. */
  ghost predicate IsAbout(list: Listing, at: int, id: int) {
    0 <= at < |list.rows| && list.rows[at].id == id && forall i :: 0 <= i < at ==> list.rows[i].id != id
  }

  ghost predicate SaveConflict(list: Listing, screen: Screen) {
    exists at :: IsAbout(list, at, screen.about) && list.rows[at].saveConflict
  }

  /** The bytes of the row the screen is about can be put back. */
  ghost predicate CanBePutBack(list: Listing, screen: Screen) {
    exists at :: IsAbout(list, at, screen.about)
                 && list.rows[at].overwrote && list.rows[at].backupNamed && list.rows[at].backupPresent
  }

  /** The row the screen is about holds this choice to keep the local save. */
  ghost predicate KeepsLocal(list: Listing, screen: Screen, keepLocal: KeepLocal) {
    exists at :: IsAbout(list, at, screen.about) && list.rows[at].keepLocal == keepLocal
  }

  lemma AboutIsOne(list: Listing, at: int, other: int, id: int)
    requires IsAbout(list, at, id) && IsAbout(list, other, id)
    ensures at == other
  {
  }

  /** `number`, or the nearer end when it is not from `low` to `high`. */
  ghost predicate IsClamped(clamped: int, number: int, low: int, high: int) {
    low <= clamped <= high && (clamped == number || (clamped == low > number) || (clamped == high < number))
  }

  /** A press on a confirmation that still stands, of bytes that can be put back, with nothing out:
      for a save conflict, on Keep local. */
  ghost predicate Confirms(list: Listing, asks: Asking, screen: Screen) {
    && screen.mode == Confirm && asks.restoring == 0 && asks.wanted == 0 && screen.about != 0
    && CanBePutBack(list, screen) && (SaveConflict(list, screen) ==> screen.choice == KEEP_LOCAL)
  }

  class ConflictsModel {
    /** The most rows a history holds. */
    const max: nat
    var list: Listing
    var asks: Asking
    var screen: Screen
    var link: Link
    var stale: bool
    ghost var history: History

    constructor (max: nat)
      ensures Valid() && this.max == max && history == NO_HISTORY
    {
      this.max := max;
      list, asks, screen, link, stale, history := NO_ROWS, NOTHING_OUT, AT_THE_LIST, Up, false, NO_HISTORY;
    }

    ghost predicate Valid()
      reads this
    {
      && Paged(list, max) && OneOut(asks) && Answers(asks, history) && MadeUnder(history) && AboutOpened(screen, history)
      && (list.loading <==> asks.issued == ListConflicts)
      && KEEP_SERVER <= screen.choice <= SKIP && (link != Up ==> asks.issued == Nothing)
    }

    /** The first row about an entry. */
    method Find(id: int) returns (at: nat)
      ensures at <= |list.rows| && (at < |list.rows| ==> list.rows[at].id == id)
      ensures forall i :: 0 <= i < at ==> list.rows[i].id != id
      ensures if at < |list.rows| then IsAbout(list, at, id) else forall i :: !IsAbout(list, i, id)
    {
      at := 0;
      while at < |list.rows| && list.rows[at].id != id
        invariant at <= |list.rows| && forall i :: 0 <= i < at ==> list.rows[i].id != id
      {
        at := at + 1;
      }
    }

    // ----- What is sent -----

    /** The one command to send this frame. A press goes first, and goes once. */
    method Next() returns (command: Command)
      requires Valid() && asks.issued == Nothing
      modifies this`asks, this`list, this`history
      ensures Valid() && asks.issued == command.kind && (link != Up ==> command.kind == Nothing)
      ensures Overwrites(command.kind) <==> link == Up && old(asks.wanted) != 0
      ensures if Overwrites(command.kind)
              then old(asks.restoring) == 0 && asks.restoring == command.entryId
                   && |history.pressed| > 0 && PressOf(command.kind, command.entryId) == history.pressed[|history.pressed| - 1]
                   && history == Sending(old(history))
              else history == old(history) && asks.restoring == old(asks.restoring)
      ensures Overwrites(command.kind) ==> command.kind == if history.pressed[|history.pressed| - 1].keepLocal then Keep else Restore
      ensures link == Up && old(asks.wanted) == 0 ==>
                && (command.kind == Cancel <==> old(asks.cancelWanted) != 0)
                && (command.kind == Poll <==> old(asks.cancelWanted) == 0 && old(asks.awaiting))
                && (command.kind == ListConflicts <==>
                    old(asks.cancelWanted) == 0 && !old(asks.awaiting) && list.hasMore && !list.failed && list.selected + PREFETCH >= |list.rows|)
      ensures command.kind == Cancel ==> command.entryId == asks.cancelling == old(asks.cancelWanted)
      ensures command.kind == Poll ==> command.entryId == asks.restoring
      ensures command.kind == ListConflicts ==> command.offset == |list.rows| && asks.restoring == 0
      ensures asks == old(asks).(restoring := asks.restoring, keeping := asks.keeping, cancelling := asks.cancelling, issued := asks.issued)
      ensures list == old(list).(loading := command.kind == ListConflicts)
    {
      hide SentFor, LastUnsent, MadeUnder;
      command := Command(Nothing, 0, 0);
      if link != Up {
      } else if asks.wanted != 0 {
        command := Command(if asks.keepWanted then Keep else Restore, asks.wanted, 0);
        SendingAnswers(history);
        SendingIsUnder(history);
        asks := asks.(restoring := asks.wanted, keeping := asks.keepWanted, issued := command.kind);
        history := Sending(history);
      } else if asks.cancelWanted != 0 {
        command := Command(Cancel, asks.cancelWanted, 0);
        asks := asks.(cancelling := asks.cancelWanted, issued := Cancel);
      } else if asks.awaiting {
        command := Command(Poll, asks.restoring, 0);
        asks := asks.(issued := Poll);
      } else if list.hasMore && !list.loading && !list.failed && list.selected + PREFETCH >= |list.rows| {
        command := Command(ListConflicts, 0, list.offset);
        list, asks := list.(loading := true), asks.(issued := ListConflicts);
      }
    }

    // ----- What is answered -----

    /** A page: only what was asked for is added, and only so many useless ones are asked for. */
    method OnPage(page: Page)
      requires Valid()
      modifies this`asks, this`list
      ensures Valid() && (old(asks.issued) != ListConflicts ==> list == old(list) && asks == old(asks))
      ensures asks == if old(asks.issued) == ListConflicts then old(asks).(issued := Nothing) else old(asks)
      ensures old(list.rows) <= list.rows && list.rows[|old(list.rows)|..] <= page.entries && list.selected == old(list.selected)
      ensures list.rows != old(list.rows) ==> page.offset == |old(list.rows)|
      ensures old(asks.issued) == ListConflicts ==> !list.failed
      ensures old(asks.issued) == ListConflicts && page.offset == |old(list.rows)| && page.entries != [] ==>
                && (list.rows == old(list.rows) + page.entries || |list.rows| == max)
                && list.hasMore == (page.hasMore && |list.rows| < max) && list.emptyPages == 0
      ensures old(asks.issued) == ListConflicts && (page.offset != |old(list.rows)| || page.entries == []) ==>
                && list.hasMore == (old(list.hasMore) && (page.offset != |old(list.rows)| || page.hasMore) && old(list.emptyPages) + 1 < MAX_EMPTY_PAGES)
      ensures old(asks.issued) == ListConflicts && list.hasMore ==>
                |list.rows| > |old(list.rows)| || (list.rows == old(list.rows) && list.emptyPages > old(list.emptyPages))
    {
      hide SentFor, LastUnsent, MadeUnder;
      if asks.issued != ListConflicts {
        return;
      }
      asks, list := asks.(issued := Nothing), list.(loading := false, failed := false);
      if page.offset != list.offset {
        list := list.(emptyPages := list.emptyPages + 1);
        if list.emptyPages >= MAX_EMPTY_PAGES {
          list := list.(hasMore := false);
        }
        return;
      }
      if page.entries == [] {
        if page.hasMore {
          list := list.(emptyPages := list.emptyPages + 1);
          if list.emptyPages < MAX_EMPTY_PAGES {
            return;
          }
        }
        list := list.(hasMore := false);
        return;
      }
      var rows := Taken(page.entries);
      list := list.(rows := rows, offset := |rows|, emptyPages := 0, hasMore := page.hasMore && |rows| < max);
    }

    /** As many of a page's rows as there is room for. */
    method Taken(entries: seq<Row>) returns (rows: seq<Row>)
      requires |list.rows| <= max
      ensures list.rows <= rows && |rows| <= max && rows[|list.rows|..] <= entries
      ensures |rows| == max || rows == list.rows + entries
    {
      rows := list.rows;
      for next := 0 to |entries|
        invariant rows == list.rows + entries[..next] && |rows| <= max
      {
        if |rows| >= max {
          return;
        }
        rows := rows + [entries[next]];
      }
      assert entries[..|entries|] == entries;
    }

    /** A confirmation may give way to its detail, and nothing else. */
    ghost predicate Falls(was: Screen, now: Screen) { now.mode == was.mode || (was.mode == Confirm && now.mode == Detail) }

    /** The first row of the entry says what became of it; every other row is as it was. */
    ghost predicate EndsRow(was: Listing, now: Listing, id: int, outcome: Outcome, keptLocal: bool) {
      && |now.rows| == |was.rows|
      && forall i :: 0 <= i < |was.rows| ==>
           if !IsAbout(was, i, id) then now.rows[i] == was.rows[i]
           else && now.rows[i] == was.rows[i].(backupPresent := now.rows[i].backupPresent, keepLocal := now.rows[i].keepLocal)
                && now.rows[i].backupPresent == (was.rows[i].backupPresent && outcome != BackupMissing)
                && now.rows[i].keepLocal == (if keptLocal && outcome == HeldBack then Held
                                             else if keptLocal && outcome == Restored then Waiting else was.rows[i].keepLocal)
    }

    /** Leave a confirmation whose press has happened. */
    function Behind(id: int): Screen
      reads this
    {
      if screen.mode == Confirm && screen.about == id then screen.(mode := Detail) else screen
    }

    method OnRestoreState(state: RestoreState)
      requires Valid()
      modifies this`asks, this`list, this`screen
      ensures Valid() && |list.rows| == |old(list.rows)|
      ensures !Overwrites(old(asks.issued)) && old(asks.issued) != Poll ==> asks == old(asks) && list == old(list) && screen == old(screen)
      ensures Overwrites(old(asks.issued)) || old(asks.issued) == Poll ==>
                asks.issued == Nothing && asks.wanted == 0
                && asks.restoring == if state.entryId == old(asks.restoring) && state.phase == Running then old(asks.restoring) else 0
      ensures asks == old(asks).(wanted := asks.wanted, issued := asks.issued, restoring := asks.restoring, keeping := asks.keeping, awaiting := asks.awaiting)
      ensures screen.about == old(screen.about) && screen.choice == old(screen.choice) && Falls(old(screen), screen)
      ensures Overwrites(old(asks.issued)) || old(asks.issued) == Poll ==>
                && (screen.about == old(asks.restoring) ==> screen.mode != Confirm)
                && (state.entryId == old(asks.restoring) != 0 && state.phase == Done ==>
                      EndsRow(old(list), list, old(asks.restoring), state.outcome, old(asks.keeping))
                      && (screen.about == old(asks.restoring) ==> screen.outcome == Outcome(state.outcome, old(asks.keeping))))
                && (Overwrites(old(asks.issued)) && state.entryId != old(asks.restoring) && state.phase == Running ==>
                      EndsRow(old(list), list, old(asks.restoring), BackupFailed, old(asks.keeping)) && screen.lost == old(screen.lost))
                && (state.phase == Idle || (state.entryId != old(asks.restoring) && !(Overwrites(old(asks.issued)) && state.phase == Running)) ==>
                      list == old(list) && screen.lost == old(asks.restoring) && screen.outcome == NoOutcome)
    {
      hide SentFor, LastUnsent, MadeUnder;
      var pressed := Overwrites(asks.issued);
      if !pressed && asks.issued != Poll {
        return;
      }
      asks := asks.(issued := Nothing, wanted := 0);
      if state.entryId == asks.restoring && state.phase == Running {
        asks, screen := asks.(awaiting := true), Behind(asks.restoring);
      } else if state.entryId == asks.restoring && state.phase == Done {
        FinishRestore(state.outcome);
      } else if pressed && state.phase == Running {
        FinishRestore(BackupFailed);
      } else {
        screen := Behind(asks.restoring).(lost := asks.restoring, outcome := NoOutcome);
        asks := asks.(restoring := 0, awaiting := false);
      }
    }

    /** The restore that was out is over: its outcome is drawn on its own entry, and only its row changes. */
    method FinishRestore(outcome: Outcome)
      requires Paged(list, max) && asks.wanted == 0 && asks.issued == Nothing && asks.cancelling == 0 && !list.loading
      requires KEEP_SERVER <= screen.choice <= SKIP && SentFor(history) && MadeUnder(history) && AboutOpened(screen, history)
      modifies this`asks, this`list, this`screen
      ensures Valid() && asks == old(asks).(restoring := 0, keeping := false, awaiting := false)
      ensures list == old(list).(rows := list.rows) && |list.rows| == |old(list.rows)|
      ensures EndsRow(old(list), list, old(asks.restoring), outcome, old(asks.keeping))
      ensures screen == if old(screen.about) != old(asks.restoring) then old(screen)
                        else old(screen).(mode := if old(screen.mode) == List then List else Detail, outcome := Outcome(outcome, old(asks.keeping)))
    {
      hide SentFor, LastUnsent, MadeUnder, EndsRow, Paged;
      var restored, keptLocal := asks.restoring, asks.keeping;
      asks := asks.(restoring := 0, keeping := false, awaiting := false);
      if screen.about == restored {
        screen := Behind(restored).(outcome := Outcome(outcome, keptLocal));
      }
      Mark(restored, outcome, keptLocal);
    }

    /** Only the entry's own row changes. */
    method Mark(id: int, outcome: Outcome, keptLocal: bool)
      requires Paged(list, max)
      modifies this`list
      ensures Paged(list, max) && list == old(list).(rows := list.rows) && EndsRow(old(list), list, id, outcome, keptLocal)
    {
      var at := Find(id);
      if at < |list.rows| {
        var row := list.rows[at];
        var now := if outcome == BackupMissing then row.(backupPresent := false)
                   else if keptLocal && outcome == HeldBack then row.(keepLocal := Held)
                   else if keptLocal && outcome == Restored then row.(keepLocal := Waiting)
                   else row;
        list := list.(rows := list.rows[at := now]);
      }
    }

    method OnCancelKeepLocal(keepLocal: KeepLocal)
      requires Valid()
      modifies this`asks, this`list, this`screen
      ensures Valid() && |list.rows| == |old(list.rows)|
      ensures if old(asks.issued) != Cancel then asks == old(asks) && list == old(list) && screen == old(screen)
              else && asks == old(asks).(issued := Nothing, cancelWanted := 0, cancelling := 0)
                   && list == old(list).(rows := list.rows) && screen == old(screen).(cancelAnswered := old(asks.cancelling))
                   && forall i :: 0 <= i < |list.rows| ==>
                        list.rows[i] == if IsAbout(old(list), i, old(asks.cancelling)) then old(list.rows)[i].(keepLocal := keepLocal) else old(list.rows)[i]
    {
      hide SentFor, LastUnsent, MadeUnder;
      if asks.issued != Cancel {
        return;
      }
      var at := Find(asks.cancelling);
      screen := screen.(cancelAnswered := asks.cancelling);
      asks := asks.(issued := Nothing, cancelWanted := 0, cancelling := 0);
      if at < |list.rows| {
        list := list.(rows := list.rows[at := list.rows[at].(keepLocal := keepLocal)]);
      }
    }

    method OnRefused()
      requires Valid()
      modifies this`asks, this`list, this`screen
      ensures Valid() && asks.issued == Nothing && |list.rows| == |old(list.rows)|
      ensures Overwrites(old(asks.issued)) || old(asks.issued) == Poll ==>
                asks == old(asks).(issued := Nothing, wanted := 0, keepWanted := false, restoring := 0, keeping := false, awaiting := false)
      ensures old(asks.issued) == ListConflicts ==>
                list == old(list).(loading := false, failed := true) && asks == old(asks).(issued := Nothing) && screen == old(screen)
      ensures screen.about == old(screen.about) && screen.choice == old(screen.choice) && Falls(old(screen), screen)
      ensures Overwrites(old(asks.issued)) || old(asks.issued) == Poll ==>
                && EndsRow(old(list), list, old(asks.restoring), WriteFailed, old(asks.keeping))
                && (screen.about == old(asks.restoring) ==> screen.outcome == Outcome(WriteFailed, old(asks.keeping)))
      ensures old(asks.issued) == Cancel ==>
                list == old(list) && screen == old(screen).(cancelAnswered := old(asks.cancelling)) && asks == old(asks).(issued := Nothing, cancelWanted := 0, cancelling := 0)
      ensures old(asks.issued) == Nothing ==> asks == old(asks) && list == old(list) && screen == old(screen)
    {
      hide SentFor, LastUnsent, MadeUnder;
      var refused := asks.issued;
      asks := asks.(issued := Nothing);
      if refused == Cancel {
        screen := screen.(cancelAnswered := asks.cancelling);
        asks := asks.(cancelWanted := 0, cancelling := 0);
      } else if Overwrites(refused) || refused == Poll {
        asks := asks.(wanted := 0, keepWanted := false);
        FinishRestore(WriteFailed);
      } else if refused == ListConflicts {
        list := list.(loading := false, failed := true);
      }
    }

    /** The link is slow, or gone. What may have been taken is asked about, and never sent again. */
    method OnUnreachable(now: Link)
      requires Valid()
      modifies this`asks, this`list, this`link, this`stale
      ensures Valid() && list == old(list).(loading := list.loading)
      ensures now == Up ==> asks == old(asks) && link == old(link) && stale == old(stale)
      ensures now != Up ==> link == now && asks.issued == Nothing
      ensures now == NotResponding && Overwrites(old(asks.issued)) ==>
                asks == old(asks).(issued := Nothing, wanted := 0, keepWanted := false, awaiting := true)
      ensures now == NotResponding && !Overwrites(old(asks.issued)) ==>
                && stale == old(stale)
                && asks == old(asks).(issued := Nothing, cancelWanted := if old(asks.issued) == Cancel then 0 else old(asks.cancelWanted), cancelling := 0)
      ensures now == Dropped ==> asks == NOTHING_OUT && stale
    {
      hide SentFor, LastUnsent, MadeUnder;
      if now == Up {
        return;
      }
      link := now;
      if now == NotResponding {
        match asks.issued
        case ListConflicts => list, asks := list.(loading := false), asks.(issued := Nothing);
        case Restore => asks := asks.(wanted := 0, keepWanted := false, awaiting := true, issued := Nothing);
        case Keep => asks := asks.(wanted := 0, keepWanted := false, awaiting := true, issued := Nothing);
        case Cancel => asks := asks.(cancelWanted := 0, cancelling := 0, issued := Nothing);
        case _ => asks := asks.(issued := Nothing);
      } else {
        list, asks, stale := list.(loading := false), NOTHING_OUT, true;
      }
    }

    method OnLinkRestored()
      requires Valid()
      modifies this`asks, this`list, this`screen, this`link, this`stale
      ensures Valid() && link == Up && !(old(link) != Up && old(stale) && (list != NO_ROWS || asks != NOTHING_OUT))
      ensures if old(link) != Up && old(stale) then screen == AT_THE_LIST && !stale
              else list == old(list) && asks == old(asks) && screen == old(screen) && stale == old(stale)
    {
      hide SentFor, LastUnsent, MadeUnder;
      if link == Up {
        return;
      }
      link := Up;
      if stale {
        list, asks, screen, stale := NO_ROWS, NOTHING_OUT, AT_THE_LIST, false;
      }
    }

    // ----- What is pressed -----

    method MoveSelection(delta: int)
      requires Valid()
      modifies this`list, this`screen
      ensures Valid() && list.rows == old(list.rows) && screen == old(screen).(choice := screen.choice)
      ensures if screen.mode == Confirm && SaveConflict(old(list), old(screen))
              then IsClamped(screen.choice, old(screen.choice) + delta, KEEP_SERVER, SKIP) else screen.choice == old(screen.choice)
      ensures if screen.mode == List && list.rows != []
              then && IsClamped(list.selected, old(list.selected) + delta, 0, |list.rows| - 1)
                   && list == old(list).(selected := list.selected, failed := old(list.failed) && list.selected == old(list.selected) && delta <= 0)
              else list == old(list)
    {
      hide SentFor, LastUnsent, MadeUnder;
      if screen.mode == Confirm {
        var at := Find(screen.about);
        if at < |list.rows| && list.rows[at].saveConflict {
          screen := screen.(choice := Clamp(screen.choice + delta, KEEP_SERVER, SKIP));
        }
      } else if screen.mode == List && list.rows != [] {
        var was := list.selected;
        list := list.(selected := Clamp(list.selected + delta, 0, |list.rows| - 1));
        if list.selected != was || delta > 0 {
          list := list.(failed := false);
        }
      }
    }

    /** A on the list opens a row, on a detail offers its confirmation, and on a confirmation is the
        one press that asks for a save to be overwritten. */
    method Activate()
      requires Valid()
      modifies this`asks, this`list, this`screen, this`history
      ensures Valid() && list == old(list).(failed := list.failed)
      ensures asks == old(asks).(wanted := asks.wanted, keepWanted := asks.keepWanted, cancelWanted := asks.cancelWanted)
      ensures old(screen.mode) == List ==> Chosen(old(list), old(screen), list.failed, screen, old(history), history) && asks == old(asks)
      ensures old(screen.mode) == Detail ==> Offered(list, old(asks), old(screen), asks.cancelWanted, screen) && list == old(list)
      ensures old(screen.mode) == Confirm ==> Answered(list, old(screen), screen) && list == old(list) && asks.cancelWanted == old(asks.cancelWanted)
      ensures old(screen.mode) != List ==>
                if Confirms(old(list), old(asks), old(screen))
                then history == Pressing(old(history), Press(old(screen.about), SaveConflict(old(list), old(screen))))
                     && asks.wanted == old(screen.about) && asks.keepWanted == SaveConflict(old(list), old(screen))
                else history == old(history) && asks.wanted == old(asks.wanted) && asks.keepWanted == old(asks.keepWanted)
    {
      hide SentFor, LastUnsent, MadeUnder, OneOut, Answers, Chosen, Offered, Answered, AboutOpened, SaveConflict, CanBePutBack;
      match screen.mode
      case List => Choose();
      case Detail => Offer();
      case Confirm => Answer();
    }

    /** What A on the list comes to: the row selected is opened; with no rows, a failed page will be fetched once more. */
    ghost predicate Chosen(list: Listing, was: Screen, failed: bool, now: Screen, before: History, after: History)
      requires Paged(list, max)
    {
      if list.rows == [] then !failed && now == was && after == before
      else
        && failed == list.failed && now.mode == Detail && now.about == list.rows[list.selected].id && now.outcome == NoOutcome
        && now.cancelAnswered == 0 && now.choice == was.choice && now.keptServer == was.keptServer
        && (now.lost == was.lost == now.about || (now.lost == 0 && was.lost != now.about))
        && after == Opening(before, list.rows[list.selected].id)
    }

    /** What A on a detail comes to: a held choice is taken back, or the confirmation is shown, or nothing. */
    ghost predicate Offered(list: Listing, asks: Asking, was: Screen, cancelWanted: int, now: Screen) {
      && now.about == was.about
      && (now.mode == Confirm <==> asks.restoring == 0 && CanBePutBack(list, was) && KeepsLocal(list, was, Open))
      && (now.mode == Confirm ==> now.choice == KEEP_SERVER && cancelWanted == asks.cancelWanted)
      && (now.mode != Confirm ==> now.mode == Detail && now.choice == was.choice)
      && (now == was || (now.outcome == NoOutcome && now.lost == 0 && now.cancelAnswered == 0))
      && cancelWanted == if KeepsLocal(list, was, Held) && asks.restoring == 0 && asks.cancelWanted == 0 && asks.cancelling == 0
                         then was.about else asks.cancelWanted
    }

    /** What A on a confirmation does to the screen: it goes to the list when the row is skipped, back to the detail
        when the bytes cannot be put back or the server's are kept, and stands otherwise. */
    ghost predicate Answered(list: Listing, was: Screen, now: Screen) {
      if !CanBePutBack(list, was) then now == was.(mode := Detail)
      else if SaveConflict(list, was) && was.choice == KEEP_SERVER then now == was.(mode := Detail, keptServer := was.about)
      else if SaveConflict(list, was) && was.choice == SKIP then now == was.(mode := List, about := 0)
      else now == was
    }

    method Choose()
      requires Valid() && screen.mode == List
      modifies this`list, this`screen, this`history
      ensures Valid() && list == old(list).(failed := list.failed)
      ensures Chosen(old(list), old(screen), list.failed, screen, old(history), history)
    {
      hide SentFor, LastUnsent, MadeUnder;
      if list.rows == [] {
        list := list.(failed := false);
      } else {
        var about := list.rows[list.selected].id;
        screen := screen.(mode := Detail, about := about, outcome := NoOutcome, cancelAnswered := 0,
                          lost := if screen.lost == about then about else 0);
        OpeningKeeps(history, about);
        history := Opening(history, list.rows[list.selected].id);
      }
    }

    method Offer()
      requires Valid() && screen.mode == Detail
      modifies this`asks, this`screen
      ensures Valid() && asks == old(asks).(cancelWanted := asks.cancelWanted)
      ensures Offered(list, old(asks), old(screen), asks.cancelWanted, screen)
    {
      hide SentFor, LastUnsent, MadeUnder, IsAbout;
      var at := Find(screen.about);
      if at == |list.rows| {
        return;
      }
      OnlyAbout(at);
      var row := list.rows[at];
      if row.keepLocal == Held {
        if asks.restoring == 0 && asks.cancelWanted == 0 && asks.cancelling == 0 {
          asks := asks.(cancelWanted := row.id);
          screen := screen.(outcome := NoOutcome, lost := 0, cancelAnswered := 0);
        }
      } else if Ready(row) && row.keepLocal == Open && asks.restoring == 0 {
        screen := screen.(mode := Confirm, outcome := NoOutcome, lost := 0, keptServer := 0, cancelAnswered := 0, choice := KEEP_SERVER);
      }
    }

    /** The row found is the one the screen is about. */
    lemma OnlyAbout(at: int)
      requires IsAbout(list, at, screen.about)
      ensures SaveConflict(list, screen) <==> list.rows[at].saveConflict
      ensures CanBePutBack(list, screen) <==> Ready(list.rows[at])
      ensures forall keepLocal :: KeepsLocal(list, screen, keepLocal) <==> list.rows[at].keepLocal == keepLocal
    {
      hide IsAbout;
      forall other | IsAbout(list, other, screen.about) ensures other == at { AboutIsOne(list, at, other, screen.about); }
    }

    method Answer()
      requires Valid() && screen.mode == Confirm
      modifies this`asks, this`screen, this`history
      ensures Valid() && asks == old(asks).(wanted := asks.wanted, keepWanted := asks.keepWanted) && Answered(list, old(screen), screen)
      ensures if Confirms(list, old(asks), old(screen))
              then history == Pressing(old(history), Press(old(screen.about), SaveConflict(list, old(screen))))
                   && asks.wanted == old(screen.about) && asks.keepWanted == SaveConflict(list, old(screen))
              else history == old(history) && asks.wanted == old(asks.wanted) && asks.keepWanted == old(asks.keepWanted)
    {
      hide SentFor, LastUnsent, MadeUnder, IsAbout;
      var at := Find(screen.about);
      if at < |list.rows| { OnlyAbout(at); }
      if at == |list.rows| || !Ready(list.rows[at]) {
        screen := screen.(mode := Detail);
        return;
      }
      var row := list.rows[at];
      if row.saveConflict && screen.choice == KEEP_SERVER {
        screen := screen.(keptServer := row.id, mode := Detail);
      } else if row.saveConflict && screen.choice == SKIP {
        screen := screen.(mode := List, about := 0);
      } else if asks.restoring == 0 && asks.wanted == 0 && row.id != 0 {
        PressingAnswers(history, Press(row.id, row.saveConflict));
        PressingIsUnder(history, Press(row.id, row.saveConflict));
        history := Pressing(history, Press(row.id, row.saveConflict));
        asks := asks.(wanted := row.id, keepWanted := row.saveConflict);
      }
    }

    method Back() returns (moved: bool)
      requires Valid()
      modifies this`screen
      ensures Valid() && moved == (old(screen).mode != List)
      ensures match old(screen.mode)
              case List => screen == old(screen)
              case Confirm => screen == old(screen).(mode := Detail)
              case Detail => screen == old(screen).(mode := List, about := 0, outcome := NoOutcome, keptServer := 0, cancelAnswered := 0)
    {
      hide SentFor, LastUnsent, MadeUnder;
      moved := screen.mode != List;
      if screen.mode == Confirm {
        screen := screen.(mode := Detail);
      } else if screen.mode == Detail {
        screen := screen.(mode := List, about := 0, outcome := NoOutcome, keptServer := 0, cancelAnswered := 0);
      }
    }
  }

  // ----- Any run -----

  /** How the one command of a frame is answered. */
  datatype Answer = Replies(page: Page, state: RestoreState, keepLocal: KeepLocal) | Refuses | Loses(link: Link)

  datatype Event = Frame(answer: Answer) | Move(delta: int) | PressA | PressB | LinkLost(link: Link) | LinkRestored

  method Deliver(model: ConflictsModel, kind: Kind, answer: Answer)
    requires model.Valid() && model.asks.issued == kind != Nothing && (answer.Loses? ==> answer.link != Up)
    modifies model
    ensures model.Valid() && model.asks.issued == Nothing && model.history == old(model.history)
  {
    hide Paged, OneOut, Answers;
    match answer
    case Refuses => model.OnRefused();
    case Loses(link) => model.OnUnreachable(link);
    case Replies(page, state, keepLocal) =>
      if kind == ListConflicts {
        model.OnPage(page);
      } else if kind == Cancel {
        model.OnCancelKeepLocal(keepLocal);
      } else {
        model.OnRestoreState(state);
      }
  }

  function Presses(events: seq<Event>): nat {
    if events == [] then 0 else Presses(events[..|events| - 1]) + if events[|events| - 1] == PressA then 1 else 0
  }

  /** Whatever is pressed and whatever is answered: at most one restore is out, the selection and the
      page offset fit the rows held, and every command that overwrites a save was sent for a
      confirming press of its own, and names the row that was selected when A was last pressed on the list. */
  method Run(model: ConflictsModel, events: seq<Event>)
    requires model.Valid() && model.asks.issued == Nothing && model.history == NO_HISTORY
    requires forall event :: event in events && event.Frame? && event.answer.Loses? ==> event.answer.link != Up
    modifies model
    ensures model.Valid() && model.asks.issued == Nothing
    ensures |model.history.sent| <= |model.history.pressed| <= Presses(events)
    ensures multiset(model.history.sent) <= multiset(model.history.pressed)
    ensures SentAsOpened(model.history)
  {
    hide Paged, OneOut, Confirms, SaveConflict, SentFor, LastUnsent, MadeUnder, AboutOpened;
    for i := 0 to |events|
      invariant model.Valid() && model.asks.issued == Nothing && |model.history.pressed| <= Presses(events[..i])
    {
      assert events[..i + 1][..i] == events[..i];
      match events[i]
      case Frame(answer) =>
        var command := model.Next();
        if command.kind != Nothing {
          Deliver(model, command.kind, answer);
        }
      case Move(delta) => model.MoveSelection(delta);
      case PressA => model.Activate();
      case PressB => var moved := model.Back();
      case LinkLost(link) => model.OnUnreachable(link);
      case LinkRestored => model.OnLinkRestored();
    }
    assert events[..|events|] == events;
    NoMoreThanPressed(model.history);
    SentIsAsOpened(model.history);
  }
}
