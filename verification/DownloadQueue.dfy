/** The list of roms to fetch (core/include/rommsync/download.hpp, core/src/download.cpp): each change
    is one step with the write that records it, and is undone exactly when that write fails. */
module DownloadQueue {
  import opened Options

  datatype State = Queued | Active | Verifying | Done | Failed | Skipped

  predicate Terminal(state: State) { state.Done? || state.Failed? || state.Skipped? }

  datatype Row = Row(romId: int, queuedAt: int, state: State, bytesDone: int, sizeBytes: int, attempts: nat,
                     fsName: string, slug: string, sha1: string, destination: string, message: string)

  function NewRow(romId: int, now: int): Row { Row(romId, now, Queued, 0, 0, 0, "", "", "", "", "") }

  datatype Answer = Ok | UnknownRom | Duplicate | Full | NotQueued | WriteFailed

  /** What a change did to the rows: the one it took out or wrote over, and whether it added one. */
  datatype Change = Change(row: Option<Row>, at: int, replaced: bool, appended: bool)

  /** A change to the rows, as its reversal needs it. */
  datatype Undo = Undo(change: Change, live: int, rate: int, lastFinished: int)

  /** The file the rows are written to: a write is whole or it is refused. */
  class Store {
    var saved: seq<Row>
    /** A card that takes every write. */
    const obliging: bool

    constructor (rows: seq<Row>, obliging: bool)
      ensures saved == rows && this.obliging == obliging
    {
      saved, this.obliging := rows, obliging;
    }

    method Save(rows: seq<Row>) returns (ok: bool)
      modifies this
      ensures saved == if ok then rows else old(saved)
      ensures obliging ==> ok
    {
      ok := *;
      ok := ok || obliging;
      if ok {
        saved := rows;
      }
    }
  }

  // ----- What holds of the rows at all times -----

  ghost predicate Distinct(rows: seq<Row>) {
    && (forall i :: 0 <= i < |rows| ==> rows[i].romId > 0)
    && (forall i, j :: 0 <= i < j < |rows| ==> rows[i].romId != rows[j].romId)
  }

  ghost predicate Held(rows: seq<Row>, romId: int) { exists row :: row in rows && row.romId == romId }

  /** The rows still to be worked on. */
  ghost predicate Pending(rows: seq<Row>, romId: int) {
    exists row :: row in rows && row.romId == romId && !Terminal(row.state)
  }

  ghost predicate NoneFinished(rows: seq<Row>) { forall i :: 0 <= i < |rows| ==> !Terminal(rows[i].state) }

  ghost predicate Moving(rows: seq<Row>, romId: int) {
    exists row :: row in rows && row.romId == romId && row.state == Active
  }

  /** The file differs from memory at most in how far a row being fetched has got. */
  ghost predicate Same(row: Row, saved: Row) {
    row == saved || (row.state == Active && row == saved.(bytesDone := row.bytesDone))
  }

  ghost predicate Mirrors(rows: seq<Row>, saved: seq<Row>) {
    |rows| == |saved| && forall i :: 0 <= i < |rows| ==> Same(rows[i], saved[i])
  }

  function Without(rows: seq<Row>, at: nat): seq<Row>
    requires at < |rows|
  {
    rows[..at] + rows[at + 1..]
  }

  lemma WithoutMembers(rows: seq<Row>, at: nat, row: Row)
    requires at < |rows|
    ensures row in Without(rows, at) ==> row in rows
    ensures row in rows && row != rows[at] ==> row in Without(rows, at)
  {
    assert rows == rows[..at] + [rows[at]] + rows[at + 1..];
  }

  lemma WithoutKeeps(rows: seq<Row>, at: nat, romId: int)
    requires at < |rows|
    ensures Distinct(rows) ==> Distinct(Without(rows, at)) && !Held(Without(rows, at), rows[at].romId)
    ensures romId != rows[at].romId ==> (Held(Without(rows, at), romId) <==> Held(rows, romId))
    ensures romId != rows[at].romId ==> (Pending(Without(rows, at), romId) <==> Pending(rows, romId))
    ensures romId != rows[at].romId ==> (Moving(Without(rows, at), romId) <==> Moving(rows, romId))
  {
    var less := Without(rows, at);
    forall row ensures row in less ==> row in rows ensures row in rows && row != rows[at] ==> row in less {
      WithoutMembers(rows, at, row);
    }
  }

  /** Writing a row back over the one with the same id. */
  lemma ReplaceKeeps(rows: seq<Row>, at: nat, row: Row, romId: int)
    requires at < |rows| && rows[at].romId == row.romId
    ensures Distinct(rows) ==> Distinct(rows[at := row])
    ensures Held(rows[at := row], romId) <==> Held(rows, romId)
    ensures romId != row.romId ==> (Pending(rows[at := row], romId) <==> Pending(rows, romId))
    ensures romId != row.romId ==> (Moving(rows[at := row], romId) <==> Moving(rows, romId))
  {
    var more := rows[at := row];
    assert forall i :: 0 <= i < |rows| ==> more[i].romId == rows[i].romId;
    assert forall i :: 0 <= i < |rows| && i != at ==> more[i] == rows[i];
    assert forall i :: 0 <= i < |rows| ==> rows[i] in rows && more[i] in more;
  }

  lemma AppendKeeps(rows: seq<Row>, row: Row, romId: int)
    requires row.romId > 0 && !Held(rows, row.romId)
    ensures Distinct(rows) ==> Distinct(rows + [row])
    ensures romId != row.romId ==> (Held(rows + [row], romId) <==> Held(rows, romId))
    ensures romId != row.romId ==> (Pending(rows + [row], romId) <==> Pending(rows, romId))
    ensures romId != row.romId ==> (Moving(rows + [row], romId) <==> Moving(rows, romId))
  {
    var more := rows + [row];
    assert forall i :: 0 <= i < |rows| ==> more[i] == rows[i] && rows[i] in rows;
  }

  /** The rows still to be worked on, in the order they will be. */
  function Unfinished(rows: seq<Row>): seq<Row> {
    if rows == [] then []
    else Unfinished(rows[..|rows| - 1]) + if Terminal(rows[|rows| - 1].state) then [] else [rows[|rows| - 1]]
  }

  lemma {:induction false} UnfinishedConcat(a: seq<Row>, b: seq<Row>)
    ensures Unfinished(a + b) == Unfinished(a) + Unfinished(b)
  {
    if b == [] {
      assert a + b == a;
    } else {
      assert (a + b)[..|a + b| - 1] == a + b[..|b| - 1];
      UnfinishedConcat(a, b[..|b| - 1]);
    }
  }

  lemma {:induction false} UnfinishedArePending(rows: seq<Row>, row: Row)
    ensures row in Unfinished(rows) <==> row in rows && !Terminal(row.state)
  {
    if rows != [] {
      UnfinishedArePending(rows[..|rows| - 1], row);
      assert rows == rows[..|rows| - 1] + [rows[|rows| - 1]];
    }
  }

  lemma LastCounts(rows: seq<Row>, row: Row)
    ensures Unfinished(rows + [row]) == if Terminal(row.state) then Unfinished(rows) else Unfinished(rows) + [row]
  {
    assert (rows + [row])[..|rows|] == rows;
  }

  /** A finished row can go without anyone who waits noticing. */
  lemma FinishedMakesWay(rows: seq<Row>, at: nat)
    requires at < |rows| && Terminal(rows[at].state)
    ensures Unfinished(Without(rows, at)) == Unfinished(rows)
  {
    hide Unfinished;
    var first, last := rows[..at], rows[at + 1..];
    LastCounts(first, rows[at]);
    UnfinishedConcat(first, last);
    UnfinishedConcat(first + [rows[at]], last);
    assert rows == (first + [rows[at]]) + last;
  }

  /** Which row makes way for a rom that is asked for: its own finished one, or the oldest finished one
      of a full list. */
  ghost predicate MakesWay(was: seq<Row>, kept: seq<Row>, romId: int, max: nat) {
    if Held(was, romId) then
      exists at :: 0 <= at < |was| && was[at].romId == romId && Terminal(was[at].state) && kept == Without(was, at)
    else if |was| < max then kept == was
    else exists at :: 0 <= at < |was| && Terminal(was[at].state) && kept == Without(was, at)
                      && forall i :: 0 <= i < at ==> !Terminal(was[i].state)
  }

  ghost function Asked(rows: seq<Row>, romId: int, max: nat): Answer {
    if romId <= 0 then UnknownRom
    else if Pending(rows, romId) then Duplicate
    else if !Held(rows, romId) && |rows| >= max && NoneFinished(rows) then Full
    else Ok
  }

  /** `row` goes behind everything that was already waiting, all of which stays and stays in order. */
  ghost predicate Joins(was: seq<Row>, rows: seq<Row>, row: Row, max: nat) {
    && |rows| > 0 && rows[|rows| - 1] == row
    && MakesWay(was, rows[..|rows| - 1], row.romId, max)
    && Unfinished(rows) == Unfinished(was) + [row]
  }

  ghost predicate IsVictim(rows: seq<Row>, at: nat, romId: int, max: nat) {
    if at < |rows| then
      && Terminal(rows[at].state)
      && (rows[at].romId == romId || (!Held(rows, romId) && |rows| >= max && NoneFinished(rows[..at])))
    else at == |rows| && |rows| < max && !Held(rows, romId)
  }

  ghost function Rest(rows: seq<Row>, at: nat): seq<Row> { if at < |rows| then Without(rows, at) else rows }

  lemma VictimMakesWay(rows: seq<Row>, at: nat, romId: int, max: nat, row: Row)
    requires |rows| <= max && Distinct(rows) && IsVictim(rows, at, romId, max) && row.romId == romId && !Terminal(row.state)
    ensures |Rest(rows, at)| < max && !Held(Rest(rows, at), romId) && Joins(rows, Rest(rows, at) + [row], row, max)
  {
    var rest := Rest(rows, at);
    assert (rest + [row])[..|rest|] == rest;
    LastCounts(rest, row);
    if at < |rows| {
      LastIsHeld(rows, at);
      assert forall i :: 0 <= i < at ==> rows[..at][i] == rows[i];
      WithoutKeeps(rows, at, romId);
      FinishedMakesWay(rows, at);
    }
  }

  lemma WithoutIsShorter(rows: seq<Row>, at: nat)
    requires at < |rows|
    ensures |Without(rows, at)| == |rows| - 1
  {
  }

  // ----- Undoing -----

  ghost predicate Fits(rows: seq<Row>, change: Change) {
    var kept := if change.appended then |rows| - 1 else |rows|;
    0 <= kept && (change.row.Some? ==> 0 <= change.at && if change.replaced then change.at < kept else change.at <= kept)
  }

  ghost function Undone(rows: seq<Row>, change: Change): seq<Row>
    requires Fits(rows, change)
  {
    var kept := if change.appended then rows[..|rows| - 1] else rows;
    match change.row
    case None => kept
    case Some(row) => if change.replaced then kept[change.at := row] else kept[..change.at] + [row] + kept[change.at..]
  }

  ghost predicate Undoes(rows: seq<Row>, change: Change, before: seq<Row>) {
    Fits(rows, change) && Undone(rows, change) == before
  }

  lemma UndoTakenOut(rows: seq<Row>, at: nat, change: Change)
    requires at < |rows| && change.row == Some(rows[at]) && change.at == at && !change.replaced && !change.appended
    ensures Undoes(Without(rows, at), change, rows)
  {
    var kept := Without(rows, at);
    assert kept[..at] == rows[..at] && kept[at..] == rows[at + 1..];
  }

  lemma UndoAppended(rows: seq<Row>, row: Row, change: Change, before: seq<Row>)
    requires Undoes(rows, change, before) && !change.appended
    ensures Undoes(rows + [row], change.(appended := true), before)
  {
    assert (rows + [row])[..|rows|] == rows;
  }

  lemma UndoWrittenOver(rows: seq<Row>, at: nat, row: Row, change: Change)
    requires at < |rows| && change == Change(Some(rows[at]), at, true, false)
    ensures Undoes(rows[at := row], change, rows)
  {
    assert rows[at := row][at := rows[at]] == rows;
  }

  datatype Committed = Written | Gone | StoreFailed

  function Forget(noted: int, romId: int): int { if noted == romId then 0 else noted }

  predicate Ready(row: Row, skip: seq<int>) { !Terminal(row.state) && row.romId !in skip }

  ghost predicate TakenOut(was: seq<Row>, rows: seq<Row>, romId: int, removed: Option<Row>) {
    exists at :: 0 <= at < |was| && was[at].romId == romId && rows == Without(was, at) && removed == Some(was[at])
  }

  ghost predicate WrittenOver(was: seq<Row>, rows: seq<Row>, row: Row) {
    exists at :: 0 <= at < |was| && was[at].romId == row.romId && rows == was[at := row]
  }

  ghost predicate Progressed(was: seq<Row>, rows: seq<Row>, romId: int, bytesDone: int) {
    exists at :: 0 <= at < |was| && was[at].romId == romId && was[at].state == Active
                 && rows == was[at := was[at].(bytesDone := bytesDone)]
  }

  ghost function WaitingIds(rows: seq<Row>): set<int> { set row | row in rows && !Terminal(row.state) :: row.romId }

  lemma NotMoving(rows: seq<Row>, at: nat, romId: int)
    requires Distinct(rows) && (at == |rows| ==> !Held(rows, romId))
    requires at <= |rows| && (at < |rows| ==> rows[at].romId == romId && rows[at].state != Active)
    ensures !Moving(rows, romId)
  {
  }

  lemma MovingIsUnfinished(rows: seq<Row>, at: nat, romId: int)
    requires at < |rows| && Distinct(rows) && Terminal(rows[at].state)
    ensures Moving(rows, romId) ==> romId != rows[at].romId
  {
  }

  lemma LiveIsHeld(rows: seq<Row>, live: int)
    ensures Moving(rows, live) ==> Held(rows, live)
  {
  }

  lemma LastIsHeld(rows: seq<Row>, at: nat)
    requires at < |rows|
    ensures Held(rows, rows[at].romId)
    ensures Distinct(rows) ==> (Pending(rows, rows[at].romId) <==> !Terminal(rows[at].state))
  {
  }

  class Queue {
    const max: nat
    var entries: seq<Row>
    var live: int
    var rate: int
    var lastFinished: int

    /** Adopt what a load found: past `max` the tail is dropped. */
    constructor (max: nat, rows: seq<Row>)
      requires Distinct(rows)
      ensures Valid() && this.max == max
      ensures entries == if |rows| > max then rows[..max] else rows
    {
      this.max := max;
      entries := if |rows| > max then rows[..max] else rows;
      live, rate, lastFinished := 0, 0, 0;
    }

    ghost predicate Valid()
      reads this
    {
      |entries| <= max && Distinct(entries) && (live != 0 ==> Moving(entries, live))
    }

    method Find(romId: int) returns (at: nat)
      ensures at <= |entries| && (at < |entries| ==> entries[at].romId == romId)
      ensures at == |entries| <==> !Held(entries, romId)
    {
      at := 0;
      while at < |entries| && entries[at].romId != romId
        invariant at <= |entries| && forall i :: 0 <= i < at ==> entries[i].romId != romId
      {
        at := at + 1;
      }
    }

    method OldestFinished() returns (at: nat)
      ensures at <= |entries| && (at < |entries| ==> Terminal(entries[at].state))
      ensures forall i :: 0 <= i < at ==> !Terminal(entries[i].state)
    {
      at := 0;
      while at < |entries| && !Terminal(entries[at].state)
        invariant at <= |entries| && forall i :: 0 <= i < at ==> !Terminal(entries[i].state)
      {
        at := at + 1;
      }
    }

    method TakeUndo() returns (undo: Undo)
      ensures undo == Undo(Change(None, 0, false, false), live, rate, lastFinished)
    {
      undo := Undo(Change(None, 0, false, false), live, rate, lastFinished);
    }

    /** Put everything back as it was when `undo` was taken. */
    method Restore(undo: Undo)
      requires Fits(entries, undo.change)
      modifies this
      ensures entries == Undone(old(entries), undo.change)
      ensures live == undo.live && rate == undo.rate && lastFinished == undo.lastFinished
    {
      var change := undo.change;
      if change.appended {
        entries := entries[..|entries| - 1];
      }
      if change.row.Some? {
        if change.replaced {
          entries := entries[change.at := change.row.value];
        } else {
          entries := entries[..change.at] + [change.row.value] + entries[change.at..];
        }
      }
      live, rate, lastFinished := undo.live, undo.rate, undo.lastFinished;
    }

    /** The row that makes way for `romId`, or one past the last when none has to. */
    method Victim(romId: int) returns (answer: Answer, at: nat)
      requires |entries| <= max && Distinct(entries) && romId > 0
      ensures answer == Asked(entries, romId, max)
      ensures answer == Ok ==> IsVictim(entries, at, romId, max)
    {
      answer := Ok;
      at := Find(romId);
      if at < |entries| {
        LastIsHeld(entries, at);
        if !Terminal(entries[at].state) {
          answer := Duplicate;
        }
      } else if |entries| >= max {
        at := OldestFinished();
        if at == |entries| {
          answer := Full;
        }
      }
    }

    method MakeRoom(at: nat, romId: int) returns (change: Change)
      requires Valid() && IsVictim(entries, at, romId, max)
      modifies this`entries
      ensures Valid() && entries == Rest(old(entries), at)
      ensures Undoes(entries, change, old(entries)) && !change.appended
    {
      change := Change(None, 0, false, false);
      if at < |entries| {
        hide Undoes, Without;
        change := Change(Some(entries[at]), at, false, false);
        UndoTakenOut(entries, at, change);
        WithoutKeeps(entries, at, live);
        MovingIsUnfinished(entries, at, live);
        WithoutIsShorter(entries, at);
        entries := Without(entries, at);
      }
    }

    method AddLast(row: Row, before: Change, ghost was: seq<Row>) returns (change: Change)
      requires Valid() && |entries| < max && row.romId > 0 && !Terminal(row.state) && !Held(entries, row.romId)
      requires Undoes(entries, before, was) && !before.appended
      modifies this`entries
      ensures Valid() && entries == old(entries) + [row] && Undoes(entries, change, was)
    {
      hide Undoes, Distinct, Moving, Held;
      UndoAppended(entries, row, before, was);
      AppendKeeps(entries, row, live);
      LiveIsHeld(entries, live);
      change := before.(appended := true);
      entries := entries + [row];
    }

    /** Ask for a rom: it goes behind everything that was already waiting, all of which stays. */
    method EnqueueLocked(romId: int, now: int) returns (answer: Answer, position: nat, change: Change)
      requires Valid()
      modifies this`entries
      ensures Valid()
      ensures answer == Asked(old(entries), romId, max) && (answer != Ok ==> entries == old(entries))
      ensures answer == Ok ==> Joins(old(entries), entries, NewRow(romId, now), max) && position == |Unfinished(entries)|
      ensures answer == Ok ==> Undoes(entries, change, old(entries))
      ensures answer == Ok ==> entries != [] && entries[|entries| - 1] == Row(romId, now, Queued, 0, 0, 0, "", "", "", "", "")
    {
      answer, position, change := UnknownRom, 0, Change(None, 0, false, false);
      if romId <= 0 {
        return;
      }
      hide Distinct, Moving, Joins, Undoes, Unfinished, IsVictim, Rest, Asked, Held;
      var at;
      answer, at := Victim(romId);
      if answer != Ok {
        return;
      }
      var row := NewRow(romId, now);
      VictimMakesWay(entries, at, romId, max, row);
      change := MakeRoom(at, romId);
      change := AddLast(row, change, old(entries));
      position := CountUnfinished();
    }

    method CountUnfinished() returns (count: nat)
      ensures count == |Unfinished(entries)|
    {
      count := 0;
      for i := 0 to |entries|
        invariant count == |Unfinished(entries[..i])|
      {
        assert entries[..i + 1][..i] == entries[..i];
        count := count + if Terminal(entries[i].state) then 0 else 1;
      }
      assert entries[..|entries|] == entries;
    }

    /** The first row still to be worked on that `skip` does not set aside. */
    method NextPending(skip: seq<int>) returns (next: Option<Row>)
      ensures next.None? ==> forall row :: row in entries && !Terminal(row.state) ==> row.romId in skip
      ensures next.Some? ==> exists at :: 0 <= at < |entries| && entries[at] == next.value && Ready(entries[at], skip)
                                          && forall i :: 0 <= i < at ==> !Ready(entries[i], skip)
    {
      next := None;
      var at := 0;
      while at < |entries|
        invariant at <= |entries| && forall i :: 0 <= i < at ==> !Ready(entries[i], skip)
      {
        if Ready(entries[at], skip) {
          next := Some(entries[at]);
          return;
        }
        at := at + 1;
      }
    }

    method RemoveLocked(romId: int) returns (answer: Answer, removed: Option<Row>, change: Change)
      requires Valid()
      modifies this
      ensures Valid() && answer == if Held(old(entries), romId) then Ok else NotQueued
      ensures answer == NotQueued ==> entries == old(entries) && live == old(live) && rate == old(rate) && lastFinished == old(lastFinished)
      ensures answer == Ok ==> TakenOut(old(entries), entries, romId, removed) && Undoes(entries, change, old(entries))
      ensures answer == Ok ==> lastFinished == Forget(old(lastFinished), romId)
                               && live == Forget(old(live), romId) && rate == if romId == old(live) then 0 else old(rate)
    {
      answer, removed, change := NotQueued, None, Change(None, 0, false, false);
      var at := Find(romId);
      if at == |entries| {
        return;
      }
      hide Undoes, Distinct, Moving, Held, Without;
      answer, removed, change := Ok, Some(entries[at]), Change(Some(entries[at]), at, false, false);
      UndoTakenOut(entries, at, change);
      WithoutKeeps(entries, at, live);
      WithoutIsShorter(entries, at);
      entries := Without(entries, at);
      if romId == lastFinished {
        lastFinished := 0;
      }
      if romId == live {
        live, rate := 0, 0;
      }
    }

    /** Write a row back over the one with its id: not when that one is gone. */
    method UpdateLocked(row: Row) returns (found: bool, change: Change)
      requires Valid()
      modifies this
      ensures Valid() && found == Held(old(entries), row.romId)
      ensures !found ==> entries == old(entries) && live == old(live) && rate == old(rate) && lastFinished == old(lastFinished)
      ensures found ==> WrittenOver(old(entries), entries, row) && Undoes(entries, change, old(entries))
      ensures found ==> lastFinished == if Terminal(row.state) then row.romId else old(lastFinished)
      ensures found ==> live == Forget(old(live), row.romId) && rate == if row.romId == old(live) then 0 else old(rate)
    {
      change := Change(None, 0, false, false);
      var at := Find(row.romId);
      found := at < |entries|;
      if !found {
        return;
      }
      hide Undoes, Distinct, Moving, Held;
      change := Change(Some(entries[at]), at, true, false);
      UndoWrittenOver(entries, at, row, change);
      ReplaceKeeps(entries, at, row, live);
      entries := entries[at := row];
      if Terminal(row.state) {
        lastFinished := row.romId;
      }
      if row.romId == live {
        live, rate := 0, 0;
      }
    }

    /** How far a transfer has got: only onto a row that is being fetched. */
    method ReportProgress(romId: int, bytesDone: int, bytesPerSecond: int)
      requires Valid()
      modifies this
      ensures Valid() && lastFinished == old(lastFinished)
      ensures if Moving(old(entries), romId)
              then Progressed(old(entries), entries, romId, bytesDone) && live == romId && rate == bytesPerSecond
              else entries == old(entries) && live == old(live) && rate == old(rate)
    {
      var at := Find(romId);
      if at == |entries| || entries[at].state != Active {
        NotMoving(entries, at, romId);
        return;
      }
      var row := entries[at].(bytesDone := bytesDone);
      ReplaceKeeps(entries, at, row, romId);
      assert entries[at] in entries;
      entries := entries[at := row];
      assert entries[at] == row && row in entries;
      live, rate := romId, bytesPerSecond;
    }

    // ----- Changes with their writes -----

    method EnqueueAndStore(romId: int, now: int, store: Store) returns (answer: Answer, position: nat)
      requires Valid()
      modifies this, store
      ensures Valid() && live == old(live) && rate == old(rate) && lastFinished == old(lastFinished)
      ensures store.obliging ==> answer == Asked(old(entries), romId, max)
      ensures answer == Asked(old(entries), romId, max) || (answer == WriteFailed && Asked(old(entries), romId, max) == Ok)
      ensures answer == Ok ==> Joins(old(entries), entries, NewRow(romId, now), max) && store.saved == entries
                               && position == |Unfinished(entries)|
      ensures answer != Ok ==> entries == old(entries) && store.saved == old(store.saved)
    {
      hide Distinct, Moving, Joins, Unfinished, Asked, Held;
      var undo := TakeUndo();
      var change;
      answer, position, change := EnqueueLocked(romId, now);
      undo := undo.(change := change);
      if answer != Ok {
        return;
      }
      var stored := store.Save(entries);
      if !stored {
        Restore(undo);
        answer := WriteFailed;
      }
    }

    method RemoveAndStore(romId: int, store: Store) returns (answer: Answer, removed: Option<Row>)
      requires Valid()
      modifies this, store
      ensures Valid() && answer in {Ok, NotQueued, WriteFailed} && (answer == NotQueued <==> !Held(old(entries), romId))
      ensures store.obliging ==> answer != WriteFailed
      ensures answer == Ok ==> TakenOut(old(entries), entries, romId, removed) && store.saved == entries
      ensures answer == Ok ==> lastFinished == Forget(old(lastFinished), romId)
                               && live == Forget(old(live), romId) && rate == if romId == old(live) then 0 else old(rate)
      ensures answer != Ok ==> entries == old(entries) && store.saved == old(store.saved)
                               && live == old(live) && rate == old(rate) && lastFinished == old(lastFinished)
    {
      hide Distinct, Moving, Held, TakenOut;
      var undo := TakeUndo();
      var change;
      answer, removed, change := RemoveLocked(romId);
      undo := undo.(change := change);
      if answer != Ok {
        return;
      }
      var stored := store.Save(entries);
      if !stored {
        Restore(undo);
        answer := WriteFailed;
      }
    }

    method UpdateAndStore(row: Row, store: Store) returns (answer: Committed)
      requires Valid()
      modifies this, store
      ensures Valid() && (answer == Gone <==> !Held(old(entries), row.romId))
      ensures store.obliging ==> answer != StoreFailed
      ensures answer == Written ==> WrittenOver(old(entries), entries, row) && store.saved == entries
      ensures answer == Written ==> lastFinished == (if Terminal(row.state) then row.romId else old(lastFinished))
                                    && live == Forget(old(live), row.romId) && rate == if row.romId == old(live) then 0 else old(rate)
      ensures answer != Written ==> entries == old(entries) && store.saved == old(store.saved)
                                    && live == old(live) && rate == old(rate) && lastFinished == old(lastFinished)
    {
      hide Distinct, Moving, Held, WrittenOver;
      var undo := TakeUndo();
      var found, change := UpdateLocked(row);
      undo := undo.(change := change);
      if !found {
        answer := Gone;
        return;
      }
      answer := Written;
      var stored := store.Save(entries);
      if !stored {
        Restore(undo);
        answer := StoreFailed;
      }
    }
  }

  // ----- Over any run -----

  lemma MirrorsItself(rows: seq<Row>)
    ensures Mirrors(rows, rows)
  {
  }

  lemma ProgressMirrors(was: seq<Row>, rows: seq<Row>, saved: seq<Row>, romId: int, bytesDone: int)
    requires Mirrors(was, saved) && Progressed(was, rows, romId, bytesDone)
    ensures Mirrors(rows, saved)
  {
  }

  /** What waits for another rom than `romId` still waits. */
  ghost predicate OthersStay(was: seq<Row>, rows: seq<Row>, romId: int) {
    forall row :: row in was && !Terminal(row.state) && row.romId != romId ==> row in rows
  }

  lemma JoiningKeepsOthers(was: seq<Row>, rows: seq<Row>, row: Row, max: nat)
    requires Joins(was, rows, row, max)
    ensures forall r :: r in was && !Terminal(r.state) ==> r in rows
    ensures WaitingIds(rows) <= WaitingIds(was) + {row.romId}
  {
    hide Unfinished;
    forall r ensures r in Unfinished(was) <==> r in was && !Terminal(r.state)
      ensures r in Unfinished(rows) <==> r in rows && !Terminal(r.state)
    {
      UnfinishedArePending(was, r);
      UnfinishedArePending(rows, r);
    }
  }

  lemma TakingOutKeepsOthers(was: seq<Row>, rows: seq<Row>, romId: int, removed: Option<Row>)
    requires TakenOut(was, rows, romId, removed)
    ensures OthersStay(was, rows, romId) && WaitingIds(rows) <= WaitingIds(was)
  {
    var at :| 0 <= at < |was| && was[at].romId == romId && rows == Without(was, at) && removed == Some(was[at]);
    forall row ensures row in rows ==> row in was ensures row in was && row != was[at] ==> row in rows {
      WithoutMembers(was, at, row);
    }
  }

  lemma WritingOverKeepsOthers(was: seq<Row>, rows: seq<Row>, row: Row)
    requires WrittenOver(was, rows, row) && Distinct(was)
    ensures OthersStay(was, rows, row.romId) && WaitingIds(rows) <= WaitingIds(was) + {row.romId}
    ensures Terminal(row.state) ==> row.romId !in WaitingIds(rows)
  {
    var at :| 0 <= at < |was| && was[at].romId == row.romId && rows == was[at := row];
    assert forall i :: 0 <= i < |was| && i != at ==> rows[i] == was[i] && rows[i] in rows;
  }

  lemma ProgressKeepsOthers(was: seq<Row>, rows: seq<Row>, romId: int, bytesDone: int)
    requires Progressed(was, rows, romId, bytesDone)
    ensures OthersStay(was, rows, romId) && WaitingIds(rows) <= WaitingIds(was)
  {
    var at :| 0 <= at < |was| && was[at].romId == romId && was[at].state == Active && rows == was[at := was[at].(bytesDone := bytesDone)];
    assert forall i :: 0 <= i < |was| && i != at ==> rows[i] == was[i] && rows[i] in rows;
    assert was[at] in was;
  }

  lemma ProgressKeepsHeld(was: seq<Row>, rows: seq<Row>, romId: int, bytesDone: int)
    requires Progressed(was, rows, romId, bytesDone)
    ensures forall id :: Held(was, id) ==> Held(rows, id)
  {
    var at :| 0 <= at < |was| && was[at].romId == romId && was[at].state == Active && rows == was[at := was[at].(bytesDone := bytesDone)];
    forall id | Held(was, id) ensures Held(rows, id) { ReplaceKeeps(was, at, was[at].(bytesDone := bytesDone), id); }
  }

  datatype Request =
    | Enqueue(romId: int, now: int)
    | Remove(romId: int)
    | Update(row: Row)
    | Progress(romId: int, bytesDone: int, rate: int)

  /** The rom a request may take from what waits, or change; asking for one never does. */
  ghost predicate Touches(request: Request, romId: int) {
    match request
    case Enqueue(_, _) => false
    case Remove(id) => id == romId
    case Update(row) => row.romId == romId
    case Progress(id, _, _) => id == romId
  }

  ghost predicate Named(requests: seq<Request>, romId: int) { exists request :: request in requests && Touches(request, romId) }

  method Serve(queue: Queue, store: Store, request: Request)
    requires queue.Valid() && Mirrors(queue.entries, store.saved)
    modifies queue, store
    ensures queue.Valid() && Mirrors(queue.entries, store.saved)
    ensures forall row :: row in old(queue.entries) && !Terminal(row.state) && !Touches(request, row.romId) ==> row in queue.entries
    ensures request.Remove? || request.Progress? ==> WaitingIds(queue.entries) <= old(WaitingIds(queue.entries))
    ensures request.Progress? ==> forall id :: Held(old(queue.entries), id) ==> Held(queue.entries, id)
  {
    hide Mirrors, Distinct, Moving, Joins, Held, TakenOut, WrittenOver, Progressed, WaitingIds;
    ghost var was, saved := queue.entries, store.saved;
    match request
    case Enqueue(romId, now) =>
      var answer, position := queue.EnqueueAndStore(romId, now, store);
      if answer == Ok { JoiningKeepsOthers(was, queue.entries, NewRow(romId, now), queue.max); MirrorsItself(queue.entries); }
    case Remove(romId) =>
      var answer, removed := queue.RemoveAndStore(romId, store);
      if answer == Ok { TakingOutKeepsOthers(was, queue.entries, romId, removed); MirrorsItself(queue.entries); }
    case Update(row) =>
      var answer := queue.UpdateAndStore(row, store);
      if answer == Written { WritingOverKeepsOthers(was, queue.entries, row); MirrorsItself(queue.entries); }
    case Progress(romId, bytesDone, rate) =>
      queue.ReportProgress(romId, bytesDone, rate);
      if Moving(was, romId) {
        ProgressMirrors(was, queue.entries, saved, romId, bytesDone);
        ProgressKeepsOthers(was, queue.entries, romId, bytesDone);
        ProgressKeepsHeld(was, queue.entries, romId, bytesDone);
      }
  }

  /** Any interleaving of two threads' locked steps, with any writes refused: ids stay distinct and
      positive and within the bound, the live id names a row being fetched, the file is what memory
      was at the last write, and an unfinished row goes only when it is asked to. */
  method ServeAll(queue: Queue, store: Store, requests: seq<Request>)
    requires queue.Valid() && Mirrors(queue.entries, store.saved)
    modifies queue, store
    ensures queue.Valid() && Mirrors(queue.entries, store.saved)
    ensures forall row :: row in old(queue.entries) && !Terminal(row.state) && !Named(requests, row.romId) ==> row in queue.entries
  {
    hide Mirrors;
    for i := 0 to |requests|
      invariant queue.Valid() && Mirrors(queue.entries, store.saved)
      invariant forall row :: row in old(queue.entries) && !Terminal(row.state) && !Named(requests[..i], row.romId) ==> row in queue.entries
    {
      assert requests[..i + 1] == requests[..i] + [requests[i]];
      Serve(queue, store, requests[i]);
    }
    assert requests[..|requests|] == requests;
  }
}
