/** The list cursors of core/src/list_service.cpp: two threads, the commands' and the worker's, share
    them under one lock, and every cursor must still be given each row of its list exactly once. */
module ListService {
  import opened Options

  type Row = int // a row is known by its id here

  datatype Kind = Roms | Platforms

  datatype Request = Request(kind: Kind, platformId: int, search: string, pageSize: int)

  datatype Error = Ok | BadCursor | TooLarge | Offline | Internal | NotConfigured

  datatype Page = Page(items: seq<Row>, hasMore: bool, pending: bool)

  const BLANK := Page([], false, false)

  datatype Fetch = Idle | Running | Ready | Failed

  datatype Entry = Entry(id: nat, request: Request, offset: nat, fetch: Fetch, failure: Error, ready: Page,
                         platforms: seq<Row>, loaded: bool, exhausted: bool, touched: int, failures: nat, notBefore: int)

  const MAX_CURSORS: nat := 4
  const MAX_PLATFORMS: nat := 256
  const MAX_PAGE_SIZE: nat := 64
  const MAX_ROWS_STEPPED: nat := 4
  const CURSOR_TTL: int := 90

  // ----- The rows a cursor was given -----

  /** The rows before `upTo` that were not stepped over, in order. */
  function Given(list: seq<Row>, upTo: nat, stepped: set<nat>): seq<Row>
    requires upTo <= |list|
  {
    if upTo == 0 then []
    else Given(list, upTo - 1, stepped) + if upTo - 1 in stepped then [] else [list[upTo - 1]]
  }

  /** Handing over the next rows. */
  lemma {:induction false} GiveMore(list: seq<Row>, upTo: nat, stepped: set<nat>, n: nat)
    requires upTo + n <= |list| && forall i :: i in stepped ==> i < upTo
    ensures Given(list, upTo + n, stepped) == Given(list, upTo, stepped) + list[upTo..upTo + n]
  {
    if n > 0 {
      GiveMore(list, upTo, stepped, n - 1);
      assert list[upTo..upTo + n] == list[upTo..upTo + n - 1] + [list[upTo + n - 1]];
    }
  }

  /** Stepping over the next rows. */
  lemma {:induction false} StepOver(list: seq<Row>, upTo: nat, stepped: set<nat>, n: nat)
    requires upTo + n <= |list| && forall i :: i in stepped ==> i < upTo
    ensures Given(list, upTo + n, stepped + Range(upTo, n)) == Given(list, upTo, stepped)
  {
    if n > 0 {
      StepOver(list, upTo, stepped, n - 1);
      SteppedLater(list, upTo + n - 1, stepped + Range(upTo, n - 1), stepped + Range(upTo, n));
    } else {
      assert stepped + Range(upTo, 0) == stepped;
    }
  }

  function Range(from: nat, n: nat): (r: set<nat>)
    ensures forall i :: i in r <==> from <= i < from + n
  {
    if n == 0 then {} else Range(from, n - 1) + {from + n - 1}
  }

  lemma {:induction false} SteppedLater(list: seq<Row>, upTo: nat, a: set<nat>, b: set<nat>)
    requires upTo <= |list| && forall i: nat :: i < upTo ==> (i in a <==> i in b)
    ensures Given(list, upTo, a) == Given(list, upTo, b)
  {
    if upTo > 0 { SteppedLater(list, upTo - 1, a, b); }
  }

  ghost predicate Ascending(s: seq<Row>) { forall i, j :: 0 <= i < j < |s| ==> s[i] < s[j] }

  lemma {:induction false} GivenFrom(list: seq<Row>, upTo: nat, stepped: set<nat>, k: nat) returns (i: nat)
    requires upTo <= |list| && k < |Given(list, upTo, stepped)|
    ensures i < upTo && Given(list, upTo, stepped)[k] == list[i] && i !in stepped
  {
    if k == |Given(list, upTo - 1, stepped)| {
      i := upTo - 1;
    } else {
      i := GivenFrom(list, upTo - 1, stepped, k);
    }
  }

  /** A list ordered by id is given in order and without repeats. */
  lemma {:induction false} GivenAscends(list: seq<Row>, upTo: nat, stepped: set<nat>)
    requires upTo <= |list| && Ascending(list)
    ensures Ascending(Given(list, upTo, stepped))
  {
    if upTo > 0 {
      GivenAscends(list, upTo - 1, stepped);
      var before := Given(list, upTo - 1, stepped);
      forall k | 0 <= k < |before| ensures before[k] < list[upTo - 1] {
        var i := GivenFrom(list, upTo - 1, stepped, k);
      }
    }
  }

  /** Every row before `upTo` is given or was stepped over. */
  lemma {:induction false} GivenMisses(list: seq<Row>, upTo: nat, stepped: set<nat>, i: nat)
    requires i < upTo <= |list|
    ensures i in stepped || list[i] in Given(list, upTo, stepped)
  {
    if i < upTo - 1 { GivenMisses(list, upTo - 1, stepped, i); }
  }

  // ----- The server -----

  datatype Answer = TooMuch | Unreached | Unreadable | Rows(rows: seq<Row>, total: nat)

  function Slice(list: seq<Row>, offset: nat, limit: nat): seq<Row> {
    if offset >= |list| then [] else if offset + limit <= |list| then list[offset..offset + limit] else list[offset..]
  }

  datatype Outcome = Refused(why: Error) | Fetched(stepped: nat, limit: nat, rows: seq<Row>, total: nat)

  /** What a fetch from `offset` may come to: rows from there on, past none but the oversized. */
  ghost predicate FetchOk(list: seq<Row>, oversized: set<Row>, offset: nat, outcome: Outcome) {
    outcome.Fetched? ==>
      && offset + outcome.stepped <= |list|
      && (forall i :: offset <= i < offset + outcome.stepped ==> list[i] in oversized)
      && outcome.total == |list|
      && outcome.limit > 0 && outcome.rows == Slice(list, offset + outcome.stepped, outcome.limit)
  }

  class Server {
    /** Each list, fixed and in the order it is paged in. */
    const list: Request -> seq<Row>
    /** The rows too large to be returned alone. */
    const oversized: set<Row>

    /** Whether every request is answered: with the rows asked for, or that these are too much for one answer. */
    const steady: bool
    /** Which rows an answer can hold. */
    const takes: seq<Row> -> bool

    /** An answer that can hold rows can hold each of them alone, and those it cannot are the oversized. */
    ghost predicate Weighs() {
      && takes([]) && (forall r: Row :: r in oversized <==> !takes([r]))
      && forall rows, k :: 0 <= k < |rows| && takes(rows) ==> rows[k] !in oversized
    }

    /** What a server that always answers has an answer to: a rom page that is not behind more oversized rows than are
        stepped over, and a platform list that one answer can hold. */
    ghost predicate Answerable(asked: Request, offset: nat) {
      if asked.kind == Roms then !LongRun(list(asked), oversized, offset) else takes(list(asked))
    }

    lemma Alone(row: Row, rows: seq<Row>)
      requires rows == [row]
      ensures Weighs() ==> (takes(rows) <==> row !in oversized)
    {
      assert takes([row]) == takes(rows);
    }

    /** One request. It may fail; an answer is the slice asked for; and one row is answered as too
        much only when it is too large on its own. */
    method Send(asked: Request, limit: nat, offset: nat) returns (answer: Answer)
      requires limit > 0
      ensures answer.TooMuch? && limit == 1 ==> offset < |list(asked)| && list(asked)[offset] in oversized
      ensures answer.Rows? ==> answer.rows == Slice(list(asked), offset, limit) && answer.total == |list(asked)|
      ensures steady ==> answer.Rows? || answer.TooMuch?
      ensures steady && Weighs() ==> (answer.Rows? <==> takes(Slice(list(asked), offset, limit)))
    {
      var reached: bool, readable: bool, tooMuch: bool := *, *, *;
      if steady {
        reached, readable, tooMuch := true, true, !takes(Slice(list(asked), offset, limit));
      }
      if !reached {
        return Unreached;
      }
      if !readable {
        return Unreadable;
      }
      if limit == 1 && offset < |list(asked)| { Alone(list(asked)[offset], Slice(list(asked), offset, limit)); }
      if tooMuch && (limit > 1 || (offset < |list(asked)| && list(asked)[offset] in oversized)) {
        return TooMuch;
      }
      answer := Rows(Slice(list(asked), offset, limit), |list(asked)|);
    }

    constructor (list: Request -> seq<Row>, oversized: set<Row>, steady: bool, takes: seq<Row> -> bool)
      ensures this.list == list && this.oversized == oversized && this.steady == steady && this.takes == takes
    {
      this.list, this.oversized, this.steady, this.takes := list, oversized, steady, takes;
    }
  }

  /** `limit` is `size`, halved as often as need be. */
  ghost predicate Halves(size: nat, limit: nat) { limit == size || (size > 1 && Halves(size / 2, limit)) }

  lemma {:induction false} HalvesMore(size: nat, limit: nat)
    requires Halves(size, limit) && limit > 1
    ensures Halves(size, limit / 2)
  {
    if limit == size {
      assert Halves(size / 2, limit / 2);
    } else {
      HalvesMore(size / 2, limit);
    }
  }

  lemma HalvesAtMost(size: nat)
    ensures forall limit: nat :: Halves(size, limit) ==> limit <= size
  {
    forall limit: nat | Halves(size, limit) ensures limit <= size { HalfAtMost(size, limit); }
  }

  lemma {:induction false} HalfAtMost(size: nat, limit: nat)
    requires Halves(size, limit)
    ensures limit <= size
  {
    if limit != size { HalfAtMost(size / 2, limit); }
  }

  /** Between a limit and its half there is none. */
  lemma HalvesBetween(size: nat, limit: nat)
    requires Halves(size, limit)
    ensures forall other: nat :: Halves(size, other) && other > limit / 2 ==> other >= limit
  {
    forall other: nat | Halves(size, other) && other > limit / 2 ensures other >= limit { HalfBetween(size, limit, other); }
  }

  lemma {:induction false} HalfBetween(size: nat, limit: nat, other: nat)
    requires Halves(size, limit) && Halves(size, other) && other > limit / 2
    ensures other >= limit
  {
    HalfAtMost(size, limit);
    if other != size {
      HalfAtMost(size / 2, other);
      if limit != size { HalfBetween(size / 2, limit, other); }
    }
  }

  /** An answer holds no more rows from here on, at any of the limits that are tried. */
  ghost predicate NoneLarger(server: Server, asked: Request, offset: nat, limit: nat)
    requires asked.pageSize >= 0
  {
    forall larger: nat :: Halves(asked.pageSize, larger) && larger > limit ==> !server.takes(Slice(server.list(asked), offset, larger))
  }

  lemma NoneFull(server: Server, asked: Request, offset: nat)
    requires asked.pageSize >= 1
    ensures Halves(asked.pageSize, asked.pageSize) && NoneLarger(server, asked, offset, asked.pageSize)
  {
    HalvesAtMost(asked.pageSize);
  }

  lemma NoneHalved(server: Server, asked: Request, offset: nat, limit: nat)
    requires asked.pageSize >= 1 && Halves(asked.pageSize, limit) && limit > 1
    ensures Halves(asked.pageSize, limit / 2)
    ensures NoneLarger(server, asked, offset, limit) && !server.takes(Slice(server.list(asked), offset, limit)) ==>
              NoneLarger(server, asked, offset, limit / 2)
  {
    hide Halves, Slice;
    HalvesMore(asked.pageSize, limit);
    HalvesBetween(asked.pageSize, limit);
  }

  /** From here on come more oversized rows than are stepped over. */
  ghost predicate LongRun(list: seq<Row>, oversized: set<Row>, offset: nat) {
    offset + MAX_ROWS_STEPPED < |list| && forall i :: offset <= i <= offset + MAX_ROWS_STEPPED ==> list[i] in oversized
  }

  /** One page's rows: at half the rows each time they are too much, stepping past a row that is too
      much alone, a bounded number of times. */
  method FetchRoms(server: Server, asked: Request, offset: nat) returns (outcome: Outcome)
    requires asked.pageSize >= 1 && offset <= |server.list(asked)|
    ensures FetchOk(server.list(asked), server.oversized, offset, outcome)
    ensures outcome.Refused? ==> outcome.why != Ok
    ensures outcome.Fetched? ==> outcome.stepped <= MAX_ROWS_STEPPED && Halves(asked.pageSize, outcome.limit)
    ensures server.steady && server.Weighs() ==> (outcome.Fetched? <==> !LongRun(server.list(asked), server.oversized, offset))
    ensures server.steady && server.Weighs() && outcome.Fetched? ==> NoneLarger(server, asked, offset + outcome.stepped, outcome.limit)
  {
    hide Slice, NoneLarger, Halves;
    var limit: nat, stepped: nat := asked.pageSize, 0;
    NoneFull(server, asked, offset);
    while true
      invariant limit > 0 && offset + stepped <= |server.list(asked)|
      invariant forall i :: offset <= i < offset + stepped ==> server.list(asked)[i] in server.oversized
      invariant stepped <= MAX_ROWS_STEPPED && Halves(asked.pageSize, limit)
      invariant server.steady && server.Weighs() ==> NoneLarger(server, asked, offset + stepped, limit)
      decreases MAX_ROWS_STEPPED - stepped, limit
    {
      var answer := server.Send(asked, limit, offset + stepped);
      match answer {
        case Unreached => return Refused(Offline);
        case Unreadable => return Refused(Internal);
        case Rows(rows, total) =>
          if offset + stepped < |server.list(asked)| { SliceStarts(server.list(asked), offset + stepped, limit); }
          return Fetched(stepped, limit, rows, total);
        case TooMuch =>
          if limit > 1 {
            NoneHalved(server, asked, offset + stepped, limit);
            limit := limit / 2;
          } else if stepped < MAX_ROWS_STEPPED {
            stepped := stepped + 1;
            NoneFull(server, asked, offset + stepped);
            limit := asked.pageSize;
          } else {
            return Refused(Internal);
          }
      }
    }
  }

  lemma SliceStarts(list: seq<Row>, offset: nat, limit: nat)
    requires offset < |list| && limit > 0
    ensures |Slice(list, offset, limit)| > 0 && Slice(list, offset, limit)[0] == list[offset]
  {
  }

  /** As many of the rows as a page takes, and fit in it one after the other. */
  ghost predicate TakesAllThatFit(rows: seq<Row>, pageSize: int, fits: (seq<Row>, Row) -> bool, items: seq<Row>) {
    && items <= rows && |items| <= (if pageSize > 0 then pageSize else 0) && (forall k :: 0 <= k < |items| ==> fits(rows[..k], rows[k]))
    && (|items| == |rows| || |items| >= pageSize || !fits(items, rows[|items|]))
  }

  /** The page built of what was fetched: as many rows as fit, and whether there are more. */
  ghost predicate IsRomPage(list: seq<Row>, from: nat, page: Page) {
    && from + |page.items| <= |list| && page.items == list[from..from + |page.items|]
    && page.hasMore == (from + |page.items| < |list|) && !page.pending
  }

  method BuildRomPage(rows: seq<Row>, total: nat, offset: nat, pageSize: int, fits: (seq<Row>, Row) -> bool, ghost list: seq<Row>, ghost limit: nat)
    returns (page: Page)
    requires offset <= |list| && total == |list| && limit > 0 && rows == Slice(list, offset, limit)
    ensures IsRomPage(list, offset, page) && TakesAllThatFit(rows, pageSize, fits, page.items)
  {
    var items: seq<Row> := [];
    while |items| < |rows| && |items| < pageSize && fits(items, rows[|items|])
      invariant |items| <= |rows| && items == rows[..|items|] && |items| <= (if pageSize > 0 then pageSize else 0)
      invariant forall k :: 0 <= k < |items| ==> fits(rows[..k], rows[k])
      decreases |rows| - |items|
    {
      items := items + [rows[|items|]];
    }
    assert items == list[offset..offset + |items|];
    page := Page(items, rows != [] && (|items| < |rows| || offset + |items| < total), false);
  }

  /** A page that takes any one row has one, if one is left. */
  lemma TakesOne(list: seq<Row>, from: nat, limit: nat, rows: seq<Row>, pageSize: int, fits: (seq<Row>, Row) -> bool, page: Page)
    requires limit > 0 && rows == Slice(list, from, limit) && pageSize > 0 && (forall row :: fits([], row))
    requires IsRomPage(list, from, page) && TakesAllThatFit(rows, pageSize, fits, page.items)
    ensures page.items != [] || !page.hasMore
  {
    if from < |list| {
      SliceStarts(list, from, limit);
      assert fits([], rows[0]);
    }
  }

  // ----- The shared state -----

  ghost predicate IsRequest(r: Request) { 1 <= r.pageSize <= MAX_PAGE_SIZE }

  /** The list a cursor pages: a platform list is kept to its bound. */
  function ListOf(list: Request -> seq<Row>, r: Request): seq<Row> {
    if r.kind == Platforms && |list(r)| > MAX_PLATFORMS then list(r)[..MAX_PLATFORMS] else list(r)
  }

  ghost predicate SteppedOk(list: seq<Row>, oversized: set<Row>, upTo: nat, stepped: set<nat>)
    requires upTo <= |list|
  {
    forall i :: i in stepped ==> i < upTo && list[i] in oversized
  }

  /** What one cursor was given is its list up to its offset, but for rows too large to be returned
      alone; and what waits for it starts there. */
  ghost predicate EntryOk(list: Request -> seq<Row>, oversized: set<Row>, e: Entry, received: seq<Row>, stepped: set<nat>) {
    var rows := ListOf(list, e.request);
    && IsRequest(e.request) && e.offset <= |rows|
    && SteppedOk(rows, oversized, e.offset, stepped)
    && received == Given(rows, e.offset, stepped)
    && (e.request.kind == Roms && e.fetch == Ready ==> IsRomPage(rows, e.offset, e.ready))
    && (e.request.kind == Roms && e.exhausted ==> e.offset == |rows|)
    && (e.loaded ==> e.request.kind == Platforms && e.fetch == Idle)
    && (e.fetch == Failed || e.failures > 0 ==> e.failure != Ok)
    && (e.request.kind == Platforms && (e.loaded || e.fetch == Ready) ==> e.platforms == rows)
  }

  /** Whether a cursor holds a built page or a snapshot. */
  predicate Holds(e: Entry) { e.fetch == Ready || e.loaded || e.ready.items != [] || e.platforms != [] }

  /** The cursors not left untouched for too long. */
  function Live(cursors: seq<Entry>, now: int): seq<Entry> {
    if cursors == [] then [] else (if now - cursors[0].touched >= CURSOR_TTL then [] else [cursors[0]]) + Live(cursors[1..], now)
  }

  /** The first of those touched longest ago. */
  ghost predicate IsOldest(cursors: seq<Entry>, i: nat) {
    && i < |cursors|
    && (forall k :: 0 <= k < |cursors| ==> cursors[i].touched <= cursors[k].touched)
    && (forall k :: 0 <= k < i ==> cursors[i].touched < cursors[k].touched)
  }

  function WithoutAt(cursors: seq<Entry>, i: nat): seq<Entry>
    requires i < |cursors|
  {
    cursors[..i] + cursors[i + 1..]
  }

  /** What is kept when one more is to be held. */
  ghost predicate MakesRoom(cursors: seq<Entry>, kept: seq<Entry>) {
    if |cursors| < MAX_CURSORS then kept == cursors else exists i :: IsOldest(cursors, i) && kept == WithoutAt(cursors, i)
  }

  lemma LiveFrom(cursors: seq<Entry>, i: nat, now: int)
    requires i < |cursors|
    ensures now - cursors[i].touched >= CURSOR_TTL ==> Live(cursors[i..], now) == Live(WithoutAt(cursors, i)[i..], now)
    ensures now - cursors[i].touched < CURSOR_TTL ==> Live(cursors[i..], now) == [cursors[i]] + Live(cursors[i + 1..], now)
  {
    assert cursors[i..][1..] == cursors[i + 1..] && WithoutAt(cursors, i)[i..] == cursors[i + 1..];
  }

  datatype Job = Job(id: nat, request: Request, offset: nat)

  ghost predicate CursorsOk(list: Request -> seq<Row>, oversized: set<Row>, cursors: seq<Entry>, nextId: nat,
                            received: map<nat, seq<Row>>, stepped: map<nat, set<nat>>) {
    forall i :: 0 <= i < |cursors| ==>
      && cursors[i].id < nextId && cursors[i].id in received && cursors[i].id in stepped
      && EntryOk(list, oversized, cursors[i], received[cursors[i].id], stepped[cursors[i].id])
  }

  ghost predicate InOrder(cursors: seq<Entry>) {
    forall i, k :: 0 <= i < k < |cursors| ==> cursors[i].id < cursors[k].id
  }

  /** While the worker is out, its own cursor, if it is still open, waits for what was asked; and no
      other cursor of that kind holds anything. */
  ghost predicate JobOk(list: Request -> seq<Row>, cursors: seq<Entry>, job: Option<Job>) {
    job.Some? ==>
      var j := job.value;
      && IsRequest(j.request) && j.offset <= |ListOf(list, j.request)|
      && (forall i :: 0 <= i < |cursors| && cursors[i].id == j.id ==>
            cursors[i].request == j.request && cursors[i].fetch == Running && cursors[i].offset == j.offset)
      && (forall i :: 0 <= i < |cursors| && cursors[i].request.kind == j.request.kind && cursors[i].id != j.id ==> !Holds(cursors[i]))
  }

  /** One cursor of each kind holds a built page or a snapshot, at most. */
  ghost predicate OneHolder(cursors: seq<Entry>) {
    forall i, k :: 0 <= i < k < |cursors| && cursors[i].request.kind == cursors[k].request.kind ==> !Holds(cursors[i]) || !Holds(cursors[k])
  }

  lemma Removed(list: Request -> seq<Row>, oversized: set<Row>, cursors: seq<Entry>, nextId: nat, job: Option<Job>,
                received: map<nat, seq<Row>>, stepped: map<nat, set<nat>>, i: nat)
    requires i < |cursors| && CursorsOk(list, oversized, cursors, nextId, received, stepped)
    requires InOrder(cursors) && JobOk(list, cursors, job) && OneHolder(cursors)
    ensures var r := cursors[..i] + cursors[i + 1..];
            CursorsOk(list, oversized, r, nextId, received, stepped) && InOrder(r) && JobOk(list, r, job) && OneHolder(r)
  {
    hide EntryOk, Holds;
    var r := cursors[..i] + cursors[i + 1..];
    assert forall k :: 0 <= k < |r| ==> r[k] == cursors[if k < i then k else k + 1];
  }

  lemma Changed(list: Request -> seq<Row>, oversized: set<Row>, cursors: seq<Entry>, nextId: nat, job: Option<Job>,
                received: map<nat, seq<Row>>, stepped: map<nat, set<nat>>, i: nat, e: Entry, given: seq<Row>, over: set<nat>)
    requires i < |cursors| && CursorsOk(list, oversized, cursors, nextId, received, stepped)
    requires InOrder(cursors) && JobOk(list, cursors, job) && OneHolder(cursors)
    requires e.id == cursors[i].id && e.request == cursors[i].request && EntryOk(list, oversized, e, given, over)
    requires Holds(e) && !Holds(cursors[i]) ==>
               job.None? && forall k :: 0 <= k < |cursors| && k != i && cursors[k].request.kind == e.request.kind ==> !Holds(cursors[k])
    requires job.Some? && job.value.id == e.id ==> e.fetch == Running && e.offset == job.value.offset
    ensures var r := cursors[i := e];
            CursorsOk(list, oversized, r, nextId, received[e.id := given], stepped[e.id := over]) && InOrder(r) && JobOk(list, r, job) && OneHolder(r)
  {
    hide EntryOk, Holds;
  }

  lemma Appended(list: Request -> seq<Row>, oversized: set<Row>, cursors: seq<Entry>, nextId: nat, job: Option<Job>,
                 received: map<nat, seq<Row>>, stepped: map<nat, set<nat>>, e: Entry)
    requires CursorsOk(list, oversized, cursors, nextId, received, stepped)
    requires InOrder(cursors) && JobOk(list, cursors, job) && OneHolder(cursors)
    requires e.id == nextId && (job.Some? ==> job.value.id < nextId) && !Holds(e) && EntryOk(list, oversized, e, [], {})
    ensures var r := cursors + [e];
            CursorsOk(list, oversized, r, nextId + 1, received[e.id := []], stepped[e.id := {}]) && InOrder(r) && JobOk(list, r, job) && OneHolder(r)
  {
    hide EntryOk, Holds;
  }

  /** What becomes of a cursor when the one at `found` is served: another of its kind holds nothing any more, and
      starts over if it was ready. */
  ghost predicate DroppedTo(was: seq<Entry>, found: nat, k: nat, now: Entry)
    requires found < |was| && k < |was|
  {
    now == if k == found || was[k].request.kind != was[found].request.kind then was[k]
           else was[k].(fetch := if was[k].fetch == Ready then Idle else was[k].fetch, ready := BLANK, platforms := [], loaded := false)
  }

  ghost predicate DroppedUpTo(was: seq<Entry>, found: nat, now: seq<Entry>, upTo: nat) {
    && found < |was| == |now| && upTo <= |was|
    && (forall k :: 0 <= k < upTo ==> DroppedTo(was, found, k, now[k]))
    && (forall k :: upTo <= k < |was| ==> now[k] == was[k])
  }

  ghost predicate Dropped(was: seq<Entry>, found: nat, now: seq<Entry>) { DroppedUpTo(was, found, now, |was|) }

  lemma DroppedNone(was: seq<Entry>, found: nat)
    requires found < |was|
    ensures DroppedUpTo(was, found, was, 0)
  {
  }

  lemma DroppedOne(was: seq<Entry>, found: nat, k: nat, dropped: Entry)
    requires found < |was| && k < |was|
    ensures k != found && was[k].request.kind == was[found].request.kind
            && dropped == was[k].(fetch := if was[k].fetch == Ready then Idle else was[k].fetch, ready := BLANK, platforms := [], loaded := false)
            ==> DroppedTo(was, found, k, dropped)
    ensures k == found || was[k].request.kind != was[found].request.kind ==> DroppedTo(was, found, k, was[k])
  {
  }

  lemma NoneHolds(was: seq<Entry>, found: nat, now: seq<Entry>)
    requires Dropped(was, found, now)
    ensures now[found] == was[found]
    ensures forall k :: 0 <= k < |now| && k != found && now[k].request.kind == now[found].request.kind ==> !Holds(now[k])
  {
    forall k | 0 <= k < |now| && k != found && now[k].request.kind == now[found].request.kind ensures !Holds(now[k]) {
      assert DroppedTo(was, found, k, now[k]);
    }
    assert DroppedTo(was, found, found, now[found]);
  }

  // ----- What an answer makes of the cursor it was asked for -----

  lemma FailedOk(list: Request -> seq<Row>, oversized: set<Row>, e: Entry, failed: Entry, given: seq<Row>, over: set<nat>)
    requires EntryOk(list, oversized, e, given, over) && e.fetch == Running && failed.failure != Ok && failed.fetch == Failed
    requires failed == e.(fetch := Failed, failure := failed.failure, failures := failed.failures, notBefore := failed.notBefore)
    ensures EntryOk(list, oversized, failed, given, over) && (Holds(failed) ==> Holds(e))
  {
  }

  lemma SnapshotOk(list: Request -> seq<Row>, oversized: set<Row>, e: Entry, loaded: Entry, given: seq<Row>, over: set<nat>)
    requires EntryOk(list, oversized, e, given, over) && e.fetch == Running && e.request.kind == Platforms
    requires loaded == e.(failures := 0, failure := Ok, platforms := ListOf(list, e.request), fetch := Ready, ready := BLANK)
    ensures EntryOk(list, oversized, loaded, given, over)
  {
  }

  /** The snapshot is the list. */
  lemma SnapshotIs(list: Request -> seq<Row>, oversized: set<Row>, e: Entry, given: seq<Row>, over: set<nat>)
    requires EntryOk(list, oversized, e, given, over) && e.loaded
    ensures e.platforms == ListOf(list, e.request) && e.offset <= |e.platforms| && e.request.pageSize > 0 && e.fetch == Idle
  {
  }

  lemma FilledOk(list: Request -> seq<Row>, oversized: set<Row>, e: Entry, given: seq<Row>, over: set<nat>, items: seq<Row>)
    requires EntryOk(list, oversized, e, given, over) && e.loaded
    requires e.offset + |items| <= |e.platforms| && items == e.platforms[e.offset..e.offset + |items|]
    ensures EntryOk(list, oversized, e.(offset := e.offset + |items|), given + items, over)
  {
    GiveMore(e.platforms, e.offset, over, |items|);
  }

  lemma BuiltOk(list: Request -> seq<Row>, oversized: set<Row>, e: Entry, outcome: Outcome, ready: Entry, given: seq<Row>, over: set<nat>)
    requires EntryOk(list, oversized, e, given, over) && e.fetch == Running && e.request.kind == Roms && outcome.Fetched?
    requires FetchOk(list(e.request), oversized, e.offset, outcome) && IsRomPage(list(e.request), e.offset + outcome.stepped, ready.ready)
    requires ready == e.(failures := 0, failure := Ok, offset := e.offset + outcome.stepped, ready := ready.ready, fetch := Ready)
    ensures EntryOk(list, oversized, ready, given, over + Range(e.offset, outcome.stepped))
  {
    StepOver(list(e.request), e.offset, over, outcome.stepped);
  }

  class Service {
    const server: Server
    /** Whether a page takes any one row, which it does while a row's texts are cut short. */
    const small: bool
    var cursors: seq<Entry>
    var nextId: nat
    var configured: bool
    var connected: bool
    /** The request the worker is out on, if any. */
    var job: Option<Job>
    /** What each cursor was given, and the positions stepped over for it. */
    ghost var received: map<nat, seq<Row>>
    ghost var stepped: map<nat, set<nat>>

    ghost predicate Valid()
      reads this
    {
      && |cursors| <= MAX_CURSORS && (job.Some? ==> job.value.id < nextId)
      && CursorsOk(server.list, server.oversized, cursors, nextId, received, stepped)
      && InOrder(cursors) && JobOk(server.list, cursors, job) && OneHolder(cursors)
    }

    constructor (server: Server, small: bool)
      ensures Valid() && cursors == [] && job == None && this.server == server && this.small == small
    {
      this.server, this.small := server, small;
      cursors, nextId, configured, connected, job := [], 1, true, true, None;
      received, stepped := map[], map[];
    }

    // ----- Changing one cursor -----

    /** Take one cursor out. */
    method RemoveAt(i: nat)
      requires Valid() && i < |cursors|
      modifies this`cursors
      ensures Valid() && cursors == old(cursors[..i] + cursors[i + 1..])
    {
      hide CursorsOk, InOrder, JobOk, OneHolder;
      Removed(server.list, server.oversized, cursors, nextId, job, received, stepped, i);
      cursors := cursors[..i] + cursors[i + 1..];
    }

    /** Put an entry back changed, with what its cursor has now been given. */
    method Put(i: nat, e: Entry, ghost given: seq<Row>, ghost over: set<nat>)
      requires Valid() && i < |cursors| && e.id == cursors[i].id && e.request == cursors[i].request
      requires EntryOk(server.list, server.oversized, e, given, over)
      requires Holds(e) && !Holds(cursors[i]) ==>
                 job.None? && forall k :: 0 <= k < |cursors| && k != i && cursors[k].request.kind == e.request.kind ==> !Holds(cursors[k])
      requires job.Some? && job.value.id == e.id ==> e.fetch == Running && e.offset == job.value.offset
      modifies this`cursors, this`received, this`stepped
      ensures Valid() && cursors == old(cursors)[i := e]
      ensures received == old(received)[e.id := given] && stepped == old(stepped)[e.id := over]
    {
      hide CursorsOk, InOrder, JobOk, OneHolder, EntryOk, Holds;
      Changed(server.list, server.oversized, cursors, nextId, job, received, stepped, i, e, given, over);
      cursors := cursors[i := e];
      received := received[e.id := given];
      stepped := stepped[e.id := over];
    }

    /** There is no timer: whatever call happens next takes out the cursors left untouched. */
    method Reap(now: int)
      requires Valid()
      modifies this`cursors
      ensures Valid() && |cursors| <= |old(cursors)| && cursors == Live(old(cursors), now)
      ensures forall k :: 0 <= k < |cursors| ==> cursors[k] in old(cursors)
    {
      hide CursorsOk, InOrder, JobOk, OneHolder, Live;
      var i := 0;
      assert cursors[0..] == cursors;
      NoneLive(now);
      while i < |cursors|
        invariant Valid() && i <= |cursors| <= |old(cursors)|
        invariant Live(old(cursors), now) == cursors[..i] + Live(cursors[i..], now)
        invariant forall k :: 0 <= k < |cursors| ==> cursors[k] in old(cursors)
        decreases |cursors| - i
      {
        LiveFrom(cursors, i, now);
        if now - cursors[i].touched >= CURSOR_TTL {
          ghost var was := cursors;
          RemoveAt(i);
          assert cursors[..i] == was[..i];
        } else {
          assert cursors[..i] + [cursors[i]] == cursors[..i + 1];
          i := i + 1;
        }
      }
      assert cursors[..i] == cursors && cursors[i..] == [];
    }

    lemma NoneLive(now: int)
      ensures Live([], now) == []
    {
    }

    method EvictOldest()
      requires Valid() && cursors != []
      modifies this`cursors
      ensures Valid() && |cursors| == |old(cursors)| - 1
      ensures exists i :: IsOldest(old(cursors), i) && cursors == WithoutAt(old(cursors), i)
    {
      hide CursorsOk, InOrder, JobOk, OneHolder;
      var oldest := 0;
      for i := 1 to |cursors|
        invariant 0 <= oldest < i
        invariant forall k :: 0 <= k < i ==> cursors[oldest].touched <= cursors[k].touched
        invariant forall k :: 0 <= k < oldest ==> cursors[oldest].touched < cursors[k].touched
      {
        if cursors[i].touched < cursors[oldest].touched {
          oldest := i;
        }
      }
      assert IsOldest(cursors, oldest);
      RemoveAt(oldest);
    }

    method Find(cursor: nat) returns (i: nat)
      ensures i <= |cursors| && (i < |cursors| ==> cursors[i].id == cursor)
      ensures i == |cursors| ==> forall k :: 0 <= k < |cursors| ==> cursors[k].id != cursor
    {
      i := 0;
      while i < |cursors| && cursors[i].id != cursor
        invariant i <= |cursors| && forall k :: 0 <= k < i ==> cursors[k].id != cursor
      {
        i := i + 1;
      }
    }

    // ----- The commands -----

    /** A cursor at the start of its list: a rom list as it was asked for, any other without a filter, and as many rows
        to a page as asked, from 1 to the most. */
    ghost predicate IsFresh(asked: Request, now: int, e: Entry) {
      && e.request.kind == asked.kind
      && (if asked.kind == Roms then e.request.platformId == asked.platformId && e.request.search == asked.search
          else e.request.platformId == 0 && e.request.search == "")
      && 1 <= e.request.pageSize <= MAX_PAGE_SIZE
      && (e.request.pageSize == asked.pageSize || asked.pageSize < 1 == e.request.pageSize || asked.pageSize > MAX_PAGE_SIZE == e.request.pageSize)
      && e.offset == 0 && e.fetch == Idle && e.failures == 0 && e.touched == now && !e.loaded && !e.exhausted && !Holds(e)
    }

    /** Open a list. Past the bound the cursor touched longest ago makes room. */
    method ListBegin(request: Request, now: int) returns (cursor: nat)
      requires Valid()
      modifies this`cursors, this`nextId, this`received, this`stepped
      ensures Valid() && cursor == old(nextId) && nextId == cursor + 1
      ensures cursors != [] && cursors[|cursors| - 1].id == cursor && IsFresh(request, now, cursors[|cursors| - 1])
      ensures MakesRoom(Live(old(cursors), now), cursors[..|cursors| - 1])
      ensures received == old(received)[cursor := []] && stepped == old(stepped)[cursor := {}]
    {
      hide CursorsOk, InOrder, JobOk, OneHolder, IsOldest, Live, IsFresh, EntryOk, Holds;
      Reap(now);
      if |cursors| >= MAX_CURSORS {
        EvictOldest();
      }
      ghost var kept := cursors;
      cursor := nextId;
      var size := if request.pageSize < 1 then 1 else if request.pageSize > MAX_PAGE_SIZE then MAX_PAGE_SIZE else request.pageSize;
      var asked := if request.kind != Roms then Request(request.kind, 0, "", size) else request.(pageSize := size);
      var e := Entry(cursor, asked, 0, Idle, Ok, BLANK, [], false, false, now, 0, 0);
      Begun(request, asked, size, now, e);
      Appended(server.list, server.oversized, cursors, nextId, job, received, stepped, e);
      nextId := nextId + 1;
      cursors := cursors + [e];
      assert cursors[..|cursors| - 1] == kept;
      received := received[cursor := []];
      stepped := stepped[cursor := {}];
    }

    lemma Begun(request: Request, asked: Request, size: int, now: int, e: Entry)
      requires size == if request.pageSize < 1 then 1 else if request.pageSize > MAX_PAGE_SIZE then MAX_PAGE_SIZE else request.pageSize
      requires asked == if request.kind != Roms then Request(request.kind, 0, "", size) else request.(pageSize := size)
      requires e == Entry(e.id, asked, 0, Idle, Ok, BLANK, [], false, false, now, 0, 0)
      ensures IsFresh(request, now, e) && EntryOk(server.list, server.oversized, e, [], {}) && !Holds(e)
    {
    }

    method ListEnd(cursor: nat, now: int) returns (error: Error)
      requires Valid()
      modifies this`cursors
      ensures Valid() && (error == Ok || error == BadCursor)
      ensures var live := Live(old(cursors), now);
              if error == Ok then exists i :: 0 <= i < |live| && live[i].id == cursor && cursors == WithoutAt(live, i)
              else cursors == live && forall k :: 0 <= k < |live| ==> live[k].id != cursor
      ensures forall k :: 0 <= k < |cursors| ==> cursors[k] in old(cursors) && cursors[k].id != cursor
    {
      hide Live;
      Reap(now);
      var i := Find(cursor);
      if i == |cursors| {
        return BadCursor;
      }
      RemoveAt(i);
      error := Ok;
    }

    /** Whether a page is the list's last word: everything was given but rows too large. */
    ghost predicate AllGiven(cursor: nat, request: Request)
      reads this
    {
      && cursor in received
      && forall i :: 0 <= i < |ListOf(server.list, request)| ==>
           ListOf(server.list, request)[i] in received[cursor] || ListOf(server.list, request)[i] in server.oversized
    }

    lemma WholeListGiven(e: Entry)
      requires e.id in received && e.id in stepped && EntryOk(server.list, server.oversized, e, received[e.id], stepped[e.id])
      requires e.offset == |ListOf(server.list, e.request)|
      ensures AllGiven(e.id, e.request)
    {
      var rows := ListOf(server.list, e.request);
      forall i | 0 <= i < |rows| ensures rows[i] in received[e.id] || rows[i] in server.oversized {
        GivenMisses(rows, e.offset, stepped[e.id], i);
      }
    }

    ghost predicate LastWord(cursor: nat)
      reads this
    {
      exists k :: 0 <= k < |cursors| && cursors[k].id == cursor && AllGiven(cursor, cursors[k].request)
    }

    lemma AtEnd(i: nat)
      requires Valid() && i < |cursors| && cursors[i].offset == |ListOf(server.list, cursors[i].request)|
      ensures LastWord(cursors[i].id)
    {
      WholeListGiven(cursors[i]);
    }

    /** The next rows of the snapshot are handed over, as many as a page takes, or the first of them fits no page. */
    ghost predicate FilledFrom(was: Entry, error: Error, page: Page, now: Entry) {
      var left := |was.platforms| - was.offset;
      if error == Ok then
        && 0 <= |page.items| <= left && page.items == was.platforms[was.offset..was.offset + |page.items|] && !page.pending
        && |page.items| <= was.request.pageSize && page.hasMore == (|page.items| < left) && (left > 0 ==> page.items != [])
        && now == was.(offset := was.offset + |page.items|)
      else error == TooLarge && page == BLANK && now == was && left > 0 && !small
    }

    /** What a cursor that is open is given, by what it holds and what became of its fetch. */
    ghost predicate Served(was: Entry, at: int, error: Error, page: Page, now: Entry)
      reads this
    {
      var touched := was.(touched := at);
      if was.request.kind == Platforms && (was.loaded || was.fetch == Ready) then
        FilledFrom(touched.(fetch := if was.loaded then was.fetch else Idle, loaded := true), error, page, now)
      else match was.fetch
        case Ready =>
          error == Ok && page == was.ready
          && now == touched.(fetch := Idle, ready := BLANK, offset := was.offset + |was.ready.items|, exhausted := !was.ready.hasMore)
        case Failed => error == was.failure && page == BLANK && now == touched.(fetch := Idle)
        case Running => error == Ok && page == BLANK.(pending := true) && now == touched
        case Idle =>
          if (was.exhausted && was.request.kind == Roms) || !configured || !connected || (was.failures > 0 && at < was.notBefore) then
            && page == BLANK && now == touched
            && error == if was.exhausted && was.request.kind == Roms then Ok else if !configured then NotConfigured
                        else if !connected then Offline else was.failure
          else error == Ok && page == BLANK.(pending := true) && now == touched.(fetch := Running)
    }

    /** A page out of the platform snapshot. */
    method FillFromPlatforms(i: nat) returns (error: Error, page: Page)
      requires Valid() && i < |cursors| && cursors[i].request.kind == Platforms && cursors[i].loaded
      modifies this`cursors, this`received, this`stepped
      ensures Valid() && stepped == old(stepped) && |cursors| == |old(cursors)| && cursors[i].id == old(cursors[i].id)
      ensures received == old(received)[cursors[i].id := old(received)[old(cursors[i].id)] + page.items]
      ensures cursors == old(cursors)[i := cursors[i]] && FilledFrom(old(cursors[i]), error, page, cursors[i])
      ensures !page.pending && (error == Ok && !page.hasMore ==> LastWord(cursors[i].id))
    {
      hide InOrder, OneHolder, JobOk, EntryOk, LastWord, FilledFrom;
      var entry := cursors[i];
      ghost var given, over := received[entry.id], stepped[entry.id];
      Accounted(i);
      JobWaits(i);
      SnapshotIs(server.list, server.oversized, entry, given, over);
      var count := |entry.platforms|;
      var items := FillPage(entry);
      var served := entry.offset + |items|;
      page := Page(items, served < count, false);
      if items == [] && served < count {
        error := TooLarge;
        assert given + items == given;
        page := BLANK;
        Put(i, entry, given, over);
        NoneFilled(entry);
        return;
      }
      FilledOk(server.list, server.oversized, entry, given, over, items);
      Filled(entry, page, items);
      Put(i, entry.(offset := served), given + items, over);
      error := Ok;
      if served == count {
        AtEnd(i);
      }
    }

    lemma Filled(was: Entry, page: Page, items: seq<Row>)
      requires was.offset + |items| <= |was.platforms| && items == was.platforms[was.offset..was.offset + |items|]
      requires |items| <= was.request.pageSize && (was.offset < |was.platforms| ==> items != [])
      requires page == Page(items, was.offset + |items| < |was.platforms|, false)
      ensures FilledFrom(was, Ok, page, was.(offset := was.offset + |items|))
    {
    }

    lemma NoneFilled(was: Entry)
      requires was.offset < |was.platforms| && !small
      ensures FilledFrom(was, TooLarge, BLANK, was)
    {
    }

    /** As many of the rows left as fit a page. */
    method FillPage(entry: Entry) returns (items: seq<Row>)
      requires entry.offset <= |entry.platforms| && entry.request.pageSize > 0
      ensures entry.offset + |items| <= |entry.platforms| && |items| <= entry.request.pageSize
      ensures items == entry.platforms[entry.offset..entry.offset + |items|]
      ensures small && entry.offset < |entry.platforms| ==> items != []
    {
      var count := |entry.platforms|;
      items := [];
      while entry.offset + |items| < count && |items| < entry.request.pageSize
        invariant entry.offset + |items| <= count && |items| <= entry.request.pageSize && items == entry.platforms[entry.offset..entry.offset + |items|]
        decreases count - |items|
      {
        var fits: bool := *; // the payload's byte cap
        if !fits && !(small && items == []) {
          break;
        }
        items := items + [entry.platforms[entry.offset + |items|]];
      }
    }

    /** Hand over the page that was fetched. */
    method TakeReady(i: nat) returns (page: Page)
      requires Valid() && i < |cursors| && cursors[i].request.kind == Roms && cursors[i].fetch == Ready
      modifies this`cursors, this`received, this`stepped
      ensures Valid() && stepped == old(stepped)
      ensures received == old(received)[old(cursors[i].id) := old(received)[old(cursors[i].id)] + page.items]
      ensures page == old(cursors[i].ready)
      ensures i < |cursors| && cursors == old(cursors)[i := cursors[i]]
      ensures cursors[i] == old(cursors[i]).(fetch := Idle, ready := BLANK, offset := old(cursors[i].offset) + |page.items|, exhausted := !page.hasMore)
      ensures !page.pending && (!page.hasMore ==> LastWord(old(cursors[i].id)))
    {
      hide InOrder, OneHolder;
      var entry := cursors[i];
      ghost var given, over := received[entry.id], stepped[entry.id];
      assert EntryOk(server.list, server.oversized, entry, given, over);
      page := entry.ready;
      GiveMore(ListOf(server.list, entry.request), entry.offset, over, |page.items|);
      Put(i, entry.(fetch := Idle, ready := BLANK, offset := entry.offset + |page.items|, exhausted := !page.hasMore), given + page.items, over);
      if !page.hasMore {
        AtEnd(i);
      }
    }

    /** The next page of a list: what is ready, what is held, or that it is still to come. Whatever
        it is, the rows handed over are added to what the cursor was given. */
    method ListNext(cursor: nat, now: int) returns (error: Error, page: Page)
      requires Valid()
      modifies this`cursors, this`received, this`stepped
      ensures Valid() && stepped == old(stepped)
      ensures received == if cursor in old(received) then old(received)[cursor := old(received)[cursor] + page.items] else old(received)
      ensures cursor !in old(received) ==> page == BLANK
      ensures ServedOf(Live(old(cursors), now), cursor, now, error, page)
      ensures error == Ok && !page.pending && !page.hasMore ==> LastWord(cursor)
    {
      hide InOrder, JobOk, OneHolder, EntryOk, Live, Served;
      Reap(now);
      var i := Find(cursor);
      if i == |cursors| {
        error, page := BadCursor, BLANK;
        assert cursor in received ==> received[cursor] + [] == received[cursor];
      } else {
        error, page := Serve(i, now);
      }
    }

    /** A cursor no longer open is refused; one that is open is served, and no other is touched. */
    ghost predicate ServedOf(live: seq<Entry>, cursor: nat, at: int, error: Error, page: Page)
      reads this
    {
      if forall k :: 0 <= k < |live| ==> live[k].id != cursor then error == BadCursor && page == BLANK && cursors == live
      else exists i :: 0 <= i < |live| && live[i].id == cursor && |cursors| == |live| && cursors == live[i := cursors[i]]
                       && Served(live[i], at, error, page, cursors[i])
    }

    /** The worker's own cursor is still waiting. */
    lemma JobWaits(i: nat)
      requires Valid() && i < |cursors|
      ensures job.Some? && job.value.id == cursors[i].id ==> cursors[i].fetch == Running && cursors[i].offset == job.value.offset
    {
    }

    /** `ListNext` for a cursor that is open. */
    method Serve(i: nat, now: int) returns (error: Error, page: Page)
      requires Valid() && i < |cursors|
      modifies this`cursors, this`received, this`stepped
      ensures Valid() && stepped == old(stepped)
      ensures old(cursors[i].id) in old(received)
      ensures received == old(received)[old(cursors[i].id) := old(received)[old(cursors[i].id)] + page.items]
      ensures |cursors| == |old(cursors)| && cursors == old(cursors)[i := cursors[i]]
      ensures Served(old(cursors[i]), now, error, page, cursors[i])
      ensures error == Ok && !page.pending && !page.hasMore ==> LastWord(old(cursors[i].id))
    {
      hide InOrder, JobOk, OneHolder, Served, LastWord, FilledFrom, CursorsOk;
      ghost var was := cursors[i];
      Touch(i, now);
      var entry := cursors[i];
      if entry.request.kind == Platforms && entry.loaded {
        error, page := FillFromPlatforms(i);
        ServedLoaded(was, now, error, page, cursors[i]);
        return;
      }
      match entry.fetch {
        case Ready =>
          if entry.request.kind == Platforms {
            error, page := TakeSnapshot(i);
            ServedSnapshot(was, now, error, page, cursors[i]);
            return;
          }
          page := TakeReady(i);
          ServedReady(was, now, page, cursors[i]);
          return Ok, page;
        case _ =>
          error, page := ServeWaiting(i, now);
          ServedTouched(was, now, error, page, cursors[i]);
      }
    }

    lemma ServedLoaded(was: Entry, at: int, error: Error, page: Page, now: Entry)
      requires was.request.kind == Platforms && was.loaded && FilledFrom(was.(touched := at), error, page, now)
      ensures Served(was, at, error, page, now)
    {
    }

    lemma ServedSnapshot(was: Entry, at: int, error: Error, page: Page, now: Entry)
      requires was.request.kind == Platforms && was.fetch == Ready && !was.loaded
      requires FilledFrom(was.(touched := at).(fetch := Idle, loaded := true), error, page, now)
      ensures Served(was, at, error, page, now)
    {
    }

    lemma ServedReady(was: Entry, at: int, page: Page, now: Entry)
      requires was.request.kind == Roms && was.fetch == Ready && page == was.ready
      requires now == was.(touched := at, fetch := Idle, ready := BLANK, offset := was.offset + |page.items|, exhausted := !page.hasMore)
      ensures Served(was, at, Ok, page, now)
    {
    }

    lemma ServedTouched(was: Entry, at: int, error: Error, page: Page, now: Entry)
      requires Served(was.(touched := at), at, error, page, now)
      ensures Served(was, at, error, page, now)
    {
    }

    /** It was asked for now. */
    method Touch(i: nat, now: int)
      requires Valid() && i < |cursors|
      modifies this`cursors, this`received, this`stepped
      ensures Valid() && received == old(received) && stepped == old(stepped) && old(cursors[i].id) in received
      ensures cursors == old(cursors)[i := old(cursors[i]).(touched := now)]
    {
      hide InOrder, JobOk, OneHolder;
      JobWaits(i);
      var entry := cursors[i].(touched := now);
      Put(i, entry, received[entry.id], stepped[entry.id]);
    }

    /** The snapshot that was fetched is what the pages come out of from here on. */
    method TakeSnapshot(i: nat) returns (error: Error, page: Page)
      requires Valid() && i < |cursors| && cursors[i].request.kind == Platforms && cursors[i].fetch == Ready && !cursors[i].loaded
      modifies this`cursors, this`received, this`stepped
      ensures Valid() && stepped == old(stepped) && old(cursors[i].id) in old(received)
      ensures |cursors| == |old(cursors)| && cursors == old(cursors)[i := cursors[i]]
      ensures FilledFrom(old(cursors[i]).(fetch := Idle, loaded := true), error, page, cursors[i])
      ensures received == old(received)[old(cursors[i].id) := old(received)[old(cursors[i].id)] + page.items]
      ensures error == Ok && !page.pending && !page.hasMore ==> LastWord(old(cursors[i].id))
    {
      hide InOrder, OneHolder, FilledFrom, LastWord;
      var entry := cursors[i];
      JobWaits(i);
      Put(i, entry.(fetch := Idle, loaded := true), received[entry.id], stepped[entry.id]);
      error, page := FillFromPlatforms(i);
    }

    /** A cursor for which nothing is held: a failure is told once, and a fetch begins when one may. */
    method ServeWaiting(i: nat, now: int) returns (error: Error, page: Page)
      requires Valid() && i < |cursors| && cursors[i].fetch != Ready && !(cursors[i].request.kind == Platforms && cursors[i].loaded)
      modifies this`cursors, this`received, this`stepped
      ensures Valid() && stepped == old(stepped) && old(cursors[i].id) in old(received)
      ensures |cursors| == |old(cursors)| && cursors == old(cursors)[i := cursors[i]]
      ensures received == old(received)[old(cursors[i].id) := old(received)[old(cursors[i].id)] + page.items]
      ensures old(cursors[i].touched) == now ==> Served(old(cursors[i]), now, error, page, cursors[i])
      ensures error == Ok && !page.pending && !page.hasMore ==> LastWord(old(cursors[i].id))
    {
      hide InOrder, JobOk, OneHolder, LastWord;
      page := BLANK;
      var entry := cursors[i];
      ghost var given, over := received[entry.id], stepped[entry.id];
      JobWaits(i);
      assert EntryOk(server.list, server.oversized, entry, given, over);
      assert given + [] == given && received[entry.id := given] == received;
      match entry.fetch {
        case Failed =>
          Put(i, entry.(fetch := Idle), given, over);
          return entry.failure, page;
        case Running =>
          return Ok, page.(pending := true);
        case _ =>
      }
      if entry.exhausted && entry.request.kind == Roms {
        AtEnd(i);
        return Ok, page;
      }
      if !configured {
        return NotConfigured, page;
      }
      if !connected {
        return Offline, page;
      }
      if entry.failures > 0 && now < entry.notBefore {
        return entry.failure, page;
      }
      Put(i, entry.(fetch := Running), given, over);
      return Ok, page.(pending := true);
    }

    // ----- The worker -----

    /** Every other cursor of the kind goes back to where it stood, with nothing held. */
    method DropOthers(found: nat)
      requires Valid() && job.None? && found < |cursors|
      modifies this`cursors, this`received, this`stepped
      ensures Valid() && received == old(received) && stepped == old(stepped)
      ensures Dropped(old(cursors), found, cursors)
    {
      hide InOrder, OneHolder, JobOk, DroppedTo;
      ghost var was := cursors;
      var mine, count := cursors[found], |cursors|;
      DroppedNone(was, found);
      for k := 0 to count
        invariant |cursors| == count && Valid() && job.None? && received == old(received) && stepped == old(stepped)
        invariant cursors[found] == mine && DroppedUpTo(was, found, cursors, k)
      {
        var other := cursors[k];
        if k != found && other.request.kind == mine.request.kind {
          Put(k, other.(fetch := if other.fetch == Ready then Idle else other.fetch, ready := BLANK, platforms := [], loaded := false),
              received[other.id], stepped[other.id]);
        }
        DroppedOne(was, found, k, cursors[k]);
      }
    }

    /** The worker is out for the first cursor that waits. */
    ghost predicate SentOut(live: seq<Entry>, found: nat)
      reads this
    {
      && connected && found < |live| && live[found].fetch == Running && (forall k :: 0 <= k < found ==> live[k].fetch != Running)
      && job == Some(Job(live[found].id, live[found].request, live[found].offset)) && Dropped(live, found, cursors)
    }

    /** Under the lock: the first cursor that waits is served next, and every other of its kind lets go of
        its page. */
    method PumpOut(now: int) returns (out: bool)
      requires Valid() && job.None?
      modifies this`cursors, this`received, this`stepped, this`job
      ensures Valid() && received == old(received) && stepped == old(stepped)
      ensures out <==> job.Some?
      ensures if out then exists found :: SentOut(Live(old(cursors), now), found)
              else cursors == Live(old(cursors), now) && (!connected || forall k :: 0 <= k < |cursors| ==> cursors[k].fetch != Running)
    {
      hide InOrder, Live;
      Reap(now);
      var found := 0;
      while found < |cursors| && cursors[found].fetch != Running
        invariant found <= |cursors| && forall k :: 0 <= k < found ==> cursors[k].fetch != Running
      {
        found := found + 1;
      }
      if found == |cursors| || !connected {
        return false;
      }
      var mine := cursors[found];
      ghost var live := cursors;
      DropOthers(found);
      NoneHolds(live, found, cursors);
      job := Some(Job(mine.id, mine.request, mine.offset));
      assert EntryOk(server.list, server.oversized, mine, received[mine.id], stepped[mine.id]);
      OnlyOne(cursors, found);
      assert SentOut(live, found);
      out := true;
    }

    lemma OnlyOne(cursors: seq<Entry>, i: nat)
      requires InOrder(cursors) && i < |cursors|
      ensures forall k :: 0 <= k < |cursors| && k != i ==> cursors[k].id != cursors[i].id
    {
    }

    /** The request itself, with nothing held. */
    method Exchange(j: Job) returns (outcome: Outcome)
      requires IsRequest(j.request) && j.offset <= |ListOf(server.list, j.request)|
      ensures AnswerOk(j, outcome)
    {
      if j.request.kind == Roms {
        outcome := FetchRoms(server, j.request, j.offset);
      } else {
        var answer := server.Send(j.request, |server.list(j.request)| + 1, 0);
        assert Slice(server.list(j.request), 0, |server.list(j.request)| + 1) == server.list(j.request);
        match answer {
          case Unreached => outcome := Refused(Offline);
          case Rows(rows, total) => outcome := Fetched(0, 1, if |rows| > MAX_PLATFORMS then rows[..MAX_PLATFORMS] else rows, total);
          case _ => outcome := Refused(Internal);
        }
      }
    }

    /** What the request may come to. */
    ghost predicate AnswerOk(j: Job, outcome: Outcome)
      reads this
    {
      && (j.request.kind == Roms ==> FetchOk(server.list(j.request), server.oversized, j.offset, outcome))
      && (j.request.kind == Platforms && outcome.Fetched? ==> outcome.rows == ListOf(server.list, j.request))
      && (outcome.Refused? ==> outcome.why != Ok)
      && (server.steady && server.Weighs() ==> (outcome.Fetched? <==> server.Answerable(j.request, j.offset)))
    }

    /** No cursor but the one that waits for the answer is touched. */
    ghost predicate OnlyLands(was: seq<Entry>, id: nat)
      reads this
    {
      && |cursors| == |was|
      && forall k :: 0 <= k < |cursors| ==>
           if was[k].id != id then cursors[k] == was[k] else Landed(was[k], cursors[k]) && Lands(was[k], cursors[k])
    }

    /** Whether there is an answer; and a page that has none of the rows left has no rows at all only if none fits. */
    ghost predicate Lands(was: Entry, now: Entry)
      reads this
    {
      && (server.steady && server.Weighs() ==> (now.fetch == Ready <==> server.Answerable(was.request, was.offset)))
      && (small && now.request.kind == Roms && now.fetch == Ready ==> now.ready.items != [] || !now.ready.hasMore)
    }

    lemma LandsAt(was: seq<Entry>, i: nat, id: nat)
      requires InOrder(was) && i < |was| && was[i].id == id && |cursors| == |was|
      requires cursors == was[i := cursors[i]] && Landed(was[i], cursors[i]) && Lands(was[i], cursors[i])
      ensures OnlyLands(was, id)
    {
    }

    /** The answer lands. A cursor that was ended or reclaimed meanwhile is not brought back. */
    method PumpIn(now: int)
      requires Valid() && job.Some?
      modifies this`cursors, this`received, this`stepped, this`job
      ensures Valid() && job.None? && received == old(received)
      ensures OnlyLands(old(cursors), old(job.value.id))
    {
      hide InOrder, OneHolder, JobOk, CursorsOk, FetchOk, OnlyLands;
      Asked();
      var outcome := Exchange(job.value);
      Land(job.value, outcome, now);
    }

    method Land(j: Job, outcome: Outcome, now: int)
      requires Valid() && job == Some(j) && AnswerOk(j, outcome)
      modifies this`cursors, this`received, this`stepped, this`job
      ensures Valid() && job.None? && received == old(received)
      ensures OnlyLands(old(cursors), j.id)
    {
      hide InOrder, OneHolder, JobOk, OnlyLands, CursorsOk, EntryOk, IsRomPage, FetchOk, Slice, TakesAllThatFit, Holds;
      var i := Find(j.id);
      Landing(i);
      job := None;
      if i == |cursors| {
        NoneLands(cursors, j.id);
        return;
      }
      var entry := cursors[i];
      Accounted(i);
      ghost var given, over, was := received[entry.id], stepped[entry.id], cursors;
      if outcome.Refused? {
        var delay: int := *; // the retry curve's
        var failed := entry.(fetch := Failed, failure := outcome.why, failures := entry.failures + 1, notBefore := now + delay);
        FailedOk(server.list, server.oversized, entry, failed, given, over);
        Put(i, failed, given, over);
      } else if j.request.kind == Platforms {
        var loaded := entry.(failures := 0, failure := Ok, platforms := outcome.rows, fetch := Ready, ready := BLANK);
        SnapshotOk(server.list, server.oversized, entry, loaded, given, over);
        Put(i, loaded, given, over);
      } else {
        var cap: (seq<Row>, Row) -> bool := *; // the payload's byte cap
        var fits := (rows, row) => (small && rows == []) || cap(rows, row);
        Asks(j, entry, outcome);
        var built := BuildRomPage(outcome.rows, outcome.total, entry.offset + outcome.stepped, entry.request.pageSize, fits, server.list(j.request), outcome.limit);
        var ready := entry.(failures := 0, failure := Ok, offset := entry.offset + outcome.stepped, ready := built, fetch := Ready);
        BuiltOk(server.list, server.oversized, entry, outcome, ready, given, over);
        if small {
          TakesOne(server.list(j.request), entry.offset + outcome.stepped, outcome.limit, outcome.rows, entry.request.pageSize, fits, built);
        }
        Put(i, ready, given, over + Range(entry.offset, outcome.stepped));
      }
      LandsAt(was, i, j.id);
    }

    lemma Asks(j: Job, entry: Entry, outcome: Outcome)
      requires AnswerOk(j, outcome) && outcome.Fetched? && j.request.kind == Roms && entry.offset == j.offset
      ensures var list := server.list(j.request);
              && entry.offset + outcome.stepped <= |list| && outcome.total == |list| && outcome.limit > 0
              && outcome.rows == Slice(list, entry.offset + outcome.stepped, outcome.limit)
      ensures FetchOk(server.list(j.request), server.oversized, entry.offset, outcome)
    {
    }

    lemma Accounted(i: nat)
      requires i < |cursors| && CursorsOk(server.list, server.oversized, cursors, nextId, received, stepped)
      ensures cursors[i].id in received && cursors[i].id in stepped && cursors[i].request.pageSize > 0
      ensures EntryOk(server.list, server.oversized, cursors[i], received[cursors[i].id], stepped[cursors[i].id])
      ensures received[cursors[i].id := received[cursors[i].id]] == received
    {
    }

    lemma NoneLands(was: seq<Entry>, id: nat)
      requires was == cursors && forall k :: 0 <= k < |cursors| ==> cursors[k].id != id
      ensures OnlyLands(was, id)
    {
    }

    lemma Asked()
      requires Valid() && job.Some?
      ensures IsRequest(job.value.request) && job.value.offset <= |ListOf(server.list, job.value.request)|
    {
      hide CursorsOk, InOrder, OneHolder;
    }

    /** With the worker back, its cursor may hold what it brings: no other of its kind holds anything. */
    lemma Landing(i: nat)
      requires Valid() && job.Some? && i <= |cursors| && (i < |cursors| ==> cursors[i].id == job.value.id)
      ensures i < |cursors| ==>
                cursors[i].request == job.value.request && cursors[i].fetch == Running && cursors[i].offset == job.value.offset
                && forall k :: 0 <= k < |cursors| && k != i && cursors[k].request.kind == cursors[i].request.kind ==> !Holds(cursors[k])
      ensures JobOk(server.list, cursors, None)
    {
      if i < |cursors| { OnlyOne(cursors, i); }
    }
  }

  // ----- Any interleaving -----

  datatype Step = Begin(request: Request) | Next(cursor: nat) | End(cursor: nat) | Out | In | Configure(on: bool) | Connect(on: bool)

  /** What an answer makes of the cursor it was asked for: it failed, where the cursor stood; or something is ready, at
      a place no earlier. */
  ghost predicate Landed(was: Entry, now: Entry) {
    && was.fetch == Running
    && now == was.(fetch := now.fetch, failure := now.failure, failures := now.failures, notBefore := now.notBefore,
                   offset := now.offset, ready := now.ready, platforms := now.platforms)
    && (if now.fetch == Failed then now.offset == was.offset && now.failures == was.failures + 1
        else now.fetch == Ready && now.failures == 0 && was.offset <= now.offset)
  }

  /** Whatever the commands' thread and the worker do, in whatever order and at whatever times. */
  method Run(server: Server, small: bool, steps: seq<(Step, int)>) returns (service: Service)
    ensures service.Valid() && service.server == server
  {
    service := new Service(server, small);
    for i := 0 to |steps|
      invariant service.Valid() && service.server == server && fresh(service)
    {
      hide CursorsOk, InOrder, JobOk, OneHolder;
      var now := steps[i].1;
      match steps[i].0 {
        case Begin(request) => var _ := service.ListBegin(request, now);
        case Next(cursor) => var _, _ := service.ListNext(cursor, now);
        case End(cursor) => var _ := service.ListEnd(cursor, now);
        case Out => if service.job.None? { var _ := service.PumpOut(now); }
        case In => if service.job.Some? { service.PumpIn(now); }
        case Configure(on) => service.configured := on;
        case Connect(on) => service.connected := on;
      }
    }
  }

  /** So in every reachable state what an open cursor was given is its list in order, without
      repeats, up to where it stands, and misses none but rows too large to be returned alone. */
  lemma GivenExactlyOnce(service: Service, i: nat)
    requires service.Valid() && i < |service.cursors|
    ensures var e := service.cursors[i];
            var rows, given := ListOf(service.server.list, e.request), service.received[e.id];
            && e.offset <= |rows|
            && (Ascending(rows) ==> Ascending(given))
            && (forall r :: r in given ==> r in rows[..e.offset])
            && (forall r :: r in rows[..e.offset] ==> r in given || r in service.server.oversized)
  {
    var e := service.cursors[i];
    var rows, over := ListOf(service.server.list, e.request), service.stepped[e.id];
    assert EntryOk(service.server.list, service.server.oversized, e, service.received[e.id], over);
    var given := service.received[e.id];
    if Ascending(rows) { GivenAscends(rows, e.offset, over); }
    forall r | r in given ensures r in rows[..e.offset] {
      var k :| 0 <= k < |given| && given[k] == r;
      var h := GivenFrom(rows, e.offset, over, k);
      assert rows[..e.offset][h] == r;
    }
    forall r | r in rows[..e.offset] ensures r in given || r in service.server.oversized {
      var h :| 0 <= h < e.offset && rows[..e.offset][h] == r;
      GivenMisses(rows, e.offset, over, h);
    }
  }

  // ----- A list is read to its end -----

  /** Every part of the list has an answer. */
  ghost predicate AllAnswerable(service: Service, asked: Request) {
    && service.server.steady && service.server.Weighs()
    && forall offset: nat :: service.server.Answerable(asked, offset)
  }

  /** What is held goes on, or ends the list. */
  ghost predicate GoesOn(e: Entry) {
    if e.request.kind == Platforms then e.loaded || e.fetch == Ready
    else e.fetch == Ready && (e.ready.items != [] || !e.ready.hasMore)
  }

  /** How many of the cursors wait for the worker. */
  ghost function Waiting(cursors: seq<Entry>): nat {
    if cursors == [] then 0 else (if cursors[0].fetch == Running then 1 else 0) + Waiting(cursors[1..])
  }

  lemma {:induction false} WaitingConcat(a: seq<Entry>, b: seq<Entry>)
    ensures Waiting(a + b) == Waiting(a) + Waiting(b)
  {
    if a == [] {
      assert a + b == b;
    } else {
      assert (a + b)[1..] == a[1..] + b;
      WaitingConcat(a[1..], b);
    }
  }

  lemma {:induction false} LiveConcat(a: seq<Entry>, b: seq<Entry>, now: int)
    ensures Live(a + b, now) == Live(a, now) + Live(b, now)
  {
    if a == [] {
      assert a + b == b;
    } else {
      assert (a + b)[1..] == a[1..] + b;
      LiveConcat(a[1..], b, now);
    }
  }

  lemma {:induction false} LiveWaits(a: seq<Entry>, now: int)
    ensures Waiting(Live(a, now)) <= Waiting(a)
  {
    if a != [] {
      LiveWaits(a[1..], now);
      WaitingConcat(if now - a[0].touched >= CURSOR_TTL then [] else [a[0]], Live(a[1..], now));
      assert [a[0]][1..] == [];
    }
  }

  /** A cursor that was asked for lately stays, after those before it that stay. */
  lemma LiveKeeps(cursors: seq<Entry>, i: nat, now: int) returns (k: nat)
    requires i < |cursors| && now - cursors[i].touched < CURSOR_TTL
    ensures k < |Live(cursors, now)| && Live(cursors, now)[k] == cursors[i]
    ensures Waiting(Live(cursors, now)[..k]) <= Waiting(cursors[..i])
  {
    var a, b := cursors[..i], cursors[i..];
    assert cursors == a + b && b[0] == cursors[i];
    LiveConcat(a, b, now);
    LiveWaits(a, now);
    k := |Live(a, now)|;
    assert Live(cursors, now)[..k] == Live(a, now);
  }

  /** Once the first that waits is served, fewer wait before the others. */
  lemma {:induction false} FewerWait(was: seq<Entry>, now: seq<Entry>, found: nat, i: nat)
    requires found < i <= |was| == |now| && was[found].fetch == Running && now[found].fetch != Running
    requires forall k :: 0 <= k < |was| && k != found ==> (now[k].fetch == Running <==> was[k].fetch == Running)
    ensures Waiting(now[..i]) < Waiting(was[..i])
  {
    SameWait(was[..found], now[..found]);
    SameWait(was[found + 1..i], now[found + 1..i]);
    assert was[..i] == was[..found] + ([was[found]] + was[found + 1..i]);
    assert now[..i] == now[..found] + ([now[found]] + now[found + 1..i]);
    WaitingConcat(was[..found], [was[found]] + was[found + 1..i]);
    WaitingConcat(now[..found], [now[found]] + now[found + 1..i]);
    assert ([was[found]] + was[found + 1..i])[1..] == was[found + 1..i];
    assert ([now[found]] + now[found + 1..i])[1..] == now[found + 1..i];
  }

  lemma {:induction false} SameWait(was: seq<Entry>, now: seq<Entry>)
    requires |was| == |now| && forall k :: 0 <= k < |was| ==> (now[k].fetch == Running <==> was[k].fetch == Running)
    ensures Waiting(now) == Waiting(was)
  {
    if was != [] { SameWait(was[1..], now[1..]); }
  }

  /** Some time, from `least` on, at which the cursor has not been left untouched for too long. */
  method Tick(least: int, touched: int) returns (now: int)
    requires least - touched < CURSOR_TTL
    ensures least <= now && now - touched < CURSOR_TTL
  {
    now := *;
    if now < least || now - touched >= CURSOR_TTL {
      now := least;
    }
  }

  /** The cursor's own answer has landed, or fewer wait before it. */
  ghost predicate Waited(was: Entry, ahead: nat, now: Entry, aheadNow: nat) {
    && now.id == was.id && now.request == was.request && now.touched == was.touched
    && if now.fetch == Running then now.offset == was.offset && now.failures == was.failures && now.notBefore == was.notBefore && aheadNow < ahead
       else GoesOn(now) && now.failures == 0 && was.offset <= now.offset
  }

  lemma Passed(live: seq<Entry>, sent: seq<Entry>, now: seq<Entry>, found: nat, k: nat)
    requires found < k < |live| && Dropped(live, found, sent) && live[found].fetch == Running && live[k].fetch == Running
    requires |now| == |sent| && now[found].fetch != Running && forall h :: 0 <= h < |now| && h != found ==> now[h] == sent[h]
    ensures Waited(live[k], Waiting(live[..k]), now[k], Waiting(now[..k]))
  {
    forall h | 0 <= h < |live| ensures sent[h].fetch == Running <==> live[h].fetch == Running { assert DroppedTo(live, found, h, sent[h]); }
    assert DroppedTo(live, found, k, sent[k]) && DroppedTo(live, found, found, sent[found]);
    FewerWait(live, now, found, k);
  }

  /** Out and back. */
  method PumpOnce(service: Service, at: nat, start: int) returns (k: nat)
    requires service.Valid() && service.job.None? && service.connected && at < |service.cursors| && service.cursors[at].fetch == Running
    requires AllAnswerable(service, service.cursors[at].request) && service.small && start - service.cursors[at].touched < CURSOR_TTL
    modifies service`cursors, service`received, service`stepped, service`job
    ensures service.Valid() && service.job.None? && k < |service.cursors|
    ensures Waited(old(service.cursors[at]), Waiting(old(service.cursors)[..at]), service.cursors[k], Waiting(service.cursors[..k]))
  {
    hide CursorsOk, InOrder, JobOk, OneHolder, EntryOk, Live, AllAnswerable, Dropped, Waited, Waiting, Landed;
    ghost var was := service.cursors;
    var cursor := service.cursors[at].id;
    var now := Tick(start, service.cursors[at].touched);
    ghost var here := LiveKeeps(was, at, now);
    ghost var live := Live(was, now);
    var out := service.PumpOut(now);
    assert out;
    ghost var found: nat :| service.SentOut(live, found);
    ghost var sent, kind := service.cursors, was[at].request;
    var later: int := *;
    service.PumpIn(later);
    LandsOrPasses(service, live, sent, found, here);
    k := service.Find(cursor);
    OnlyAt(service, k, here);
    StillLess(was[at], Waiting(was[..at]), Waiting(live[..here]), service.cursors[k], Waiting(service.cursors[..k]));
  }

  lemma StillLess(was: Entry, ahead: nat, less: nat, now: Entry, aheadNow: nat)
    requires less <= ahead && Waited(was, less, now, aheadNow)
    ensures Waited(was, ahead, now, aheadNow)
  {
  }

  lemma OnlyAt(service: Service, i: nat, k: nat)
    requires service.Valid() && k < |service.cursors| && i < |service.cursors| && service.cursors[i].id == service.cursors[k].id
    ensures i == k
  {
    hide CursorsOk, JobOk, OneHolder;
    service.OnlyOne(service.cursors, k);
  }

  lemma LandsOrPasses(service: Service, live: seq<Entry>, sent: seq<Entry>, found: nat, k: nat)
    requires found <= k < |live| && live[found].fetch == Running && live[k].fetch == Running && Dropped(live, found, sent)
    requires service.Valid() && service.OnlyLands(sent, live[found].id) && AllAnswerable(service, live[k].request) && service.small
    ensures k < |service.cursors| && service.cursors[k].id == live[k].id
    ensures Waited(live[k], Waiting(live[..k]), service.cursors[k], Waiting(service.cursors[..k]))
  {
    hide CursorsOk, JobOk, OneHolder, EntryOk, Waiting, Live;
    var now := service.cursors;
    assert DroppedTo(live, found, k, sent[k]) && DroppedTo(live, found, found, sent[found]);
    assert now[found].id == sent[found].id && now[k].id == sent[k].id;
    if found == k {
      assert Landed(sent[k], now[k]) && service.Lands(sent[k], now[k]) && service.server.Answerable(sent[k].request, sent[k].offset);
    } else {
      forall h | 0 <= h < |now| && h != found ensures now[h] == sent[h] {
        service.OnlyOne(now, found);
        assert now[h].id == sent[h].id;
      }
      assert Landed(sent[found], now[found]);
      Passed(live, sent, now, found, k);
    }
  }

  /** How many answers away the next rows are. */
  ghost function Away(e: Entry): nat {
    if GoesOn(e) then 0 else if e.fetch == Idle || e.fetch == Running then 1 else 2
  }

  /** What asking once more makes of a cursor that is to be read to its end: that was the last page; or rows were handed
      over; or the next ones are nearer; or they are being fetched. */
  ghost predicate Nearer(was: Entry, at: int, error: Error, page: Page, now: Entry) {
    && now.id == was.id && now.request == was.request && now.touched == at && now.failures == was.failures && now.notBefore == was.notBefore
    && if page.pending then now.fetch == Running && now.offset == was.offset && Away(was) == 1
       else (error == Ok && !page.hasMore) || now.offset > was.offset || (now.offset == was.offset && Away(now) < Away(was))
  }

  lemma Asks(service: Service, rows: Request -> seq<Row>, oversized: set<Row>, was: Entry, given: seq<Row>, over: set<nat>,
             at: int, error: Error, page: Page, now: Entry)
    requires service.Served(was, at, error, page, now) && EntryOk(rows, oversized, was, given, over)
    requires service.configured && service.connected && service.small && (was.failures == 0 || was.notBefore <= at)
    ensures Nearer(was, at, error, page, now)
  {
    hide Given, SteppedOk, ListOf;
  }

  /** A cursor that is open and was not left untouched for too long, whose list has an answer everywhere. */
  ghost predicate Readable(service: Service, i: nat, cursor: nat, start: int)
    reads service
  {
    && service.Valid() && service.job.None? && service.configured && service.connected && i < |service.cursors|
    && service.cursors[i].id == cursor && AllAnswerable(service, service.cursors[i].request) && service.small
    && start - service.cursors[i].touched < CURSOR_TTL
    && (service.cursors[i].failures == 0 || service.cursors[i].notBefore <= start)
  }

  ghost function Left(service: Service, i: nat): int
    requires i < |service.cursors|
    reads service
  {
    |ListOf(service.server.list, service.cursors[i].request)| - service.cursors[i].offset
  }

  lemma SomeLeft(service: Service, i: nat)
    requires service.Valid() && i < |service.cursors|
    ensures Left(service, i) >= 0
  {
    assert EntryOk(service.server.list, service.server.oversized, service.cursors[i], service.received[service.cursors[i].id], service.stepped[service.cursors[i].id]);
  }

  /** Pump until the cursor's own answer is in, whichever else wait before it. */
  method Await(service: Service, at: nat, ghost cursor: nat, start: int) returns (k: nat)
    requires Readable(service, at, cursor, start) && service.cursors[at].fetch == Running
    modifies service`cursors, service`received, service`stepped, service`job
    ensures Readable(service, k, cursor, start) && service.cursors[k].request == old(service.cursors[at].request)
    ensures GoesOn(service.cursors[k]) && service.cursors[k].offset >= old(service.cursors[at].offset)
  {
    hide CursorsOk, InOrder, JobOk, OneHolder, EntryOk, AllAnswerable, Waiting, GoesOn;
    k := at;
    while true
      invariant Readable(service, k, cursor, start) && service.cursors[k].fetch == Running
      invariant service.cursors[k].request == old(service.cursors[at].request) && service.cursors[k].offset == old(service.cursors[at].offset)
      decreases Waiting(service.cursors[..k])
    {
      k := PumpOnce(service, k, start);
      if service.cursors[k].fetch != Running {
        return;
      }
    }
  }

  /** A list is read to its end by asking for the next page, and pumping while it is to come: the last page is reached,
      whatever other cursors wait, if every part of the list has an answer. */
  method ReadAll(service: Service, at: nat, start: int) returns (pages: nat)
    requires at < |service.cursors| && Readable(service, at, service.cursors[at].id, start)
    modifies service`cursors, service`received, service`stepped, service`job
    ensures service.Valid() && service.job.None? && service.LastWord(old(service.cursors[at].id))
  {
    hide CursorsOk, InOrder, JobOk, OneHolder, EntryOk, AllAnswerable, GoesOn, Nearer, Away;
    var k, cursor := at, service.cursors[at].id;
    pages := 0;
    while true
      invariant Readable(service, k, cursor, start)
      decreases Left(service, k), Away(service.cursors[k])
    {
      SomeLeft(service, k);
      ghost var was := service.cursors[k];
      var error, page;
      k, error, page := AskOnce(service, k, cursor, start);
      NearerIs(was, error, page, service.cursors[k]);
      pages := pages + 1;
      if error == Ok && !page.pending && !page.hasMore {
        return;
      }
      SomeLeft(service, k);
      if page.pending {
        k := Await(service, k, cursor, start);
        SomeLeft(service, k);
        NoneAway(service.cursors[k]);
      }
    }
  }

  lemma NearerIs(was: Entry, error: Error, page: Page, now: Entry)
    requires Nearer(was, now.touched, error, page, now)
    ensures now.request == was.request
    ensures if page.pending then now.fetch == Running && now.offset == was.offset && Away(was) == 1
            else (error == Ok && !page.hasMore) || now.offset > was.offset || (now.offset == was.offset && Away(now) < Away(was))
  {
  }

  lemma NoneAway(e: Entry)
    requires GoesOn(e)
    ensures Away(e) == 0
  {
  }

  method AskOnce(service: Service, at: nat, cursor: nat, start: int) returns (k: nat, error: Error, page: Page)
    requires Readable(service, at, cursor, start)
    modifies service`cursors, service`received, service`stepped
    ensures Readable(service, k, cursor, start) && Nearer(old(service.cursors[at]), service.cursors[k].touched, error, page, service.cursors[k])
    ensures error == Ok && !page.pending && !page.hasMore ==> service.LastWord(cursor)
  {
    hide CursorsOk, InOrder, JobOk, OneHolder, EntryOk, AllAnswerable, GoesOn, Live, Nearer;
    ghost var was := service.cursors;
    var now := Tick(start, service.cursors[at].touched);
    Held(service, at);
    ghost var given, over, rows, large := service.received[cursor], service.stepped[cursor], service.server.list, service.server.oversized;
    ghost var here := LiveKeeps(was, at, now);
    error, page := service.ListNext(cursor, now);
    ServedAt(service, Live(was, now), here, now, error, page);
    Asks(service, rows, large, was[at], given, over, now, error, page, service.cursors[here]);
    NearerSame(was[at], now, error, page, service.cursors[here]);
    k := service.Find(cursor);
    OnlyAt(service, k, here);
  }

  lemma NearerSame(was: Entry, at: int, error: Error, page: Page, now: Entry)
    requires Nearer(was, at, error, page, now)
    ensures now.id == was.id && now.request == was.request && now.touched == at && now.failures == was.failures && now.notBefore == was.notBefore
  {
  }

  lemma ServedAt(service: Service, live: seq<Entry>, here: nat, at: int, error: Error, page: Page)
    requires service.Valid() && here < |live| && service.ServedOf(live, live[here].id, at, error, page)
    ensures |service.cursors| == |live| && service.cursors[here].id == live[here].id
    ensures service.Served(live[here], at, error, page, service.cursors[here])
  {
    hide CursorsOk, JobOk, OneHolder;
    var i :| 0 <= i < |live| && live[i].id == live[here].id && |service.cursors| == |live| && service.cursors == live[i := service.cursors[i]]
             && service.Served(live[i], at, error, page, service.cursors[i]);
    ServedKeepsId(service, live[i], at, error, page, service.cursors[i]);
    if i != here { service.OnlyOne(service.cursors, i); }
  }

  lemma ServedKeepsId(service: Service, was: Entry, at: int, error: Error, page: Page, now: Entry)
    requires service.Served(was, at, error, page, now)
    ensures now.id == was.id
  {
  }

  lemma Held(service: Service, i: nat)
    requires service.Valid() && i < |service.cursors|
    ensures service.cursors[i].id in service.received && service.cursors[i].id in service.stepped
    ensures EntryOk(service.server.list, service.server.oversized, service.cursors[i], service.received[service.cursors[i].id], service.stepped[service.cursors[i].id])
  {
  }
}
