/** The state of one pipeline as a value, what every transaction keeps of it,
    and what each fault costs. */
module Protocol {
  import opened Cursors
  import opened Sink
  import opened Selection
  import opened Ledger
  import opened WatermarkStore

  datatype RetryPolicy = RetryPolicy(base: nat, cap: nat, maxAttempts: int)

  function Power(b: nat, e: nat): nat {
    if e == 0 then 1 else b * Power(b, e - 1)
  }

  function DelayFor(p: RetryPolicy, attempt: int): nat {
    if attempt < 0 then 0
    else if Power(p.base, attempt) < p.cap then Power(p.base, attempt) else p.cap
  }

  /** How often one retry may be replayed: a limit below 1 still allows one. */
  function ReplayLimit(p: RetryPolicy): int {
    if p.maxAttempts < 1 then 1 else p.maxAttempts
  }

  datatype Outcome = Acked | RetryLater | PartialAck(accepted: Option<int>) | Permanent

  /** What may go wrong on a run. */
  datatype Fault =
    | Crash          // the process died inside a pump
    | PartialReplay  // a replay answered partial_ack: counted as acked, the record stays
    | PartialCut     // a partial ack committed, or named a point outside, its batch
    | Reanchor       // a blank record was given a second starting point

  /** `recorded`: the key held a record before the first pump. */
  datatype Config = Config(rd: Reader, startAtNow: bool, deletes: bool, key: Key, retry: RetryPolicy, recorded: bool)

  /** `anchored`: the record stands somewhere (at `books.pos`); `cursor`: as stored;
      `anchor`: the source's, in memory; `origin`: each retry as it was enqueued. */
  datatype State = State(books: Ledger, anchored: bool, faults: set<Fault>, queue: seq<Deliverable>, cursor: Cursor,
                         anchor: Option<int>, origin: map<nat, Deliverable>, replays: map<nat, nat>, nextId: nat)

  /** No fault that can lose a row. */
  predicate Kept(s: State) {
    PartialCut !in s.faults && Reanchor !in s.faults
  }

  ghost predicate Sound(c: Config, s: State) {
    Consistent(s.books) && Held(c.rd, s.books) && Covered(c.rd, s.books) && Gapless(c.rd, s.books)
  }

  /** The batch a retry, or a first attempt, has in hand. */
  ghost predicate InHand(c: Config, s: State, payload: seq<Row>, k: int) {
    s.anchored && (Kept(s) ==> Carries(c.rd, s.books, payload, k))
  }

  ghost predicate Holding(c: Config, s: State, hand: Option<Batch>) {
    hand.Some? ==> InHand(c, s, hand.value.records, hand.value.cursorAfter)
  }

  ghost predicate Queued(c: Config, s: State, d: Deliverable) {
    && d.key == c.key && d.cursorAfter.Digits? && d.token == d.cursorAfter
    && InHand(c, s, d.payload, d.cursorAfter.n)
  }

  /** A retry keeps every field it was enqueued with but its attempts and its
      next attempt, and its attempts count its replays. */
  predicate Counted(origin: map<nat, Deliverable>, replays: map<nat, nat>, d: Deliverable, limit: int) {
    && d.id in origin && d == origin[d.id].(attempts := d.attempts, nextAt := d.nextAt)
    && d.id in replays && d.attempts == replays[d.id] < limit
  }

  ghost predicate Counts(c: Config, s: State) {
    && (forall d :: d in s.queue ==> Counted(s.origin, s.replays, d, ReplayLimit(c.retry)))
    && (forall id :: id in s.origin ==> id < s.nextId)
    && (forall id :: id in s.replays ==> id < s.nextId && s.replays[id] <= ReplayLimit(c.retry))
  }

  /** What holds after every transaction, crash or no crash. */
  ghost predicate Base(c: Config, s: State) {
    && (s.cursor.Blank? || s.cursor.Digits?)
    && (s.cursor.Digits? ==> s.anchored && s.books.pos == s.cursor.n)
    && (c.recorded ==> s.cursor.Digits?)
    && (Reanchor in s.faults ==> c.startAtNow && !c.recorded && Crash in s.faults)
    && (Crash !in s.faults && s.cursor.Blank? && c.startAtNow && s.anchored ==> s.anchor.Some?)
    && (s.cursor.Blank? && !c.startAtNow ==> s.anchored && s.books.pos == 0)
    && (s.cursor.Blank? && c.startAtNow && s.anchor.Some? ==> s.anchored && s.books.pos == s.anchor.value)
    && (!s.anchored ==> s.books.acked == [] && s.queue == [] && s.anchor.None?)
    && (!s.anchored ==> s.books.table == s.books.ever && Sorted(s.books.ever))
    && (Kept(s) && s.anchored ==> Sound(c, s))
    && |s.queue| <= 1 && (forall d :: d in s.queue ==> Queued(c, s, d))
    && Counts(c, s)
  }

  /** Exactly once while nothing went wrong; `ahead` is what a destination took
      before the record followed. */
  ghost predicate Tally(c: Config, s: State, ahead: seq<Row>) {
    s.faults == {} ==> if s.anchored then Exact(c.rd, s.books, ahead) else ahead == []
  }

  /** A pipeline's first state: its record as stored, nothing queued. */
  function Initial(c: Config, table: seq<Row>, cursor: Cursor, nextId: nat): State {
    State(Ledger(table, table, AsInt(cursor), AsInt(cursor), []), cursor.Digits? || !c.startAtNow, {}, [], cursor, None,
          map[], map[], nextId)
  }

  lemma InitialHolds(c: Config, table: seq<Row>, cursor: Cursor, nextId: nat)
    requires Sorted(table) && (cursor.Blank? || cursor.Digits?) && c.recorded == cursor.Digits?
    ensures Base(c, Initial(c, table, cursor, nextId)) && Tally(c, Initial(c, table, cursor, nextId), [])
  {
    BetweenNothing(c.rd, table, AsInt(cursor), AsInt(cursor));
  }

  // ---- rows arrive; the process dies -----------------------------------------------

  lemma ArriveKeepsHand(c: Config, s: State, more: seq<Row>, payload: seq<Row>, k: int)
    requires (Kept(s) && s.anchored ==> Consistent(s.books)) && Fresh(s.books.ever, more) && InHand(c, s, payload, k)
    ensures InHand(c, s.(books := Arrived(s.books, more)), payload, k)
  {
    if Kept(s) { ArrivalCarries(c.rd, s.books, more, payload, k); }
  }

  lemma ArriveKeeps(c: Config, s: State, more: seq<Row>, ahead: seq<Row>)
    requires Base(c, s) && Tally(c, s, ahead) && Fresh(s.books.ever, more)
    ensures Base(c, s.(books := Arrived(s.books, more))) && Tally(c, s.(books := Arrived(s.books, more)), ahead)
  {
    if Kept(s) && s.anchored {
      ArrivalKeeps(c.rd, s.books, more);
      ArrivalGapless(c.rd, s.books, more);
    }
    forall d | d in s.queue ensures Queued(c, s.(books := Arrived(s.books, more)), d) {
      ArriveKeepsHand(c, s, more, d.payload, d.cursorAfter.n);
    }
  }

  lemma ArriveKeepsHeld(c: Config, s: State, more: seq<Row>, hand: Option<Batch>)
    requires Base(c, s) && Fresh(s.books.ever, more) && Holding(c, s, hand)
    ensures Holding(c, s.(books := Arrived(s.books, more)), hand)
  {
    if hand.Some? { ArriveKeepsHand(c, s, more, hand.value.records, hand.value.cursorAfter); }
  }

  lemma CrashKeeps(c: Config, s: State, ahead: seq<Row>, hand: Option<Batch>)
    requires Base(c, s)
    ensures Holding(c, s, hand) ==> Holding(c, s.(faults := s.faults + {Crash}, anchor := None), hand)
    ensures Base(c, s.(faults := s.faults + {Crash}, anchor := None))
    ensures Tally(c, s.(faults := s.faults + {Crash}, anchor := None), ahead)
  {
  }

  // ---- where a blank record starts ---------------------------------------------------

  /** What the surroundings of a run may do to it. */
  datatype Surroundings = Surroundings(crashes: bool, partialAcks: bool)

  /** No fault they cannot cause. */
  predicate Allowed(e: Surroundings, faults: set<Fault>) {
    (Crash in faults ==> e.crashes) && (PartialCut in faults || PartialReplay in faults ==> e.partialAcks)
  }

  /** Faults grow by a crash, when the process died, and by no more than `may`. */
  predicate Grown(before: set<Fault>, after: set<Fault>, died: bool, may: set<Fault>) {
    before <= after <= before + may + (if died then {Crash} else {}) && (died ==> Crash in after)
  }

  /** With neither crash nor partial ack nothing at all goes wrong: a source anchors
      anew only after a crash. */
  lemma QuietRunHasNoFault(c: Config, s: State, e: Surroundings)
    requires Base(c, s) && Allowed(e, s.faults) && !e.crashes && !e.partialAcks
    ensures s.faults == {}
  {
    hide Sound, Queued, Counts;
    forall f | f in s.faults ensures false {
      match f case Crash => case PartialReplay => case PartialCut => case Reanchor =>
    }
  }

  /** The state once a blank record is given the starting point `a`. */
  function Anchored(s: State, a: int): State {
    if !s.anchored then s.(anchored := true, books := s.books.(start := a, pos := a))
    else if s.books.pos == a then s
    else s.(books := s.books.(pos := a), faults := s.faults + {Reanchor})
  }

  lemma AnchorKeeps(c: Config, s: State, a: int)
    requires Base(c, s) && Tally(c, s, []) && s.cursor.Blank? && c.startAtNow && s.queue == []
    requires s.anchor.Some? ==> a == s.anchor.value
    ensures Base(c, Anchored(s, a).(anchor := Some(a))) && Tally(c, Anchored(s, a).(anchor := Some(a)), [])
  {
    BetweenNothing(c.rd, s.books.ever, a, a);
  }

  /** A second starting point keeps every row passed acked exactly when no row to ship
      lies between the last one a destination took (or the record) and that point: with
      nothing taken, when no row to ship arrived meanwhile; after an ack whose record was
      never written, when none arrived behind the acked batch. */
  lemma ReanchorKeepsIff(c: Config, s: State, a: int)
    requires Base(c, s) && Kept(s) && s.anchored && s.cursor.Blank?
    ensures Covered(c.rd, Anchored(s, a).books) <==>
            forall r :: r in s.books.ever && Readable(c.rd, r) && Highest(Flat(s.books.acked), s.books.pos) < r.id ==> a < r.id
  {
    JumpCoversIff(c.rd, s.books, a);
  }

  /** A source that starts at now on an empty sink anchors there, and then one row arrives. */
  function ArrivedBehindAnchor(c: Config, row: Row): State {
    var s := Anchored(Initial(c, [], Blank, 1), 0).(anchor := Some(0));
    s.(books := Arrived(s.books, [row]))
  }

  lemma ArrivedBehindAnchorHolds(c: Config, row: Row)
    requires c.startAtNow && !c.recorded
    ensures Base(c, ArrivedBehindAnchor(c, row))
  {
    var s := Initial(c, [], Blank, 1);
    InitialHolds(c, [], Blank, 1);
    AnchorKeeps(c, s, 0);
    ArriveKeeps(c, Anchored(s, 0).(anchor := Some(0)), [row], []);
    hide Base, Tally;
  }

  /** The process dies before that row is read, and the next read anchors past it. */
  lemma RestartLosesARow(c: Config, row: Row)
    requires c.startAtNow && !c.recorded && Readable(c.rd, row) && row.id == 1
    ensures var s := ArrivedBehindAnchor(c, row);
      var after := Anchored(s.(faults := s.faults + {Crash}, anchor := None), row.id).books;
      && Base(c, s) && Past(c.rd, s.books.table, row.id) == []
      && row in after.ever && after.start < row.id <= after.pos && row !in Flat(after.acked)
  {
    ArrivedBehindAnchorHolds(c, row);
    hide Base;
    assert [row][..0] == [];
  }

  /** A starting record: written only over nothing, where the source would anchor. */
  lemma StartRecordKeeps(c: Config, s: State, a: int, text: string)
    requires Base(c, s) && Tally(c, s, []) && s.cursor.Blank? && c.startAtNow
    requires s.anchor.Some? ==> a == s.anchor.value
    ensures Base(c, Anchored(s, a).(cursor := Digits(a, text))) && Tally(c, Anchored(s, a).(cursor := Digits(a, text)), [])
  {
    BetweenNothing(c.rd, s.books.ever, a, a);
  }

  /** A batch read at the record is the batch it must carry. */
  lemma ReadInHand(c: Config, s: State, b: Batch)
    requires Base(c, s) && s.anchored && s.books.pos < b.cursorAfter
    requires b.records == Records(Between(c.rd, s.books.table, s.books.pos, b.cursorAfter))
    requires exists r :: r in s.books.table && r.id == b.cursorAfter
    ensures InHand(c, s, b.records, b.cursorAfter)
  {
    if Kept(s) { BatchCarries(c.rd, s.books, b); }
  }

  /** Where the source reads from is where the record stands. */
  lemma ReadsAtTheRecord(c: Config, s: State, cur: int)
    requires Base(c, s)
    requires if s.cursor.Blank? && c.startAtNow then s.anchor == Some(cur) else cur == AsInt(s.cursor)
    ensures s.anchored && s.books.pos == cur
  {
  }

  // ---- a destination takes a batch; the record follows --------------------------------

  function Taken(s: State, payload: seq<Row>): State {
    s.(books := s.books.(acked := s.books.acked + [payload]))
  }

  lemma TakenKeepsBase(c: Config, s: State, payload: seq<Row>, k: int, hand: Option<Batch>)
    requires Base(c, s) && Tally(c, s, []) && s.anchored
    requires Kept(s) ==> payload == Records(Between(c.rd, s.books.ever, s.books.pos, k))
    ensures Base(c, Taken(s, payload)) && Tally(c, Taken(s, payload), payload)
    ensures Holding(c, s, hand) ==> Holding(c, Taken(s, payload), hand)
    ensures forall r :: r in payload ==> r in Flat(Taken(s, payload).books.acked)
  {
    TakenKeeps(c.rd, s.books, payload);
    FlatAdd(s.books.acked, payload);
    if Kept(s) { TakenGapless(c.rd, s.books, payload, k); }
  }

  /** A destination takes the batch in hand. */
  lemma HandTaken(c: Config, s: State, hand: Batch)
    requires Base(c, s) && Tally(c, s, []) && InHand(c, s, hand.records, hand.cursorAfter)
    ensures Base(c, Taken(s, hand.records)) && Tally(c, Taken(s, hand.records), hand.records)
    ensures Holding(c, Taken(s, hand.records), Some(hand))
    ensures forall r :: r in hand.records ==> r in Flat(Taken(s, hand.records).books.acked)
  {
    TakenKeepsBase(c, s, hand.records, hand.cursorAfter, Some(hand));
  }

  /** A partial ack up to `a` inside the batch takes its rows up to `a`. */
  lemma PartialTaken(c: Config, s: State, payload: seq<Row>, k: int, a: int)
    requires Base(c, s) && Tally(c, s, []) && InHand(c, s, payload, k) && a <= k
    ensures var taken := Records(Between(c.rd, s.books.ever, s.books.pos, a));
      && Base(c, Taken(s, taken)) && Tally(c, Taken(s, taken), taken)
      && (forall r :: r in taken ==> r in Flat(Taken(s, taken).books.acked))
      && (if s.books.pos < a then InHand(c, Taken(s, taken), taken, a) else taken == [])
  {
    TakenKeepsBase(c, s, Records(Between(c.rd, s.books.ever, s.books.pos, a)), a, None);
    if a <= s.books.pos { BetweenNothing(c.rd, s.books.ever, s.books.pos, a); }
  }

  /** One that claims more than the batch held costs every promise. */
  lemma OverclaimKeeps(c: Config, s: State)
    requires Base(c, s) && s.anchored
    ensures var s' := s.(faults := s.faults + {PartialCut}); Base(c, s') && Tally(c, s', [])
  {
  }

  /** What `advance_cursor` makes of the stored cursor, in the by-id order. */
  function Moved(s: State, k: int, text: string): State {
    if s.cursor.Blank? || (s.cursor.Digits? && s.cursor.n < k) then
      s.(cursor := Digits(k, text), books := s.books.(pos := k),
         faults := s.faults + if k < s.books.pos && Kept(s) then {PartialCut} else {})
    else s
  }

  lemma MovedIsAdvance(s: State, rec: Option<Record>, k: int, text: string, ack: int)
    requires s.cursor == (if rec.Some? then rec.value.cursor else Blank) && (s.cursor.Blank? || s.cursor.Digits?)
    ensures var out := Advanced(ById, rec, Digits(k, text), ack).0;
      out.Some? && (out.value.cursor == Moved(s, k, text).cursor)
  {
  }

  /** The ack of the batch in hand moves the record to its end. */
  lemma AckMoves(c: Config, s: State, payload: seq<Row>, k: int, text: string)
    requires Base(c, s) && s.anchored && s.queue == [] && Tally(c, s, payload)
    requires InHand(c, s, payload, k)
    requires forall r :: r in payload ==> r in Flat(s.books.acked)
    ensures Base(c, Moved(s, k, text)) && Tally(c, Moved(s, k, text), [])
    ensures Kept(s) ==> Moved(s, k, text).books.pos == k
    ensures Moved(s, k, text).faults == s.faults
  {
    if Kept(s) {
      AdvanceKeeps(c.rd, s.books, k, payload);
    }
  }

  /** A partial ack moves it to the accepted point, never past the batch. */
  lemma PartialMoves(c: Config, s: State, taken: seq<Row>, a: int, text: string)
    requires Base(c, s) && s.anchored && s.queue == [] && Tally(c, s, taken)
    requires Kept(s) ==> if s.books.pos < a then InHand(c, s, taken, a) else taken == []
    requires forall r :: r in taken ==> r in Flat(s.books.acked)
    ensures Base(c, Moved(s, a, text)) && Tally(c, Moved(s, a, text), [])
  {
    if s.books.pos < a {
      if Kept(s) { AdvanceKeeps(c.rd, s.books, a, taken); }
    }
  }

  // ---- the source deletes what was committed ---------------------------------------------

  function Deleted(c: Config, s: State, k: int): State {
    if c.deletes then s.(books := s.books.(table := Committed(c.rd, s.books.table, k))) else s
  }

  lemma DeleteKeeps(c: Config, s: State, k: int)
    requires Base(c, s) && Tally(c, s, []) && s.anchored && s.queue == []
    requires Kept(s) ==> k <= s.books.pos
    ensures Base(c, Deleted(c, s, k)) && Tally(c, Deleted(c, s, k), [])
  {
    if Kept(s) { CommitKeeps(c.rd, s.books, k); }
  }

  /** The token of a partial ack reaches past the record: rows in between go. */
  predicate Cuts(c: Config, s: State, k: int) {
    c.deletes && s.books.pos < k && Between(c.rd, s.books.ever, s.books.pos, k) != []
  }

  function CutDeleted(c: Config, s: State, k: int): State {
    var s' := Deleted(c, s, k);
    if Cuts(c, s, k) then s'.(faults := s'.faults + {PartialCut}) else s'
  }

  lemma CutDeleteKeeps(c: Config, s: State, k: int)
    requires Base(c, s) && Tally(c, s, []) && s.anchored && s.queue == []
    ensures Base(c, CutDeleted(c, s, k)) && Tally(c, CutDeleted(c, s, k), [])
    ensures Kept(s) ==> (Sound(c, Deleted(c, s, k)) <==> !Cuts(c, s, k))
  {
    if Kept(s) { CutKeepsSoundIff(c, s, k); }
    hide Sound, Cuts, Exact, Counted;
    assert forall d :: d !in s.queue;
  }

  lemma CutKeepsSoundIff(c: Config, s: State, k: int)
    requires Sound(c, s)
    ensures Sound(c, Deleted(c, s, k)) <==> !Cuts(c, s, k)
  {
    if k <= s.books.pos { CommitKeeps(c.rd, s.books, k); } else { PartialCommitKeepsIff(c.rd, s.books, k); }
    hide Consistent, Held, Covered, Between, Committed;
    assert Gapless(c.rd, s.books.(table := Committed(c.rd, s.books.table, k)));
  }

  // ---- the retry queue -----------------------------------------------------------------------

  function Enqueued(s: State, d: Deliverable): State {
    s.(queue := [d], origin := s.origin[d.id := d], replays := s.replays[d.id := 0], nextId := d.id + 1)
  }

  lemma EnqueueKeeps(c: Config, s: State, d: Deliverable)
    requires Base(c, s) && Tally(c, s, []) && s.queue == [] && s.anchored
    requires d.id == s.nextId && d.attempts == 0 && d.key == c.key && d.cursorAfter.Digits? && d.token == d.cursorAfter
    requires InHand(c, s, d.payload, d.cursorAfter.n)
    ensures Base(c, Enqueued(s, d)) && Tally(c, Enqueued(s, d), [])
  {
  }

  function Replayed(s: State, d: Deliverable): State
    requires d.id in s.replays
  {
    s.(replays := s.replays[d.id := s.replays[d.id] + 1])
  }

  function Requeued(s: State, d: Deliverable): State {
    s.(queue := [d])
  }

  /** The retry just claimed was replayed once more, never past the limit. */
  lemma CountOneMore(c: Config, s: State, d: Deliverable)
    requires Base(c, s) && Tally(c, s, []) && s.queue == [] && Counted(s.origin, s.replays, d, ReplayLimit(c.retry))
    requires d.cursorAfter.Digits? && InHand(c, s, d.payload, d.cursorAfter.n)
    ensures Base(c, Replayed(s, d)) && Tally(c, Replayed(s, d), [])
    ensures InHand(c, Replayed(s, d), d.payload, d.cursorAfter.n)
    ensures Counted(s.origin, Replayed(s, d).replays, d.(attempts := d.attempts + 1), ReplayLimit(c.retry) + 1)
  {
  }

  /** A replay answering partial_ack costs exactly-once and nothing else. */
  lemma PartialReplayKeeps(c: Config, s: State, hand: Option<Batch>)
    requires Base(c, s) && Holding(c, s, hand)
    ensures Holding(c, s.(faults := s.faults + {PartialReplay}), hand)
    ensures Base(c, s.(faults := s.faults + {PartialReplay})) && Tally(c, s.(faults := s.faults + {PartialReplay}), [])
  {
  }

  lemma ClaimKeeps(c: Config, s: State)
    requires Base(c, s) && Tally(c, s, [])
    ensures Base(c, s.(queue := [])) && Tally(c, s.(queue := []), []) && |s.queue| <= 1
  {
  }

  /** What a retry just claimed carries. */
  lemma ClaimedFields(c: Config, s: State, d: Deliverable)
    requires Base(c, s) && s.queue == [d]
    ensures d.key == c.key && d.cursorAfter.Digits? && d.token == d.cursorAfter && s.anchored
    ensures var s' := s.(queue := []);
      InHand(c, s', d.payload, d.cursorAfter.n) && Counted(s.origin, s.replays, d, ReplayLimit(c.retry))
  {
    assert d in s.queue;
  }

  /** A claimed and replayed retry goes back whole, its attempts one higher, only
      below the limit. */
  lemma RequeueKeeps(c: Config, s: State, d: Deliverable, nextAt: int)
    requires Base(c, s) && Tally(c, s, []) && s.queue == [] && d.attempts + 1 < c.retry.maxAttempts
    requires d.key == c.key && d.cursorAfter.Digits? && d.token == d.cursorAfter && InHand(c, s, d.payload, d.cursorAfter.n)
    requires Counted(s.origin, s.replays, d.(attempts := d.attempts + 1), ReplayLimit(c.retry))
    ensures var d' := d.(attempts := d.attempts + 1, nextAt := nextAt);
      Base(c, Requeued(s, d')) && Tally(c, Requeued(s, d'), [])
  {
  }

  // ---- what the protocol promises -------------------------------------------------------------

  /** Every selected row the record passed was acked, if readable, and every one above it
      is still in the sink. */
  ghost predicate AtLeastOnce(c: Config, s: State) {
    forall r :: r in s.books.ever && Selected(c.rd, r) ==>
      && (s.books.start < r.id <= s.books.pos && r.parseable ==> r in Flat(s.books.acked))
      && (s.books.pos < r.id ==> r in s.books.table)
  }

  /** At least once: unless a partial ack cut a batch, or a pipeline with neither a
      record nor a fixed start was re-anchored. */
  ghost predicate NothingLost(c: Config, s: State) {
    PartialCut !in s.faults && (c.recorded || !c.startAtNow || Reanchor !in s.faults) && s.anchored ==> AtLeastOnce(c, s)
  }

  /** Exactly once, in id order: while nothing went wrong the acked batches are the
      selected rows from the start to the record, and nothing else. */
  ghost predicate ExactlyOnce(c: Config, s: State) {
    s.faults == {} && s.anchored ==>
      Flat(s.books.acked) == Records(Between(c.rd, s.books.ever, s.books.start, s.books.pos))
  }

  /** The queue holds at most one retry, and it carries exactly the selected rows
      after the record up to its own cursor. */
  ghost predicate OneRetry(c: Config, s: State) {
    && |s.queue| <= 1
    && (s.queue != [] && Kept(s) ==>
          s.queue[0].cursorAfter.Digits? && s.queue[0].token == s.queue[0].cursorAfter &&
          s.books.pos < s.queue[0].cursorAfter.n &&
          s.queue[0].payload == Records(Between(c.rd, s.books.ever, s.books.pos, s.queue[0].cursorAfter.n)))
  }

  /** The same by what the surroundings may do: no partial acks, and a record, a start at
      the beginning, or no crash, give at least once; no crash as well gives exactly once. */
  lemma PromisesAround(c: Config, s: State, e: Surroundings)
    requires Base(c, s) && Tally(c, s, []) && Allowed(e, s.faults)
    ensures !e.partialAcks && (c.recorded || !c.startAtNow || !e.crashes) && s.anchored ==> AtLeastOnce(c, s)
    ensures !e.partialAcks && !e.crashes ==> s.faults == {}
    ensures !e.partialAcks && !e.crashes && s.anchored ==>
              Flat(s.books.acked) == Records(Between(c.rd, s.books.ever, s.books.start, s.books.pos))
  {
    Promises(c, s);
    if !e.partialAcks && !e.crashes { QuietRunHasNoFault(c, s, e); }
    RestartFirst(c, s);
    hide Base, Tally, AtLeastOnce, Records, Between;
  }

  lemma RestartFirst(c: Config, s: State)
    requires Base(c, s)
    ensures Reanchor in s.faults ==> Crash in s.faults
  {
  }

  lemma Promises(c: Config, s: State)
    requires Base(c, s) && Tally(c, s, [])
    ensures NothingLost(c, s) && ExactlyOnce(c, s) && OneRetry(c, s)
    ensures forall id :: id in s.replays ==> s.replays[id] <= ReplayLimit(c.retry)
  {
    if Kept(s) && s.anchored {
      forall r | r in s.books.ever && Selected(c.rd, r)
        ensures s.books.start < r.id <= s.books.pos && r.parseable ==> r in Flat(s.books.acked)
        ensures s.books.pos < r.id ==> r in s.books.table
      {
        BetweenMember(c.rd, s.books.ever, s.books.start, s.books.pos, r);
        RecordsMember(Between(c.rd, s.books.ever, s.books.start, s.books.pos), r);
        PastMember(c.rd, s.books.ever, s.books.pos, r);
        PastMember(c.rd, s.books.table, s.books.pos, r);
      }
    }
    if s.queue != [] {
      assert s.queue[0] in s.queue;
    }
  }
}
