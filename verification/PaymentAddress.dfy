/** The slot of one (wallet, currency, network) payment address, for which any number of workers
    race.  A worker does everything inside one database transaction that spans all slots of its
    user and stays open during the provider's calls: what it writes is its own until it commits,
    and goes when the transaction is rolled back.  Writers of the row wait for its holder. */
module PaymentAddress {
  import opened Wrappers

  const STALE_MS: int := 3 * 60 * 1000

  datatype Status = Processing | Active | Failed

  /** `id` is quidaxAddressId. */
  datatype Row = Row(status: Status, id: Option<string>, updatedAt: int)

  type WorkerId = nat

  /** Where a worker is.  `alive` says that its transaction can still commit, `call` and `made` are the number
      of its provider call. */
  datatype Phase =
    | Idle
    | Open
    | Lost
    | Found(row: Row)
    | Stale(row: Row, at: int)
    | Calling(call: nat, alive: bool)
    | Returned(made: Option<nat>, alive: bool)

  /** A provider call: the time its claim was stamped with, when it started, and whether the
      caller's transaction has committed. */
  datatype Call = Call(caller: WorkerId, stamp: int, start: int, committed: bool)

  /** The version of the row that an open transaction has written. */
  datatype Held = Held(holder: WorkerId, row: Row)

  /** `savepoints` says whether a failed statement spares the rest of its transaction.  `calls` and
      `clock` are history. */
  datatype State = State(
    savepoints: bool,
    committed: Option<Row>,
    held: Option<Held>,
    workers: map<WorkerId, Phase>,
    calls: seq<Call>,
    clock: int)

  /** A statement that had to wait carries a `stamp` from before it waited.  Abort is a rollback
      that the worker does not notice: a timeout, a lost connection, a failed statement. */
  datatype Act =
    | Begin
    | Insert(stamp: int)
    | Find
    | Check
    | Swap(stamp: int)
    | Answer(id: Option<string>)
    | Fail(recorded: bool)
    | Commit
    | Abort
    | Crash

  datatype Event = At(now: int, w: WorkerId, act: Act)

  function PhaseOf(s: State, w: WorkerId): Phase {
    if w in s.workers then s.workers[w] else Idle
  }

  function Move(s: State, w: WorkerId, p: Phase): State {
    s.(workers := s.workers[w := p])
  }

  predicate HeldBy(s: State, w: WorkerId) {
    s.held.Some? && s.held.value.holder == w
  }

  predicate Waits(s: State, w: WorkerId) {
    s.held.Some? && s.held.value.holder != w
  }

  /** The rollback of a worker's transaction, as far as the slot is concerned. */
  function Rollback(s: State, w: WorkerId, p: Phase): State {
    Move(s, w, p).(held := if HeldBy(s, w) then None else s.held)
  }

  function StartCall(s: State, w: WorkerId, held: Option<Held>, stamp: int, now: int): State {
    Move(s, w, Calling(|s.calls|, true)).(held := held, calls := s.calls + [Call(w, stamp, now, false)])
  }

  predicate Claimed(r: Row) {
    r.status == Processing && r.id.None?
  }

  /** What a worker does with the row it found when its insert met the unique constraint. */
  function CheckRow(s: State, w: WorkerId, r: Row, now: int): State {
    if r.status == Active && r.id.Some? then Move(s, w, Returned(None, true))
    else if r.status == Failed then Move(s, w, Returned(None, true))
    else if r.status == Processing && r.id.Some? then Move(s, w, Returned(None, true))
    else if r.status == Processing
    then Move(s, w, if now - r.updatedAt < STALE_MS then Returned(None, true) else Stale(r, now))
    else StartCall(s, w, s.held, now, now)
  }

  /** The row as the worker's transaction sees it. */
  function View(s: State, w: WorkerId): Option<Row> {
    if HeldBy(s, w) then Some(s.held.value.row) else s.committed
  }

  /** The end of a call whose last statement makes the row `row`. */
  function Finish(s: State, w: WorkerId, p: Phase, row: Row): State
    requires p.Calling?
  {
    if !p.alive then Move(s, w, Returned(Some(p.call), false))
    else if Waits(s, w) then s
    else Move(s, w, Returned(Some(p.call), true)).(held := Some(Held(w, row)))
  }

  function CommitStep(s: State, w: WorkerId, p: Phase): State
    requires p.Returned?
  {
    if !p.alive then Rollback(s, w, Idle)
    else
      Move(s, w, Idle).(
        committed := if HeldBy(s, w) then Some(s.held.value.row) else s.committed,
        held := if HeldBy(s, w) then None else s.held,
        calls := if p.made.Some? && p.made.value < |s.calls|
                 then s.calls[p.made.value := s.calls[p.made.value].(committed := true)] else s.calls)
  }

  function AbortStep(s: State, w: WorkerId, p: Phase): State {
    match p
    case Idle => s
    case Calling(call, _) => Rollback(s, w, Calling(call, false))
    case Returned(made, _) => Rollback(s, w, Returned(made, false))
    case _ => Rollback(s, w, Returned(None, false))
  }

  function WorkStep(s: State, w: WorkerId, act: Act, now: int): State {
    var p := PhaseOf(s, w);
    match act
    case Begin => if p.Idle? then Move(s, w, Open) else s
    case Insert(stamp) =>
      if !p.Open? || Waits(s, w) then s
      else if s.committed.Some?
      then (if s.savepoints then Move(s, w, Lost) else Rollback(s, w, Returned(None, false)))
      else StartCall(s, w, Some(Held(w, Row(Processing, None, stamp))), stamp, now)
    case Find =>
      if !p.Lost? then s
      else Move(s, w, if View(s, w).Some? then Found(View(s, w).value) else Returned(None, true))
    case Check => if p.Found? then CheckRow(s, w, p.row, now) else s
    case Swap(stamp) =>
      if !p.Stale? || Waits(s, w) then s
      else if s.committed.Some? && s.committed.value.updatedAt == p.row.updatedAt && Claimed(s.committed.value)
      then StartCall(s, w, Some(Held(w, s.committed.value.(updatedAt := stamp))), stamp, now)
      else Move(s, w, Returned(None, true))
    case Answer(id) =>
      if !p.Calling? || View(s, w).None? then s
      else Finish(s, w, p, if id.Some? then Row(Active, id, now) else View(s, w).value.(updatedAt := now))
    case Fail(recorded) =>
      if !p.Calling? || View(s, w).None? then s
      else if recorded then Finish(s, w, p, View(s, w).value.(status := Failed, updatedAt := now))
      else if s.savepoints then Move(s, w, Returned(Some(p.call), p.alive))
      else Rollback(s, w, Returned(Some(p.call), false))
    case Commit => if p.Returned? then CommitStep(s, w, p) else if p.Open? then Move(s, w, Idle) else s
    case Abort => AbortStep(s, w, p)
    case Crash => Rollback(s, w, Idle)
  }

  function Step(s: State, e: Event): State {
    WorkStep(s, e.w, e.act, e.now).(clock := e.now)
  }

  function Run(s: State, es: seq<Event>): State
    decreases |es|
  {
    if es == [] then s else Run(Step(s, es[0]), es[1..])
  }

  predicate Initial(s: State) {
    s.committed.None? && s.held.None? && s.workers == map[] && s.calls == []
  }

  /** Time does not run back, and a statement is stamped after what its worker did before. */
  predicate Plausible(s: State, e: Event) {
    && s.clock <= e.now
    && (e.act.Insert? ==> e.act.stamp <= e.now)
    && (e.act.Swap? ==> e.act.stamp <= e.now && (PhaseOf(s, e.w).Stale? ==> PhaseOf(s, e.w).at <= e.act.stamp))
  }

  predicate Ordered(s: State, es: seq<Event>)
    decreases |es|
  {
    es == [] || (Plausible(s, es[0]) && Ordered(Step(s, es[0]), es[1..]))
  }

  // ---------------------------------------------------------------- the invariant

  predicate RowOk(r: Row, clock: int) {
    (r.status == Active ==> r.id.Some?) && r.updatedAt <= clock
  }

  /** The number of the call that a live transaction has made. */
  function LiveCall(p: Phase): Option<nat> {
    match p
    case Calling(call, true) => Some(call)
    case Returned(made, true) => made
    case _ => None
  }

  predicate PhaseOk(s: State, w: WorkerId, p: Phase) {
    && (LiveCall(p).Some? ==> HeldBy(s, w) && LiveCall(p).value + 1 == |s.calls|)
    && (p.Lost? || p.Found? || p.Stale? ==> s.savepoints)
    && (p.Lost? ==> s.committed.Some?)
    && (p.Calling? ==> p.call < |s.calls|)
    && (p.Found? ==> RowOk(p.row, s.clock))
    && (p.Stale? ==> p.row.updatedAt + STALE_MS <= p.at <= s.clock)
  }

  predicate RowsInv(s: State) {
    && (s.committed.Some? ==> RowOk(s.committed.value, s.clock))
    && (s.held.Some? ==>
          && RowOk(s.held.value.row, s.clock)
          && LiveCall(PhaseOf(s, s.held.value.holder)).Some?
          && s.calls != [] && !s.calls[|s.calls| - 1].committed
          && s.calls[|s.calls| - 1].stamp <= s.held.value.row.updatedAt
          && (s.committed.Some? ==> s.committed.value.updatedAt <= s.held.value.row.updatedAt))
  }

  /** The committed row against the calls: it is younger than every committed claim, and three
      minutes older than a claim that has not committed. */
  predicate CallsInv(s: State) {
    && (s.committed.None? ==> forall i :: 0 <= i < |s.calls| ==> !s.calls[i].committed)
    && (s.committed.Some? ==> forall i :: 0 <= i < |s.calls| && s.calls[i].committed ==>
          s.calls[i].stamp <= s.committed.value.updatedAt)
    && (s.committed.Some? && s.calls != [] && !s.calls[|s.calls| - 1].committed ==>
          s.savepoints && Claimed(s.committed.value)
          && s.committed.value.updatedAt + STALE_MS <= s.calls[|s.calls| - 1].stamp)
    && (forall i :: 0 <= i < |s.calls| ==> s.calls[i].stamp <= s.calls[i].start <= s.clock)
  }

  /** Calls start at least three minutes after the claim of every earlier call that committed. */
  predicate CallsApart(calls: seq<Call>) {
    forall i, j :: 0 <= i < j < |calls| && calls[i].committed ==> calls[i].stamp + STALE_MS <= calls[j].start
  }

  predicate WorkersInv(s: State) {
    forall w :: w in s.workers ==> PhaseOk(s, w, s.workers[w])
  }

  predicate Inv(s: State) {
    RowsInv(s) && CallsInv(s) && CallsApart(s.calls) && WorkersInv(s)
  }

  /** A worker that lost the insert never calls the provider without a swap of its own. */
  lemma CheckOnlyStales(s: State, w: WorkerId, r: Row, now: int, clock: int)
    requires RowOk(r, clock)
    ensures CheckRow(s, w, r, now) == Move(s, w, Returned(None, true))
         || (now - r.updatedAt >= STALE_MS && CheckRow(s, w, r, now) == Move(s, w, Stale(r, now)))
  {}

  /** The slot's part of a step that neither starts a call nor commits. */
  predicate HeldMoves(s: State, n: State, w: WorkerId) {
    || n.held == s.held
    || (HeldBy(s, w) && n.held.None?)
    || (HeldBy(s, w) && HeldBy(n, w) && RowOk(n.held.value.row, n.clock)
        && s.held.value.row.updatedAt <= n.held.value.row.updatedAt)
  }

  /** Such a step keeps the invariant when its worker's new phase fits. */
  lemma MoveKeepsInv(s: State, n: State, w: WorkerId, p: Phase)
    requires Inv(s) && n == State(s.savepoints, s.committed, n.held, s.workers[w := p], s.calls, n.clock)
    requires s.clock <= n.clock && HeldMoves(s, n, w) && PhaseOk(n, w, p)
    requires HeldBy(n, w) ==> LiveCall(p).Some?
    ensures Inv(n)
  {
    assert WorkersInv(n) by {
      hide CallsInv, CallsApart;
      forall v | v in n.workers ensures PhaseOk(n, v, n.workers[v]) {
        if v != w { assert PhaseOk(s, v, s.workers[v]); }
      }
    }
    hide CallsApart;
  }

  /** A step that starts a call: nobody held the row, and what is committed is old enough. */
  lemma StartKeepsInv(s: State, n: State, w: WorkerId, row: Row, stamp: int, now: int)
    requires Inv(s) && s.held.None? && s.clock <= now && stamp <= now
    requires n == StartCall(s, w, Some(Held(w, row)), stamp, now).(clock := now)
    requires Claimed(row) && row.updatedAt == stamp
    requires s.committed.Some? ==>
      s.savepoints && Claimed(s.committed.value) && s.committed.value.updatedAt + STALE_MS <= stamp
    ensures Inv(n)
  {
    assert WorkersInv(n) by {
      hide CallsInv, CallsApart, RowsInv;
      forall v | v in n.workers ensures PhaseOk(n, v, n.workers[v]) {
        if v != w { assert PhaseOk(s, v, s.workers[v]); }
      }
    }
    assert CallsInv(n) && CallsApart(n.calls) by { hide WorkersInv, RowsInv; }
    hide CallsInv, CallsApart, WorkersInv;
  }

  lemma InsertKeepsInv(s: State, e: Event)
    requires Inv(s) && Plausible(s, e) && e.act.Insert?
    ensures Inv(Step(s, e))
  {
    var p, n := PhaseOf(s, e.w), Step(s, e);
    if !p.Open? || Waits(s, e.w) {
      TimeKeepsInv(s, e.now);
    } else if s.committed.Some? {
      hide CallsInv, CallsApart, WorkersInv;
      MoveKeepsInv(s, n, e.w, n.workers[e.w]);
    } else {
      StartKeepsInv(s, n, e.w, Row(Processing, None, e.act.stamp), e.act.stamp, e.now);
    }
  }

  lemma SwapKeepsInv(s: State, e: Event)
    requires Inv(s) && Plausible(s, e) && e.act.Swap?
    ensures Inv(Step(s, e))
  {
    var p, n := PhaseOf(s, e.w), Step(s, e);
    if !p.Stale? || Waits(s, e.w) {
      TimeKeepsInv(s, e.now);
    } else {
      assert PhaseOk(s, e.w, p);
      if |n.calls| > |s.calls| {
        StartKeepsInv(s, n, e.w, s.committed.value.(updatedAt := e.act.stamp), e.act.stamp, e.now);
      } else {
        hide CallsInv, CallsApart, WorkersInv;
        MoveKeepsInv(s, n, e.w, n.workers[e.w]);
      }
    }
  }

  lemma TimeKeepsInv(s: State, now: int)
    requires Inv(s) && s.clock <= now
    ensures Inv(s.(clock := now))
  {
    assert forall w :: w in s.workers && PhaseOk(s, w, s.workers[w]) ==> PhaseOk(s.(clock := now), w, s.workers[w]);
  }

  lemma LookKeepsInv(s: State, e: Event)
    requires Inv(s) && Plausible(s, e) && (e.act.Begin? || e.act.Find? || e.act.Check?)
    ensures Inv(Step(s, e))
  {
    var p, n := PhaseOf(s, e.w), Step(s, e);
    assert e.w in s.workers ==> PhaseOk(s, e.w, p);
    if e.act.Check? && p.Found? { CheckOnlyStales(s, e.w, p.row, e.now, s.clock); }
    if (e.act.Begin? && p.Idle?) || (e.act.Find? && p.Lost?) || (e.act.Check? && p.Found?) {
      hide CallsInv, CallsApart, WorkersInv, CheckRow;
      MoveKeepsInv(s, n, e.w, n.workers[e.w]);
    } else {
      TimeKeepsInv(s, e.now);
    }
  }

  lemma RolledBack(s: State, w: WorkerId, p: Phase, now: int)
    requires Inv(s) && s.clock <= now && LiveCall(p).None? && !p.Lost? && !p.Found? && !p.Stale?
    requires p.Calling? ==> p.call < |s.calls|
    ensures Inv(Rollback(s, w, p).(clock := now))
  {
    hide Inv;
    MoveKeepsInv(s, Rollback(s, w, p).(clock := now), w, p);
  }

  /** The end of a call: a live one rewrites the row it holds, a dead one writes nothing. */
  lemma Finished(s: State, w: WorkerId, p: Phase, row: Row, now: int)
    requires Inv(s) && s.clock <= now && p.Calling? && PhaseOk(s, w, p)
    requires p.alive ==> RowOk(row, now) && s.held.value.row.updatedAt <= row.updatedAt
    requires !p.alive ==> !HeldBy(s, w)
    ensures Inv(Finish(s, w, p, row).(clock := now))
  {
    var n := Finish(s, w, p, row).(clock := now);
    hide Inv;
    MoveKeepsInv(s, n, w, n.workers[w]);
  }

  /** Whoever holds the row has a live call. */
  lemma HolderIsLive(s: State, w: WorkerId)
    requires Inv(s)
    ensures HeldBy(s, w) <==> LiveCall(PhaseOf(s, w)).Some?
  {
    assert w in s.workers ==> PhaseOk(s, w, s.workers[w]);
  }

  lemma FinishKeepsInv(s: State, e: Event)
    requires Inv(s) && Plausible(s, e) && (e.act.Answer? || e.act.Fail?)
    ensures Inv(Step(s, e))
  {
    var p := PhaseOf(s, e.w);
    assert e.w in s.workers ==> PhaseOk(s, e.w, p);
    HolderIsLive(s, e.w);
    if !p.Calling? || View(s, e.w).None? {
      TimeKeepsInv(s, e.now);
    } else {
      hide CallsInv, CallsApart, WorkersInv, Finish;
      if e.act.Answer? {
        Finished(s, e.w, p, if e.act.id.Some? then Row(Active, e.act.id, e.now)
                            else View(s, e.w).value.(updatedAt := e.now), e.now);
      } else if e.act.recorded {
        Finished(s, e.w, p, View(s, e.w).value.(status := Failed, updatedAt := e.now), e.now);
      } else if s.savepoints {
        MoveKeepsInv(s, Step(s, e), e.w, Returned(Some(p.call), p.alive));
      } else {
        RolledBack(s, e.w, Returned(Some(p.call), false), e.now);
      }
    }
  }

  lemma RollbackKeepsInv(s: State, e: Event)
    requires Inv(s) && Plausible(s, e) && (e.act.Abort? || e.act.Crash?)
    ensures Inv(Step(s, e))
  {
    var p := PhaseOf(s, e.w);
    assert e.w in s.workers ==> PhaseOk(s, e.w, p);
    hide Inv, Rollback;
    if e.act.Crash? {
      RolledBack(s, e.w, Idle, e.now);
    } else {
      match p
      case Idle => TimeKeepsInv(s, e.now);
      case Calling(call, _) => RolledBack(s, e.w, Calling(call, false), e.now);
      case Returned(made, _) => RolledBack(s, e.w, Returned(made, false), e.now);
      case _ => RolledBack(s, e.w, Returned(None, false), e.now);
    }
  }

  lemma CommitKeepsInv(s: State, e: Event)
    requires Inv(s) && Plausible(s, e) && e.act.Commit?
    ensures Inv(Step(s, e))
  {
    var p, n := PhaseOf(s, e.w), Step(s, e);
    assert e.w in s.workers ==> PhaseOk(s, e.w, p);
    if LiveCall(p).Some? && p.Returned? {
      CommitCallKeepsInv(s, n, e.w, p.made.value);
    } else {
      hide CallsInv, CallsApart, WorkersInv;
      if n == s.(clock := e.now) {
        TimeKeepsInv(s, e.now);
      } else {
        MoveKeepsInv(s, n, e.w, n.workers[e.w]);
      }
    }
  }

  lemma CommitCallKeepsInv(s: State, n: State, w: WorkerId, k: nat)
    requires Inv(s) && s.clock <= n.clock && HeldBy(s, w) && k + 1 == |s.calls|
    requires n == State(s.savepoints, Some(s.held.value.row), None, s.workers[w := Idle],
                        s.calls[k := s.calls[k].(committed := true)], n.clock)
    ensures Inv(n)
  {
    assert WorkersInv(n) by {
      hide CallsInv, CallsApart;
      forall v | v in n.workers ensures PhaseOk(n, v, n.workers[v]) {
        if v != w { assert PhaseOk(s, v, s.workers[v]); }
      }
    }
    assert CallsInv(n) && CallsApart(n.calls) by { hide WorkersInv; }
    hide CallsInv, CallsApart, WorkersInv;
  }

  lemma StepKeepsInv(s: State, e: Event)
    requires Inv(s) && Plausible(s, e)
    ensures Inv(Step(s, e))
  {
    hide Inv, Step, Plausible;
    match e.act
    case Insert(_) => InsertKeepsInv(s, e);
    case Swap(_) => SwapKeepsInv(s, e);
    case Commit => CommitKeepsInv(s, e);
    case Answer(_) | Fail(_) => FinishKeepsInv(s, e);
    case Abort | Crash => RollbackKeepsInv(s, e);
    case Begin | Find | Check => LookKeepsInv(s, e);
  }

  lemma {:induction false} RunKeepsInv(s: State, es: seq<Event>)
    requires Inv(s) && Ordered(s, es)
    ensures Inv(Run(s, es))
    decreases |es|
  {
    hide Inv, Step, Plausible;
    if es != [] {
      StepKeepsInv(s, es[0]);
      RunKeepsInv(Step(s, es[0]), es[1..]);
    }
  }

  lemma InitialInv(s: State)
    requires Initial(s)
    ensures Inv(s)
  {}

  // ---------------------------------------------------------------- any interleaving

  /** Whatever the workers do, a provider call starts at least three minutes after the claim of
      every earlier call whose transaction committed, and a committed ACTIVE row has an id. */
  lemma CallsSpaced(s: State, es: seq<Event>)
    requires Initial(s) && Ordered(s, es)
    ensures var t := Run(s, es);
      CallsApart(t.calls) && (t.committed.Some? && t.committed.value.status == Active ==> t.committed.value.id.Some?)
  {
    InitialInv(s);
    RunKeepsInv(s, es);
  }

  /** No call starts while an open transaction holds the row, and the caller holds it from then on. */
  lemma NoCallWhileHeld(s: State, es: seq<Event>, e: Event)
    requires Initial(s) && Ordered(s, es) && Plausible(Run(s, es), e)
    ensures var t := Run(s, es);
      Step(t, e).calls != t.calls && !e.act.Commit? ==> t.held.None? && HeldBy(Step(t, e), e.w)
  {
    InitialInv(s);
    RunKeepsInv(s, es);
    var t := Run(s, es);
    hide Run, Ordered;
    HolderIsLive(t, e.w);
    assert e.w in t.workers ==> PhaseOk(t, e.w, t.workers[e.w]);
    var p := PhaseOf(t, e.w);
    if e.act.Check? && p.Found? { CheckOnlyStales(t, e.w, p.row, e.now, t.clock); }
    hide CheckRow, Inv;
  }

  /** At most one call is in flight whose transaction can still commit. */
  lemma AtMostOneLiveCall(s: State, es: seq<Event>, v: WorkerId, w: WorkerId)
    requires Initial(s) && Ordered(s, es)
    requires LiveCall(PhaseOf(Run(s, es), v)).Some? && LiveCall(PhaseOf(Run(s, es), w)).Some?
    ensures v == w
  {
    InitialInv(s);
    RunKeepsInv(s, es);
    HolderIsLive(Run(s, es), v);
    HolderIsLive(Run(s, es), w);
  }

  // ---------------------------------------------------------------- when a call is repeated

  /** A worker that goes through the statements without waiting. */
  function Attempt(s: State, w: WorkerId, now: int): State {
    var s1 := Step(s, At(now, w, Begin));
    var s2 := Step(s1, At(now, w, Insert(now)));
    var s3 := Step(s2, At(now, w, Find));
    var s4 := Step(s3, At(now, w, Check));
    Step(s4, At(now, w, Swap(now)))
  }

  predicate Claimable(savepoints: bool, committed: Option<Row>, now: int) {
    committed.None?
    || (savepoints && Claimed(committed.value) && now - committed.value.updatedAt >= STALE_MS)
  }

  lemma AttemptCalls(s: State, w: WorkerId, now: int)
    requires Inv(s) && s.held.None? && PhaseOf(s, w).Idle? && s.clock <= now
    ensures Attempt(s, w, now).calls != s.calls <==> Claimable(s.savepoints, s.committed, now)
    ensures Claimable(s.savepoints, s.committed, now) <==>
      || s.committed.None?
      || (var row := s.committed.value;
          s.savepoints && row.status == Processing && row.id.None? && now - row.updatedAt >= 3 * 60 * 1000)
  {}

  /** Within three minutes of the last claim, once its transaction has ended, a worker calls the
      provider again if and only if that transaction did not commit. */
  lemma CallAgainIff(s: State, es: seq<Event>, w: WorkerId, now: int)
    requires Initial(s) && Ordered(s, es)
    requires var t := Run(s, es);
      t.held.None? && PhaseOf(t, w).Idle? && t.clock <= now
      && t.calls != [] && now < t.calls[|t.calls| - 1].stamp + STALE_MS
    ensures var t := Run(s, es);
      Attempt(t, w, now).calls != t.calls <==> !t.calls[|t.calls| - 1].committed
  {
    InitialInv(s);
    RunKeepsInv(s, es);
    AttemptCalls(Run(s, es), w, now);
    hide Attempt, Run;
  }

  /** Worker 1 has started its call when its transaction is rolled back; worker 2 follows. */
  function RolledBackRun(now: int, later: int): (es: seq<Event>)
    ensures |es| == 5
  {
    [At(now, 1, Begin), At(now, 1, Insert(now)), At(now, 1, Abort), At(later, 2, Begin), At(later, 2, Insert(later))]
  }

  function RolledBackState(savepoints: bool, now: int, later: int, k: nat): State {
    var c1, c2 := Call(1, now, now, false), Call(2, later, later, false);
    if k == 0 then State(savepoints, None, None, map[], [], now)
    else if k == 1 then State(savepoints, None, None, map[1 := Open], [], now)
    else if k == 2
    then State(savepoints, None, Some(Held(1, Row(Processing, None, now))), map[1 := Calling(0, true)], [c1], now)
    else if k == 3 then State(savepoints, None, None, map[1 := Calling(0, false)], [c1], now)
    else if k == 4 then State(savepoints, None, None, map[1 := Calling(0, false), 2 := Open], [c1], later)
    else State(savepoints, None, Some(Held(2, Row(Processing, None, later))),
               map[1 := Calling(0, false), 2 := Calling(1, true)], [c1, c2], later)
  }

  lemma RolledBackStep(savepoints: bool, now: int, later: int, k: nat)
    requires k < 5 && now <= later
    ensures var s, e := RolledBackState(savepoints, now, later, k), RolledBackRun(now, later)[k];
      Step(s, e) == RolledBackState(savepoints, now, later, k + 1) && Plausible(s, e)
  {
    assert k == 0 || k == 1 || k == 2 || k == 3 || k == 4;
  }

  lemma {:induction false} RolledBackRuns(savepoints: bool, now: int, later: int, k: nat)
    requires k <= 5 && now <= later
    ensures var s, es := RolledBackState(savepoints, now, later, k), RolledBackRun(now, later)[k..];
      Ordered(s, es) && Run(s, es) == RolledBackState(savepoints, now, later, 5)
    decreases 5 - k
  {
    hide Step, Plausible, RolledBackRun, RolledBackState;
    if k < 5 {
      RolledBackStep(savepoints, now, later, k);
      RolledBackRuns(savepoints, now, later, k + 1);
      Unfold(RolledBackState(savepoints, now, later, k), RolledBackRun(now, later), k,
             RolledBackState(savepoints, now, later, k + 1));
    } else {
      assert RolledBackRun(now, later)[5..] == [];
    }
  }

  /** After a rollback the next call starts at any time, while the first is still in flight. */
  lemma RolledBackCallRepeats(savepoints: bool, now: int, later: int)
    requires now <= later
    ensures var s, es := State(savepoints, None, None, map[], [], now), RolledBackRun(now, later);
      && Initial(s) && Ordered(s, es)
      && Run(s, es).calls == [Call(1, now, now, false), Call(2, later, later, false)]
      && PhaseOf(Run(s, es), 1).Calling? && PhaseOf(Run(s, es), 2).Calling?
  {
    hide Step, Plausible, RolledBackRun, Run, Ordered;
    RolledBackRuns(savepoints, now, later, 0);
    assert RolledBackRun(now, later)[0..] == RolledBackRun(now, later);
  }

  lemma Unfold(s: State, es: seq<Event>, k: nat, n: State)
    requires k < |es| && n == Step(s, es[k])
    ensures Run(s, es[k..]) == Run(n, es[k + 1..])
    ensures Ordered(s, es[k..]) <==> Plausible(s, es[k]) && Ordered(n, es[k + 1..])
  {
    hide Step, Plausible;
    assert es[k..][0] == es[k] && es[k..][1..] == es[k + 1..];
  }

  // ---------------------------------------------------------------- what stays

  predicate Closed(s: State) {
    s.committed.Some? && (!Claimed(s.committed.value) || !s.savepoints)
  }

  lemma ClosedStays(s: State, e: Event)
    requires Inv(s) && Plausible(s, e) && Closed(s)
    ensures Step(s, e).committed == s.committed && Step(s, e).calls == s.calls && Step(s, e).savepoints == s.savepoints
  {
    var p := PhaseOf(s, e.w);
    assert s.held.None?;
    HolderIsLive(s, e.w);
    if e.act.Check? && p.Found? {
      assert PhaseOk(s, e.w, p);
      CheckOnlyStales(s, e.w, p.row, e.now, s.clock);
    }
    hide CheckRow, Inv;
  }

  /** Once a row other than a bare claim is committed, ACTIVE or FAILED above all, neither the row
      nor the calls ever change again.  If a failed statement ends its transaction, the same holds
      of any committed row: the takeover of a stale slot is never reached. */
  lemma {:induction false} ClosedIsAbsorbing(s: State, es: seq<Event>)
    requires Inv(s) && Ordered(s, es) && Closed(s)
    ensures Run(s, es).committed == s.committed && Run(s, es).calls == s.calls
    decreases |es|
  {
    if es != [] {
      StepKeepsInv(s, es[0]);
      ClosedStays(s, es[0]);
      hide Inv, Step, Plausible;
      ClosedIsAbsorbing(Step(s, es[0]), es[1..]);
    }
  }
}
