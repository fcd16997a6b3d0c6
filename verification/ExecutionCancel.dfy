/** What can still happen to an execution transaction after its stack was cancelled, and what a row
    inherits from the one that it was copied from. */
module ExecutionCancel {
  import opened Wrappers
  import opened ExecutionTx
  import opened ExecutionProtocol
  import opened Pots

  // ---------------------------------------------------------------- what can be cancelled

  /** A cancellation goes ahead, with the row as it is, if and only if the row is there and not
      COMPLETED, its stack has not ended, and no card charge of it is PROCESSING or SUBMITTED. */
  lemma CancelsIff(f: Funding, s: State, at: int, c: nat)
    requires c !in s.cancels
    ensures var t, status := Step(f, s, CancelRead(at, c)), s.db.row.status;
      t == if s.present && !s.ended && !status.Completed? && (f.Card? ==> !status.Processing? && !status.Submitted?)
           then s.(cancels := s.cancels[c := s.db.row]) else s
  {}

  /** A cancellation that commits ends the stack, unless it fails for want of a reservation; it is over
      either way, as it is when it gives up. */
  lemma CancelEnds(f: Funding, s: State, at: int, c: nat)
    requires c in s.cancels
    ensures var t, r := Step(f, s, CancelCommit(at, c)), CancelTx(s.db, f, s.cancels[c]);
      t == if r.Success? then s.(db := r.value, ended := true, cancels := s.cancels - {c})
           else s.(cancels := s.cancels - {c})
    ensures Step(f, s, CancelDrop(at, c)) == s.(cancels := s.cancels - {c})
  {}

  // ---------------------------------------------------------------- after a cancellation

  /** The stack was cancelled, and no other cancellation is under way. */
  predicate StackCancelled(s: State) {
    s.ended && s.present && s.db.row.status.Cancelled? && s.cancels == map[]
  }

  lemma QuietStays(f: Funding, s: State, e: Event)
    requires StackCancelled(s) && Quiet(s)
    ensures var t := Step(f, s, e); StackCancelled(t) && Quiet(t) && t.db.row == s.db.row
  {
    assert e.Work? ==> PhaseOf(s, e.w).Idle?;
    hide ReserveTx, CompensateTx, SubmitTx, DebitTx, CancelTx;
  }

  lemma {:induction false} QuietForever(f: Funding, s: State, es: seq<Event>)
    requires StackCancelled(s) && Quiet(s)
    ensures Run(f, s, es).db.row == s.db.row
    decreases |es|
  {
    hide StackCancelled, Quiet, Step;
    if es != [] {
      QuietStays(f, s, es[0]);
      QuietForever(f, Step(f, s, es[0]), es[1..]);
    }
  }

  lemma RunOne(f: Funding, s: State, e: Event)
    ensures Run(f, s, [e]) == Step(f, s, e)
  {
    assert [e] == [e] + [];
    RunCons(f, s, e, []);
  }

  lemma RunTwo(f: Funding, s: State, d: Event, e: Event)
    ensures Run(f, s, [d, e]) == Step(f, Step(f, s, d), e)
  {
    assert [d, e] == [d] + [e];
    RunCons(f, s, d, [e]);
    RunOne(f, Step(f, s, d), e);
  }

  /** A worker that has looked the row up, or has claimed it, can still change it. */
  lemma WorkerGoesOn(f: Funding, s: State, w: WorkerId) returns (es: seq<Event>)
    requires StackCancelled(s) && !PhaseOf(s, w).Idle?
    ensures Run(f, s, es).db.row != s.db.row
  {
    hide CancelTx, ReserveTx, SubmitTx, DebitTx;
    if PhaseOf(s, w).Absent? {
      es := [Work(0, w, Create(NewRow())), Work(0, w, Claim(0))];
      RunTwo(f, s, es[0], es[1]);
    } else if PhaseOf(s, w).Ready? {
      es := [Work(0, w, Claim(0))];
      RunOne(f, s, es[0]);
    } else {
      es := [Work(0, w, Abort), Work(0, w, Compensate)];
      RunTwo(f, s, es[0], es[1]);
    }
  }

  /** A cancelled row never changes again if and only if no worker was on its way when it was
      cancelled: CANCELLED keeps no claim out. */
  lemma CancelIsFinalIff(f: Funding, s: State)
    requires StackCancelled(s)
    ensures (forall es :: Run(f, s, es).db.row == s.db.row) <==> Quiet(s)
  {
    if Quiet(s) {
      forall es ensures Run(f, s, es).db.row == s.db.row {
        QuietForever(f, s, es);
      }
    } else {
      var w :| w in s.workers && !s.workers[w].Idle?;
      var es := WorkerGoesOn(f, s, w);
    }
  }

  function CancelledFirst(now: int): (es: seq<Event>)
    ensures |es| == 5
  {
    [Work(now, 1, Lookup), CancelRead(now, 1), CancelCommit(now, 1), Work(now, 1, Claim(now)), Work(now, 1, Debit)]
  }

  function CancelledState(now: int, k: nat): State {
    var db := StartOf(true).db;
    var s := StateOf(db, true, map[1 := Ready]);
    if k == 0 then StartOf(true)
    else if k == 1 then s
    else if k == 2 then s.(cancels := map[1 := NewRow()])
    else if k == 3 then s.(ended := true, db := db.(row := NewRow().(status := Cancelled)))
    else if k == 4
    then
      var meta := Meta(Processing, now, NotReserved, false);
      s.(ended := true, db := db.(row := meta), workers := map[1 := Claimed(meta)])
    else
      s.(ended := true, workers := map[1 := Idle],
         db := db.(row := Meta(Completed, now, NotReserved, false), debits := 1))
  }

  lemma CancelledStep(now: int, k: nat)
    requires k < 5
    ensures Step(Usdt, CancelledState(now, k), CancelledFirst(now)[k]) == CancelledState(now, k + 1)
  {
    assert k == 0 || k == 1 || k == 2 || k == 3 || k == 4;
  }

  lemma {:induction false} CancelledRuns(now: int, k: nat)
    requires k <= 5
    ensures Run(Usdt, CancelledState(now, k), CancelledFirst(now)[k..]) == CancelledState(now, 5)
    decreases 5 - k
  {
    hide Step, CancelledState, CancelledFirst;
    var es := CancelledFirst(now);
    if k < 5 {
      CancelledStep(now, k);
      CancelledRuns(now, k + 1);
      assert es[k..][0] == es[k] && es[k..][1..] == es[k + 1..];
    } else {
      assert es[5..] == [];
    }
  }

  /** So a worker that looked the row up before the cancellation debits the wallet after it. */
  lemma DebitAfterCancel(now: int)
    ensures var t := Run(Usdt, StartOf(true), CancelledFirst(now));
      Initial(StartOf(true)) && t.ended && t.db.row.status.Completed? && t.db.debits == 1
  {
    CancelledRuns(now, 0);
    assert CancelledFirst(now)[0..] == CancelledFirst(now);
    hide Run;
  }

  // ---------------------------------------------------------------- copied settlement

  /** The row and everybody who works on it say the same of its settlement. */
  predicate Marked(s: State, settled: bool) {
    && s.present && s.db.row.settled == settled
    && (forall w :: w in s.workers && s.workers[w].InFlight() ==> s.workers[w].meta.settled == settled)
    && (forall c :: c in s.cancels ==> s.cancels[c].settled == settled)
  }

  lemma MarkStays(f: Funding, s: State, e: Event, settled: bool)
    requires Marked(s, settled)
    ensures Marked(Step(f, s, e), settled)
  {
    if e.Work? {
      assert e.w in s.workers ==> s.workers[e.w] == PhaseOf(s, e.w);
      TurnKeepsMark(f, s, PhaseOf(s, e.w), e.act, settled);
      hide WorkTurn;
    } else {
      hide ReleaseOrKeep;
    }
  }

  lemma TurnKeepsMark(f: Funding, s: State, p: Phase, act: Act, settled: bool)
    requires s.present && s.db.row.settled == settled && (p.InFlight() ==> p.meta.settled == settled)
    ensures var t := WorkTurn(f, s, p, act);
      t.present && t.db.row.settled == settled && (t.phase.InFlight() ==> t.phase.meta.settled == settled)
  {
    hide ReserveUser, ReservePot, ReleaseOrKeep, Blocks;
  }

  lemma {:induction false} MarkForever(f: Funding, s: State, es: seq<Event>, settled: bool)
    requires Marked(s, settled)
    ensures Marked(Run(f, s, es), settled)
    decreases |es|
  {
    hide Marked, Step;
    if es != [] {
      MarkStays(f, s, es[0], settled);
      MarkForever(f, Step(f, s, es[0]), es[1..], settled);
    }
  }

  /** A row created from the metadata `config` of the stack's own transaction keeps its mark of
      settlement through every run.  When its charge is SUBMITTED with its reservation, the swap
      handler skips the settlement if and only if `config` was settled: after the first settled
      charge, it skips every later one. */
  lemma SettlementIsCopied(f: Funding, s: State, w: WorkerId, config: Meta, at: int, es: seq<Event>)
    requires !s.present && PhaseOf(s, w).Absent? && s.cancels == map[]
    requires forall v :: v in s.workers ==> !s.workers[v].InFlight()
    ensures var t := Run(f, Step(f, s, Work(at, w, Create(config))), es);
      && t.db.row.settled == config.settled
      && (t.db.row.reservation.Reserved? ==> (SkippedByHandler(t.db.row) <==> config.settled))
  {
    var s1 := Step(f, s, Work(at, w, Create(config)));
    assert Marked(s1, config.settled);
    MarkForever(f, s1, es, config.settled);
    hide Run, Step;
  }
}
