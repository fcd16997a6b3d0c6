/** The provider's side of an execution transaction: how often a swap or a card charge is accepted,
    and when the reservation of an accepted one is given back. */
module ExecutionCharges {
  import opened Wrappers
  import opened ExecutionTx
  import opened ExecutionProtocol
  import opened Pots

  /** The worker knows of an acceptance that is not recorded yet. */
  predicate Took(p: Phase) {
    p.Charged? && p.accepted
  }

  /** Every acceptance is recorded, lost, or known to the one worker in flight. */
  ghost predicate AcceptancesInv(s: State) {
    var open := s.log.accepted - s.log.lost - s.log.recorded;
    && 0 <= open <= 1 && s.log.recorded <= 1
    && (s.log.recorded == 1 ==> s.db.row.status.Submitted? && s.present)
    && (open == 1 <==> exists w :: w in s.workers && Took(s.workers[w]))
  }

  /** A worker before its provider call has none to account for; one that fails after it knows why. */
  predicate TrialPhase(s: State, p: Phase) {
    && (p.Claimed? || p.Holding? ==> s.log.trial.None?)
    && (p.Failing? && s.log.trial.Some? ==> !s.log.trial.value.reported || s.log.trial.value.recordThrew)
  }

  /** What the last provider call has come to. */
  predicate TrialRow(s: State) {
    s.log.trial.Some? ==>
      var trial := s.log.trial.value;
      if trial.caught
      then s.db.row.status.Failed? && s.db.row.reservation.Released? && (!trial.reported || trial.recordThrew)
      else s.db.row.reservation.Reserved?
  }

  predicate TrialInv(s: State) {
    TrialRow(s) && forall w :: w in s.workers ==> TrialPhase(s, s.workers[w])
  }

  lemma TookAfter(f: Funding, amount: nat, s: State, e: Event)
    requires Inv(f, amount, s) && AcceptancesInv(s) && e.Work?
    ensures var p, t := PhaseOf(s, e.w), WorkTurn(f, s, PhaseOf(s, e.w), e.act);
      var n := Taken(s, e.w, t);
      && (forall v :: v in s.workers && v != e.w && Took(s.workers[v]) ==>
            !p.InFlight() && n.log.accepted - n.log.lost - n.log.recorded == s.log.accepted - s.log.lost - s.log.recorded)
      && n.log.accepted - n.log.lost - n.log.recorded
         == s.log.accepted - s.log.lost - s.log.recorded - Count(Took(p)) + Count(Took(t.phase))
  {
    hide BooksInv, RowInv, ReserveTx, CompensateTx, SubmitTx, DebitTx, Blocks, AcceptancesInv;
  }

  lemma AcceptancesOpen(f: Funding, amount: nat, s: State, e: Event)
    requires Inv(f, amount, s) && AcceptancesInv(s) && e.Work?
    ensures var n := Step(f, s, e);
      var open := n.log.accepted - n.log.lost - n.log.recorded;
      0 <= open <= 1 && (open == 1 <==> exists w :: w in n.workers && Took(n.workers[w]))
  {
    TookAfter(f, amount, s, e);
    var n, p := Step(f, s, e), PhaseOf(s, e.w);
    assert n.workers == s.workers[e.w := n.workers[e.w]];
    hide Inv, WorkTurn, Took;
    var open := s.log.accepted - s.log.lost - s.log.recorded;
    if open == 1 {
      var v :| v in s.workers && Took(s.workers[v]);
      if v != e.w { assert v in n.workers && n.workers[v] == s.workers[v]; }
    }
    if Took(n.workers[e.w]) { assert e.w in n.workers; }
    assert Took(p) ==> e.w in s.workers by { assert !Took(Idle); }
    assert forall v :: v in n.workers && v != e.w && Took(n.workers[v]) ==> v in s.workers && Took(s.workers[v]);
  }

  /** Only a submission records, and it meets a row that nothing has settled. */
  lemma RecordedOnce(f: Funding, amount: nat, s: State, e: Event)
    requires Inv(f, amount, s) && AcceptancesInv(s) && e.Work? && s.cancels == map[]
    ensures var n := Step(f, s, e);
      n.log.recorded <= 1 && (n.log.recorded == 1 ==> n.db.row.status.Submitted? && n.present)
  {
    assert e.w in s.workers ==> WorkerOk(amount, s, s.workers[e.w]);
    if s.log.recorded == 1 { SettledStays(f, amount, s, e); }
    hide Inv, Blocks, ReserveTx, CompensateTx, DebitTx;
  }

  lemma AcceptancesStep(f: Funding, amount: nat, s: State, e: Event)
    requires Inv(f, amount, s) && AcceptancesInv(s) && s.cancels == map[] && !e.CancelRead?
    ensures AcceptancesInv(Step(f, s, e))
  {
    if e.Work? {
      AcceptancesOpen(f, amount, s, e);
      RecordedOnce(f, amount, s, e);
      hide Step, Inv;
    } else {
      hide CancelTx, Inv;
    }
  }

  /** Under leases that are kept and without a cancellation, the provider accepts one charge at most
      besides those whose acceptance was lost; none is charged twice as long as every acceptance is
      recorded. */
  lemma {:induction false} AcceptedOnce(f: Funding, amount: nat, s: State, es: seq<Event>)
    requires Inv(f, amount, s) && AcceptancesInv(s) && TimelyRun(f, amount, s, es) && Uncancelled(s, es)
    ensures var t := Run(f, s, es);
      AcceptancesInv(t) && t.log.accepted <= t.log.lost + 1
    decreases |es|
  {
    if s.log.recorded == 1 { RecordedIsAll(f, amount, s); }
    assert s.log.accepted <= s.log.lost + 1;
    hide Inv, AcceptancesInv, Timely, Step;
    if es != [] {
      StepKeepsInv(f, amount, s, es[0]);
      AcceptancesStep(f, amount, s, es[0]);
      NoneCancelled(f, s, es);
      AcceptedOnce(f, amount, Step(f, s, es[0]), es[1..]);
    }
  }

  lemma NoneCancelled(f: Funding, s: State, es: seq<Event>)
    requires es != [] && Uncancelled(s, es)
    ensures !es[0].CancelRead? && Uncancelled(Step(f, s, es[0]), es[1..])
  {
    hide CancelTx, WorkTurn;
  }

  /** Once the record of an acceptance stands, nobody is in flight. */
  lemma RecordedIsAll(f: Funding, amount: nat, s: State)
    requires Inv(f, amount, s) && AcceptancesInv(s) && s.log.recorded == 1
    ensures s.log.accepted == s.log.lost + 1
  {
    forall w | w in s.workers ensures !Took(s.workers[w]) {
      assert WorkerOk(amount, s, s.workers[w]);
    }
    hide Inv;
  }

  lemma TrialTurn(f: Funding, amount: nat, s: State, p: Phase, act: Act)
    requires WorkerOk(amount, s, p) && TrialPhase(s, p) && TrialRow(s)
    requires act.Create? && !s.present ==> s.log.trial.None?
    ensures var t := WorkTurn(f, s, p, act);
      var n := Taken(s, 0, t);
      && TrialPhase(n, t.phase) && TrialRow(n)
      && (t.log.trial != s.log.trial ==> p.InFlight() || (p.Ready? && act.Claim? && !Blocks(s.db.row, act.now)))
  {
    hide ReserveUser, ReservePot, ReleaseOrKeep, Blocks;
  }

  lemma TrialStep(f: Funding, amount: nat, s: State, e: Event)
    requires Inv(f, amount, s) && TrialInv(s) && Timely(f, amount, s, e)
    requires s.cancels == map[] && !e.CancelRead?
    ensures TrialInv(Step(f, s, e))
  {
    if e.Work? {
      var p := PhaseOf(s, e.w);
      assert WorkerOk(amount, s, p) && TrialPhase(s, p) by {
        assert e.w in s.workers ==> WorkerOk(amount, s, p) && TrialPhase(s, p);
      }
      if p.InFlight() { InFlightIsAlone(f, amount, s, e.w); }
      if e.act.Claim? && !Blocks(s.db.row, e.act.now) { ClaimFindsNobody(f, amount, s, e); }
      assert !s.present ==> s.db.row == NewRow();
      TrialTurn(f, amount, s, p, e.act);
      hide Inv, WorkTurn, TrialRow;
    } else {
      hide CancelTx, Inv;
    }
  }

  lemma {:induction false} TrialRun(f: Funding, amount: nat, s: State, es: seq<Event>)
    requires Inv(f, amount, s) && TrialInv(s) && TimelyRun(f, amount, s, es) && Uncancelled(s, es)
    ensures TrialInv(Run(f, s, es))
    decreases |es|
  {
    hide Inv, TrialInv, Timely, Step;
    if es != [] {
      StepKeepsInv(f, amount, s, es[0]);
      NoneCancelled(f, s, es);
      assert s.cancels == map[];
      TrialStep(f, amount, s, es[0]);
      TrialRun(f, amount, Step(f, s, es[0]), es[1..]);
    }
  }

  lemma InitialCharges(f: Funding, amount: nat, s: State)
    requires Initial(s) && (f.Swap? ==> amount == f.source)
    ensures Inv(f, amount, s) && AcceptancesInv(s) && TrialInv(s) && s.cancels == map[]
  {
    InitialInv(f, amount, s);
  }

  predicate NoCancelRead(es: seq<Event>) {
    forall i :: 0 <= i < |es| ==> !es[i].CancelRead?
  }

  /** Whoever pays and whatever fails: with leases kept and nothing cancelled, more than one charge is
      accepted only if an acceptance was lost. */
  lemma ChargedOnce(f: Funding, amount: nat, s: State, es: seq<Event>)
    requires Initial(s) && (f.Swap? ==> amount == f.source) && TimelyRun(f, amount, s, es) && NoCancelRead(es)
    ensures Run(f, s, es).log.accepted <= Run(f, s, es).log.lost + 1
  {
    InitialCharges(f, amount, s);
    AcceptedOnce(f, amount, s, es);
  }

  /** Under the same conditions the reservation of the last charge is given back although the provider
      accepted it, if and only if the catch block went through after its client threw or the record
      of it did.  The exchange's swap handler then takes it for settled and skips it. */
  lemma ReleasedAfterAcceptanceIff(f: Funding, amount: nat, s: State, es: seq<Event>)
    requires Initial(s) && (f.Swap? ==> amount == f.source) && TimelyRun(f, amount, s, es) && NoCancelRead(es)
    ensures var t := Run(f, s, es);
      t.log.trial.Some? && t.log.trial.value.accepted ==>
        var trial := t.log.trial.value;
        && (t.db.row.reservation.Released? <==> !t.db.row.reservation.Reserved?)
        && (t.db.row.reservation.Released? <==> trial.caught && (!trial.reported || trial.recordThrew))
        && (t.db.row.reservation.Released? ==> SkippedByHandler(t.db.row))
  {
    InitialCharges(f, amount, s);
    TrialRun(f, amount, s, es);
    hide Run;
  }

  // ---------------------------------------------------------------- one lost record

  /** Worker 1 charges and loses the record: its client throws, or the write that follows does. */
  function LostRecord(amount: nat, reported: bool): (es: seq<Event>)
    ensures |es| == 11
  {
    [Work(0, 1, Lookup), Work(0, 1, Claim(0)), Work(0, 1, Reserve(amount)), Work(0, 1, Charge(true, reported)),
     Work(0, 1, Abort), Work(0, 1, Compensate),
     Work(1, 2, Lookup), Work(1, 2, Claim(1)), Work(1, 2, Reserve(amount)), Work(1, 2, Charge(true, true)),
     Work(1, 2, Submit)]
  }

  function LostMeta(k: nat, amount: nat): Meta {
    if k <= 1 then NewRow()
    else if k == 2 then Meta(Processing, 0, NotReserved, false)
    else if k <= 5 then Meta(Processing, 0, Reserved(amount), false)
    else if k <= 7 then Meta(Failed, 0, Released, false)
    else if k == 8 then Meta(Processing, 1, Released, false)
    else if k <= 10 then Meta(Processing, 1, Reserved(amount), false)
    else Meta(Submitted, 1, Reserved(amount), false)
  }

  function LostDb(f: Funding, k: nat, amount: nat): Db {
    var held := LostMeta(k, amount).reservation.Reserved?;
    var u, c := if held then UserPart(f) else 0, if held then amount else 0;
    Db(LostMeta(k, amount), Pot(UserPart(f), u), Pot(amount, c), u, c, 0)
  }

  function LostPhase(k: nat, amount: nat, reported: bool): Phase {
    var m1, m2 := Meta(Processing, 0, NotReserved, false), Meta(Processing, 1, Released, false);
    if k == 1 || k == 7 then Ready
    else if k == 2 then Claimed(m1)
    else if k == 3 then Holding(m1, amount)
    else if k == 4 then (if reported then Charged(m1, amount, true) else Failing(m1))
    else if k == 5 then Failing(m1)
    else if k == 8 then Claimed(m2)
    else if k == 9 then Holding(m2, amount)
    else if k == 10 then Charged(m2, amount, true)
    else Idle
  }

  function LostLog(k: nat, reported: bool): History {
    if k <= 3 then History(0, 0, 0, 0, None)
    else if k == 4 then History(0, 1, 0, Count(!reported), Some(Trial(true, reported, false, false)))
    else if k == 5 then History(0, 1, 0, 1, Some(Trial(true, reported, reported, false)))
    else if k <= 7 then History(0, 1, 0, 1, Some(Trial(true, reported, reported, true)))
    else if k <= 9 then History(0, 1, 0, 1, None)
    else if k == 10 then History(0, 2, 0, 1, Some(Trial(true, true, false, false)))
    else History(0, 2, 1, 1, Some(Trial(true, true, false, false)))
  }

  function LostState(f: Funding, amount: nat, reported: bool, k: nat): State {
    State(LostDb(f, k, amount), true, false,
          if k == 0 then map[]
          else if k <= 6 then map[1 := LostPhase(k, amount, reported)]
          else map[1 := Idle, 2 := LostPhase(k, amount, reported)],
          map[], LostLog(k, reported))
  }

  lemma LostClaim(f: Funding, amount: nat, reported: bool, k: nat)
    requires !f.Usdt? && (f.Swap? ==> amount == f.source) && (k == 0 || k == 1 || k == 2)
    ensures var s, e := LostState(f, amount, reported, k), LostRecord(amount, reported)[k];
      Step(f, s, e) == LostState(f, amount, reported, k + 1) && Timely(f, amount, s, e)
  {}

  lemma LostCharge(f: Funding, amount: nat, reported: bool, k: nat)
    requires !f.Usdt? && (f.Swap? ==> amount == f.source) && (k == 3 || k == 4 || k == 5)
    ensures var s, e := LostState(f, amount, reported, k), LostRecord(amount, reported)[k];
      Step(f, s, e) == LostState(f, amount, reported, k + 1) && Timely(f, amount, s, e)
  {}

  lemma LostRetry(f: Funding, amount: nat, reported: bool, k: nat)
    requires !f.Usdt? && (f.Swap? ==> amount == f.source) && (k == 6 || k == 7 || k == 8)
    ensures var s, e := LostState(f, amount, reported, k), LostRecord(amount, reported)[k];
      Step(f, s, e) == LostState(f, amount, reported, k + 1) && Timely(f, amount, s, e)
  {}

  lemma LostEnd(f: Funding, amount: nat, reported: bool, k: nat)
    requires !f.Usdt? && (f.Swap? ==> amount == f.source) && (k == 9 || k == 10)
    ensures var s, e := LostState(f, amount, reported, k), LostRecord(amount, reported)[k];
      Step(f, s, e) == LostState(f, amount, reported, k + 1) && Timely(f, amount, s, e)
  {}

  lemma LostStep(f: Funding, amount: nat, reported: bool, k: nat)
    requires !f.Usdt? && (f.Swap? ==> amount == f.source) && k < 11
    ensures var s, e := LostState(f, amount, reported, k), LostRecord(amount, reported)[k];
      Step(f, s, e) == LostState(f, amount, reported, k + 1) && Timely(f, amount, s, e)
  {
    hide Step, Timely, LostState, LostRecord;
    if k < 3 {
      LostClaim(f, amount, reported, k);
    } else if k < 6 {
      LostCharge(f, amount, reported, k);
    } else if k < 9 {
      LostRetry(f, amount, reported, k);
    } else {
      LostEnd(f, amount, reported, k);
    }
  }

  lemma {:induction false} LostRuns(f: Funding, amount: nat, reported: bool, k: nat)
    requires !f.Usdt? && (f.Swap? ==> amount == f.source) && k <= 11
    ensures var s, es := LostState(f, amount, reported, k), LostRecord(amount, reported)[k..];
      TimelyRun(f, amount, s, es) && Run(f, s, es) == LostState(f, amount, reported, 11)
    decreases 11 - k
  {
    hide Step, Timely, LostState, LostRecord;
    var es := LostRecord(amount, reported);
    if k < 11 {
      LostStep(f, amount, reported, k);
      LostRuns(f, amount, reported, k + 1);
      assert es[k..][0] == es[k] && es[k..][1..] == es[k + 1..];
    } else {
      assert es[11..] == [];
    }
  }

  /** One lost record is enough: for every swap and card charge, in a run that keeps every lease and
      cancels nothing, the provider accepts twice and one of the charges is on no row. */
  lemma LostRecordChargesTwice(f: Funding, amount: nat, reported: bool)
    requires !f.Usdt? && (f.Swap? ==> amount == f.source)
    ensures var s, es := LostState(f, amount, reported, 0), LostRecord(amount, reported);
      && Initial(s) && TimelyRun(f, amount, s, es) && NoCancelRead(es)
      && Run(f, s, es).log.accepted == 2 && Run(f, s, es).log.recorded == 1 && Run(f, s, es).log.lost == 1
  {
    LostRuns(f, amount, reported, 0);
    assert LostRecord(amount, reported)[0..] == LostRecord(amount, reported);
    hide Run, TimelyRun;
  }
}
