/** What decides, without any clock, whether the books of an execution transaction stay right
    under any number of workers, late ones included. */
module ExecutionFence {
  import opened Wrappers
  import opened ExecutionTx
  import opened ExecutionProtocol
  import opened Pots

  /** A worker's claim wrote PROCESSING into its metadata. */
  predicate ClaimsOk(s: State) {
    forall w :: w in s.workers && s.workers[w].InFlight() ==> s.workers[w].meta.status.Processing?
  }

  /** The guard of each write against the row as it is. */
  predicate Fits(f: Funding, s: State, e: Event) {
    match e
    case Others(_, _, _) | CancelRead(_, _) | CancelDrop(_, _) => true
    case CancelCommit(_, c) =>
      c in s.cancels && CancelTx(s.db, f, s.cancels[c]).Success? ==> CancelFits(f, s.db.row, s.cancels[c])
    case Work(_, w, act) =>
      var p := PhaseOf(s, w);
      match act
      case Create(config) =>
        p.Absent? && !s.present ==>
          !s.db.row.status.Completed? && Hold(f, config.reservation) == Hold(f, s.db.row.reservation)
      case Reserve(requested) =>
        p.Claimed? && !f.Usdt? && ReserveTx(s.db, f, p.meta, AmountToReserve(f, requested)).Success? ==>
          ReserveFits(f, s.db.row, p.meta, AmountToReserve(f, requested))
      case Debit =>
        p.Claimed? && f.Usdt? ==>
          !s.db.row.status.Completed? && Hold(f, p.meta.reservation) == Hold(f, s.db.row.reservation)
      case Submit =>
        p.Charged? ==>
          !s.db.row.status.Completed? && (f.Card? ==> Hold(f, Reserved(p.amount)) == Hold(f, s.db.row.reservation))
      case Compensate => p.Failing? ==> !s.db.row.status.Completed?
      case _ => true
  }

  /** A worker keeps the metadata of its claim or makes a claim. */
  lemma TurnKeepsClaim(f: Funding, s: State, p: Phase, act: Act)
    ensures var t := WorkTurn(f, s, p, act);
      && (s.present ==> t.present)
      && (t.phase.InFlight() ==>
            || (p.InFlight() && t.phase.meta == p.meta)
            || (s.present && t.phase.meta.status.Processing? && t.phase.meta.reservation == s.db.row.reservation))
      && (t.phase.Ready? ==> t.present || p.Ready?)
  {
    hide ReserveTx, CompensateTx, DebitTx, SubmitTx, Blocks;
  }

  lemma ClaimsStayOk(f: Funding, s: State, e: Event)
    requires ClaimsOk(s)
    ensures ClaimsOk(Step(f, s, e))
  {
    if e.Work? {
      TurnKeepsClaim(f, s, PhaseOf(s, e.w), e.act);
      hide WorkTurn;
    }
    hide CancelTx;
  }

  /** One step keeps the books if and only if its write fits the row. */
  lemma StepIsExact(f: Funding, s: State, e: Event)
    requires Good(f, s.db) && ClaimsOk(s)
    ensures Good(f, Step(f, s, e).db) <==> Fits(f, s, e)
  {
    match e {
      case Others(_, _, _) =>
      case CancelRead(_, _) =>
      case CancelDrop(_, _) =>
      case CancelCommit(_, c) =>
        if c in s.cancels && CancelTx(s.db, f, s.cancels[c]).Success? { CancelKeepsBooks(f, s.db, s.cancels[c]); }
        hide CancelTx, Good, CancelFits;
      case Work(_, w, act) =>
        WorkIsExact(f, s, e);
    }
  }

  lemma ReserveIsExact(f: Funding, s: State, e: Event)
    requires Good(f, s.db) && ClaimsOk(s) && e.Work? && e.act.Reserve?
    ensures Good(f, Step(f, s, e).db) <==> Fits(f, s, e)
  {
    var p, amount := PhaseOf(s, e.w), AmountToReserve(f, e.act.amount);
    assert e.w in s.workers ==> s.workers[e.w] == p;
    if p.Claimed? && ReserveTx(s.db, f, p.meta, amount).Success? {
      ReserveKeepsBooks(f, s.db, p.meta, amount);
    }
    hide ReserveTx, Good, ReserveFits;
  }

  lemma WorkIsExact(f: Funding, s: State, e: Event)
    requires Good(f, s.db) && ClaimsOk(s) && e.Work?
    ensures Good(f, Step(f, s, e).db) <==> Fits(f, s, e)
  {
    var p := PhaseOf(s, e.w);
    assert e.w in s.workers ==> s.workers[e.w] == p;
    match e.act {
      case Create(config) =>
        CreatedRowKeepsBooks(f, s.db, config);
        hide Good, Hold;
      case Reserve(requested) => ReserveIsExact(f, s, e);
      case Debit =>
        if p.Claimed? { DebitKeepsBooks(f, s.db, p.meta); }
        hide DebitTx, Good, Hold;
      case Submit =>
        if p.Charged? { SubmitKeepsBooks(f, s.db, p.meta, p.amount); }
        hide SubmitTx, Good, Hold;
      case Compensate =>
        CompensateKeepsBooks(f, s.db);
        hide CompensateTx, Good;
      case Claim(now) =>
      case _ => hide Good;
    }
  }

  predicate AlwaysGood(f: Funding, s: State, es: seq<Event>)
    decreases |es|
  {
    Good(f, s.db) && (es == [] || AlwaysGood(f, Step(f, s, es[0]), es[1..]))
  }

  predicate AlwaysFits(f: Funding, s: State, es: seq<Event>)
    decreases |es|
  {
    es == [] || (Fits(f, s, es[0]) && AlwaysFits(f, Step(f, s, es[0]), es[1..]))
  }

  /** The books of an execution are right at every point of a run if and only if every write of
      the run fits the row that it meets.  Clocks, leases, crashes and the number of workers make
      no other difference. */
  lemma {:induction false} BooksAreExact(f: Funding, s: State, es: seq<Event>)
    requires Good(f, s.db) && ClaimsOk(s)
    ensures AlwaysGood(f, s, es) <==> AlwaysFits(f, s, es)
    decreases |es|
  {
    hide Good, Fits, Step, ClaimsOk;
    if es != [] {
      StepIsExact(f, s, es[0]);
      ClaimsStayOk(f, s, es[0]);
      if Fits(f, s, es[0]) { BooksAreExact(f, Step(f, s, es[0]), es[1..]); }
    }
  }

  lemma {:induction false} GoodAtEnd(f: Funding, s: State, es: seq<Event>)
    requires AlwaysGood(f, s, es)
    ensures Good(f, Run(f, s, es).db)
    decreases |es|
  {
    hide Good, Step;
    if es != [] { GoodAtEnd(f, Step(f, s, es[0]), es[1..]); }
  }

  // ---------------------------------------------------------------- writes fenced by the claim

  /** The writes of a worker that change the row. */
  predicate Writes(f: Funding, s: State, e: Event) {
    e.Work? && var p := PhaseOf(s, e.w);
      || (e.act.Reserve? && p.Claimed? && !f.Usdt?)
      || (e.act.Debit? && p.Claimed? && f.Usdt?)
      || (e.act.Submit? && p.Charged?)
      || (e.act.Compensate? && p.Failing?)
  }

  /** A write is made by a worker whose claim is still the row's, a cancellation on the row that it
      has read. */
  predicate Owns(f: Funding, s: State, e: Event) {
    && (Writes(f, s, e) ==> OwnsLease(s.db, PhaseOf(s, e.w).meta))
    && (e.CancelCommit? && e.c in s.cancels ==> s.cancels[e.c] == s.db.row)
  }

  predicate Owned(f: Funding, s: State, es: seq<Event>)
    decreases |es|
  {
    es == [] || (Owns(f, s, es[0]) && Owned(f, Step(f, s, es[0]), es[1..]))
  }

  /** No USDT row ever carries a reservation, and nobody works on a row that is not there. */
  predicate Unreserved(s: State) {
    && !s.db.row.reservation.Reserved? && (!s.present ==> s.db.row == NewRow())
    && (forall w :: w in s.workers && s.workers[w].InFlight() ==> !s.workers[w].meta.reservation.Reserved?)
    && (forall w :: w in s.workers && (s.workers[w].InFlight() || s.workers[w].Ready?) ==> s.present)
    && (forall c :: c in s.cancels ==>
          !s.cancels[c].reservation.Reserved? && !s.cancels[c].status.Completed? && s.present)
  }

  predicate PlainConfigs(es: seq<Event>) {
    forall i :: 0 <= i < |es| && es[i].Work? && es[i].act.Create? ==> !es[i].act.config.reservation.Reserved?
  }

  lemma RowStaysUnreserved(s: State, e: Event)
    requires Unreserved(s) && PlainConfigs([e])
    ensures var n := Step(Usdt, s, e);
      !n.db.row.reservation.Reserved? && (!n.present ==> n.db.row == NewRow())
  {
    assert [e][0] == e;
    assert e.Work? && e.w in s.workers ==> s.workers[e.w] == PhaseOf(s, e.w);
    hide ReserveTx, Blocks;
  }

  lemma UnreservedStays(s: State, e: Event)
    requires Unreserved(s) && PlainConfigs([e])
    ensures Unreserved(Step(Usdt, s, e))
  {
    RowStaysUnreserved(s, e);
    if e.Work? {
      TurnKeepsClaim(Usdt, s, PhaseOf(s, e.w), e.act);
      hide WorkTurn;
    }
    hide CancelTx;
  }

  lemma OwnedUsdtFits(s: State, e: Event)
    requires Unreserved(s) && PlainConfigs([e]) && Owns(Usdt, s, e)
    ensures Fits(Usdt, s, e)
  {
    assert [e][0] == e;
    if e.Work? { assert e.w in s.workers ==> s.workers[e.w] == PhaseOf(s, e.w); }
  }

  /** A USDT execution is debited at most once, and once exactly when it is COMPLETED, in every run
      whose debits and compensations come from workers that still own the lease, and whose
      cancellations find the row that they have read. */
  lemma {:induction false} OwnedDebitsOnce(s: State, es: seq<Event>)
    requires Good(Usdt, s.db) && ClaimsOk(s) && Unreserved(s) && PlainConfigs(es) && Owned(Usdt, s, es)
    ensures AlwaysGood(Usdt, s, es) && Good(Usdt, Run(Usdt, s, es).db)
    decreases |es|
  {
    hide Good, Fits, Step, ClaimsOk, Unreserved, Owns;
    if es != [] {
      assert PlainConfigs([es[0]]) && PlainConfigs(es[1..]) by { assert [es[0]][0] == es[0]; }
      OwnedUsdtFits(s, es[0]);
      StepIsExact(Usdt, s, es[0]);
      ClaimsStayOk(Usdt, s, es[0]);
      UnreservedStays(s, es[0]);
      OwnedDebitsOnce(Step(Usdt, s, es[0]), es[1..]);
    }
  }

  lemma InitialIsGood(f: Funding, s: State)
    requires Initial(s)
    ensures Good(f, s.db) && ClaimsOk(s) && Unreserved(s)
  {}

  lemma OwnerKeepsSettled(f: Funding, s: State, e: Event)
    requires s.present && Settled(s) && s.cancels == map[] && !e.CancelRead? && Owns(f, s, e)
    ensures var t := Step(f, s, e);
      t.db.row == s.db.row && t.db.debits == s.db.debits && t.present && t.cancels == map[]
  {}

  /** SUBMITTED and COMPLETED are terminal, without any bound on time, as long as every write comes
      from a worker that still owns the lease and nothing is cancelled. */
  lemma {:induction false} OwnedSettledIsTerminal(f: Funding, s: State, es: seq<Event>)
    requires s.present && Settled(s) && Owned(f, s, es)
    requires Uncancelled(s, es)
    ensures Run(f, s, es).db.row == s.db.row && Run(f, s, es).db.debits == s.db.debits
    decreases |es|
  {
    hide Step, Owns;
    if es != [] {
      OwnerKeepsSettled(f, s, es[0]);
      OwnedSettledIsTerminal(f, Step(f, s, es[0]), es[1..]);
    }
  }

  // ---------------------------------------------------------------- owned runs of every funding

  predicate Owner(s: State, p: Phase) {
    p.InFlight() && OwnsLease(s.db, p.meta)
  }

  predicate WorkerKept(amount: nat, s: State, p: Phase) {
    && (p.InFlight() || p.Ready? ==> s.present)
    && (p.InFlight() ==>
          && p.meta.status.Processing?
          && (p.meta.reservation.Reserved? ==> p.meta.reservation.amount == amount)
          && (Owner(s, p) ==> Agrees(s.db.row, p)))
    && (p.Holding? || p.Charged? ==> p.amount == amount)
  }

  predicate RowKept(f: Funding, amount: nat, s: State) {
    && (f.Swap? ==> amount == f.source)
    && (s.db.row.reservation.Reserved? ==> s.db.row.reservation.amount == amount)
    && (s.db.row.status.Submitted? ==> s.db.row.reservation == Reserved(amount))
    && (!s.present ==> s.db.row == NewRow())
    && s.cancels == map[]
  }

  /** The row agrees with what its owner has done, and has one owner at most. */
  predicate Kept(f: Funding, amount: nat, s: State) {
    && RowKept(f, amount, s)
    && (forall w :: w in s.workers ==> WorkerKept(amount, s, s.workers[w]))
    && (forall v, w :: v in s.workers && w in s.workers && Owner(s, s.workers[v]) && Owner(s, s.workers[w]) ==>
          v == w)
  }

  /** Writes are owned, a claim has a stamp that no worker in flight has, there is one card rate, a
      new row copies no reservation, and nothing is cancelled. */
  predicate Careful(f: Funding, amount: nat, s: State, e: Event) {
    && Owns(f, s, e) && !e.CancelRead?
    && (Proceeds(s, e) ==> forall w :: w in s.workers && s.workers[w].InFlight() ==>
          s.workers[w].meta.initiatedAt != e.act.now)
    && (e.Work? && e.act.Reserve? ==> AmountToReserve(f, e.act.amount) == amount)
    && (e.Work? && e.act.Create? ==> !e.act.config.reservation.Reserved?)
  }

  predicate CarefulRun(f: Funding, amount: nat, s: State, es: seq<Event>)
    decreases |es|
  {
    es == [] || (Careful(f, amount, s, es[0]) && CarefulRun(f, amount, Step(f, s, es[0]), es[1..]))
  }

  lemma CarefulFits(f: Funding, amount: nat, s: State, e: Event)
    requires Kept(f, amount, s) && Good(f, s.db) && Careful(f, amount, s, e)
    ensures Fits(f, s, e)
  {
    if e.Work? {
      var p := PhaseOf(s, e.w);
      assert e.w in s.workers ==> WorkerKept(amount, s, p);
      hide ReserveTx, Good, Kept;
    }
  }

  /** A turn keeps everything when its worker fits, and takes the row from its other owners. */
  lemma TurnKept(f: Funding, amount: nat, s: State, w: WorkerId, t: Turn)
    requires Kept(f, amount, s)
    requires var n := Taken(s, w, t);
      && RowKept(f, amount, n) && WorkerKept(amount, n, t.phase) && (s.present ==> t.present)
      && (forall v :: v in s.workers && v != w && Owner(n, s.workers[v]) ==>
            Owner(s, s.workers[v]) && t.db.row == s.db.row && !Owner(n, t.phase))
    ensures Kept(f, amount, Taken(s, w, t))
  {
    var n := Taken(s, w, t);
    forall v | v in n.workers ensures WorkerKept(amount, n, n.workers[v]) {
      if v != w { assert WorkerKept(amount, s, s.workers[v]); }
    }
    hide WorkerKept, RowKept, OwnsLease;
  }

  lemma CarefulKeeps(f: Funding, amount: nat, s: State, e: Event)
    requires Kept(f, amount, s) && Careful(f, amount, s, e)
    ensures Kept(f, amount, Step(f, s, e))
  {
    if e.Work? {
      var p := PhaseOf(s, e.w);
      assert e.w in s.workers ==> WorkerKept(amount, s, p);
      var t := WorkTurn(f, s, p, e.act);
      OwnersAfter(f, amount, s, e);
      PhaseAfter(f, amount, s, e);
      hide Careful, WorkTurn, WorkerKept, RowKept, Owner;
      TurnKept(f, amount, s, e.w, t);
    } else {
      hide CancelTx, Agrees;
    }
  }

  /** Whoever else owns the row after a turn owned it before, and the turn left the row alone. */
  lemma OwnersAfter(f: Funding, amount: nat, s: State, e: Event)
    requires Kept(f, amount, s) && Careful(f, amount, s, e) && e.Work?
    ensures var t := WorkTurn(f, s, PhaseOf(s, e.w), e.act);
      var n := Taken(s, e.w, t);
      forall v :: v in s.workers && v != e.w && Owner(n, s.workers[v]) ==>
        Owner(s, s.workers[v]) && t.db.row == s.db.row && !Owner(n, t.phase)
  {
    var p := PhaseOf(s, e.w);
    assert e.w in s.workers ==> WorkerKept(amount, s, p);
    var n := Taken(s, e.w, WorkTurn(f, s, p, e.act));
    forall v | v in s.workers && v != e.w && Owner(n, s.workers[v])
      ensures Owner(s, s.workers[v]) && n.db.row == s.db.row && !Owner(n, n.workers[e.w])
    {
      assert WorkerKept(amount, s, s.workers[v]);
    }
  }

  lemma PhaseAfterLook(f: Funding, amount: nat, s: State, e: Event)
    requires RowKept(f, amount, s) && Careful(f, amount, s, e) && e.Work? && WorkerKept(amount, s, PhaseOf(s, e.w))
    requires !e.act.Reserve? && !e.act.Debit? && !e.act.Submit? && !e.act.Compensate?
    ensures var t := WorkTurn(f, s, PhaseOf(s, e.w), e.act);
      var n := Taken(s, e.w, t);
      RowKept(f, amount, n) && WorkerKept(amount, n, t.phase) && (s.present ==> t.present)
  {}

  lemma PhaseAfterWrite(f: Funding, amount: nat, s: State, e: Event)
    requires RowKept(f, amount, s) && Careful(f, amount, s, e) && e.Work? && WorkerKept(amount, s, PhaseOf(s, e.w))
    requires e.act.Reserve? || e.act.Debit? || e.act.Submit? || e.act.Compensate?
    ensures var t := WorkTurn(f, s, PhaseOf(s, e.w), e.act);
      var n := Taken(s, e.w, t);
      RowKept(f, amount, n) && WorkerKept(amount, n, t.phase) && (s.present ==> t.present)
  {
    hide ReserveUser, ReservePot, ReleaseOrKeep;
  }

  lemma PhaseAfter(f: Funding, amount: nat, s: State, e: Event)
    requires Kept(f, amount, s) && Careful(f, amount, s, e) && e.Work?
    ensures var t := WorkTurn(f, s, PhaseOf(s, e.w), e.act);
      var n := Taken(s, e.w, t);
      RowKept(f, amount, n) && WorkerKept(amount, n, t.phase) && (s.present ==> t.present)
  {
    assert e.w in s.workers ==> WorkerKept(amount, s, PhaseOf(s, e.w));
    assert WorkerKept(amount, s, PhaseOf(s, e.w));
    hide Kept, Careful, WorkTurn, WorkerKept, RowKept;
    if e.act.Reserve? || e.act.Debit? || e.act.Submit? || e.act.Compensate? {
      PhaseAfterWrite(f, amount, s, e);
    } else {
      PhaseAfterLook(f, amount, s, e);
    }
  }

  /** Whatever is paid and however late workers are, the books are right throughout and every
      SUBMITTED row is backed by its reservation, as long as each write comes from a worker whose
      claim, with a stamp of its own, is still the row's. */
  lemma {:induction false} OwnedBooks(f: Funding, amount: nat, s: State, es: seq<Event>)
    requires Kept(f, amount, s) && Good(f, s.db) && ClaimsOk(s) && CarefulRun(f, amount, s, es)
    ensures AlwaysGood(f, s, es)
    ensures var t := Run(f, s, es);
      Good(f, t.db) && (t.db.row.status.Submitted? ==> t.db.row.reservation == Reserved(amount))
    decreases |es|
  {
    assert s.db.row.status.Submitted? ==> s.db.row.reservation == Reserved(amount);
    hide Kept, Good, ClaimsOk, Careful, Step, Fits;
    if es != [] {
      CarefulFits(f, amount, s, es[0]);
      StepIsExact(f, s, es[0]);
      ClaimsStayOk(f, s, es[0]);
      CarefulKeeps(f, amount, s, es[0]);
      OwnedBooks(f, amount, Step(f, s, es[0]), es[1..]);
    }
  }

  lemma InitialIsKept(f: Funding, amount: nat, s: State)
    requires Initial(s) && (f.Swap? ==> amount == f.source)
    ensures Kept(f, amount, s) && Good(f, s.db) && ClaimsOk(s)
  {}

  // ---------------------------------------------------------------- late workers

  function LateFailure(): seq<Event> {
    [Work(LEASE_MS, 2, Debit)] + ([Work(LEASE_MS, 1, Abort)] + ([Work(LEASE_MS, 1, Compensate)] + []))
  }

  lemma LateFailureSteps()
    ensures var s1 := Step(Usdt, AfterTwoClaims(), Work(LEASE_MS, 2, Debit));
      var s2 := Step(Usdt, s1, Work(LEASE_MS, 1, Abort));
      var t := Step(Usdt, s2, Work(LEASE_MS, 1, Compensate));
      t.db.debits == 1 && t.db.row.status.Failed?
  {}

  /** Worker 1 outlived its lease; worker 2 claimed the row and debited.  The late failure of worker 1
      turns COMPLETED into FAILED: the debit stays, and the row lets the next claim in. */
  lemma LateFailureHidesDebit(now: int)
    ensures var t := Run(Usdt, StartOf(true), TwoClaims() + LateFailure());
      && Initial(StartOf(true)) && t.db.debits == 1 && t.db.row.status.Failed? && !Blocks(t.db.row, now)
      && !AlwaysFits(Usdt, StartOf(true), TwoClaims() + LateFailure())
  {
    InitialIsGood(Usdt, StartOf(true));
    assert Initial(StartOf(true));
    hide Step, TwoClaims, AfterTwoClaims, StartOf, Initial, ClaimsOk;
    var e1, e2, e3 := Work(LEASE_MS, 2, Debit), Work(LEASE_MS, 1, Abort), Work(LEASE_MS, 1, Compensate);
    var all := TwoClaims() + LateFailure();
    TwoClaimsRun(Usdt, LateFailure());
    var s1 := Step(Usdt, AfterTwoClaims(), e1);
    var s2 := Step(Usdt, s1, e2);
    RunCons(Usdt, AfterTwoClaims(), e1, [e2] + ([e3] + []));
    RunCons(Usdt, s1, e2, [e3] + []);
    RunCons(Usdt, s2, e3, []);
    LateFailureSteps();
    BooksAreExact(Usdt, StartOf(true), all);
    if AlwaysFits(Usdt, StartOf(true), all) {
      GoodAtEnd(Usdt, StartOf(true), all);
      assert false;
    }
  }
}
