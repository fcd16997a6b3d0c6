/** Any number of workers on one execution transaction: they look it up or create it, claim
    it for a lease of 15 minutes, reserve, submit or debit, compensate a failure, or die. */
module ExecutionProtocol {
  import opened Wrappers
  import opened ExecutionTx
  import opened Pots
  import opened Spacing

  type WorkerId = nat

  /** `meta` is the metadata that the worker's claim wrote and read.  Charged: the provider's client
      returned, and `accepted` is what the provider did. */
  datatype Phase =
    | Idle
    | Absent
    | Ready
    | Claimed(meta: Meta)
    | Holding(meta: Meta, amount: nat)
    | Charged(meta: Meta, amount: nat, accepted: bool)
    | Failing(meta: Meta)
  {
    predicate InFlight() {
      Claimed? || Holding? || Charged? || Failing?
    }
  }

  /** The provider call of the last claim: whether the provider accepted, whether its client
      returned, whether the record of it threw, and whether the catch block went through. */
  datatype Trial = Trial(accepted: bool, reported: bool, recordThrew: bool, caught: bool)

  /** Rows created, charges that the provider accepted, those of them recorded as SUBMITTED, those
      whose worker left without a record, and the last trial. */
  datatype History = History(created: nat, accepted: nat, recorded: nat, lost: nat, trial: Option<Trial>)

  /** `cancels` are cancellations under way, with the metadata that each has read; `ended` says that
      the stack was cancelled. */
  datatype State = State(
    db: Db,
    present: bool,
    ended: bool,
    workers: map<WorkerId, Phase>,
    cancels: map<nat, Meta>,
    log: History)

  /** Charge is the confirmed swap or the card charge: the provider's deed, and whether its client
      returned.  Abort is an exception. */
  datatype Act =
    | Lookup
    | Create(config: Meta)
    | Claim(now: int)
    | Reserve(amount: nat)
    | Debit
    | Charge(accepted: bool, reported: bool)
    | Submit
    | Abort
    | Compensate
    | Crash

  /** `at` is the wall clock.  A claim works with a clock reading `now` of its own, taken earlier.
      A cancellation reads the row, and later commits or gives up. */
  datatype Event =
    | Work(at: int, w: WorkerId, act: Act)
    | CancelRead(at: int, c: nat)
    | CancelCommit(at: int, c: nat)
    | CancelDrop(at: int, c: nat)
    | Others(at: int, user: Pot, company: Pot)

  function PhaseOf(s: State, w: WorkerId): Phase {
    if w in s.workers then s.workers[w] else Idle
  }

  function NewRow(): Meta {
    Meta(Pending, 0, NotReserved, false)
  }

  function AmountToReserve(f: Funding, requested: nat): nat {
    if f.Swap? then f.source else requested
  }

  function Count(b: bool): nat {
    if b then 1 else 0
  }

  /** The acceptance that a worker leaves without a record. */
  function Unrecorded(p: Phase): nat {
    if p.Charged? then Count(p.accepted) else 0
  }

  /** What one worker's act makes of its phase, the row, and the history. */
  datatype Turn = Turn(phase: Phase, db: Db, present: bool, log: History)

  function WorkTurn(f: Funding, s: State, p: Phase, act: Act): Turn {
    var stay := Turn(p, s.db, s.present, s.log);
    match act
    case Lookup =>
      if p != Idle || s.ended then stay else stay.(phase := if s.present then Ready else Absent)
    case Create(config) =>
      if p != Absent then stay
      else if s.present then stay.(phase := Ready)
      else Turn(Ready, s.db.(row := CreatedRow(config)), true, s.log.(created := s.log.created + 1))
    case Claim(now) =>
      if p != Ready || !s.present then stay
      else if Blocks(s.db.row, now) then stay.(phase := Idle)
      else Turn(Claimed(ClaimTx(s.db, now).row), ClaimTx(s.db, now), true, s.log.(trial := None))
    case Reserve(requested) =>
      if !p.Claimed? || f.Usdt? then stay
      else
        var amount := AmountToReserve(f, requested);
        (match ReserveTx(s.db, f, p.meta, amount)
         case Success(db) => stay.(phase := Holding(p.meta, amount), db := db)
         case Failure(_) => stay.(phase := Failing(p.meta)))
    case Debit =>
      if !p.Claimed? || !f.Usdt? then stay else stay.(phase := Idle, db := DebitTx(s.db, p.meta))
    case Charge(accepted, reported) =>
      if !p.Holding? then stay
      else stay.(
        phase := if reported then Charged(p.meta, p.amount, accepted) else Failing(p.meta),
        log := s.log.(
          accepted := s.log.accepted + Count(accepted),
          lost := s.log.lost + Count(accepted && !reported),
          trial := Some(Trial(accepted, reported, false, false))))
    case Submit =>
      if !p.Charged? then stay
      else stay.(
        phase := Idle,
        db := SubmitTx(s.db, f, p.meta, p.amount),
        log := s.log.(recorded := s.log.recorded + Count(p.accepted)))
    case Abort =>
      if !p.InFlight() then stay
      else stay.(
        phase := Failing(p.meta),
        log := s.log.(
          lost := s.log.lost + Unrecorded(p),
          trial := if p.Charged? && s.log.trial.Some? then Some(s.log.trial.value.(recordThrew := true))
                   else s.log.trial))
    case Compensate =>
      if !p.Failing? then stay
      else stay.(
        phase := Idle,
        db := CompensateTx(s.db, f),
        log := s.log.(trial := if s.log.trial.Some? then Some(s.log.trial.value.(caught := true)) else None))
    case Crash =>
      stay.(phase := Idle, log := s.log.(lost := s.log.lost + Unrecorded(p)))
  }

  function Taken(s: State, w: WorkerId, t: Turn): State {
    State(t.db, t.present, s.ended, s.workers[w := t.phase], s.cancels, t.log)
  }

  predicate Cancellable(f: Funding, s: State) {
    s.present && !s.ended && !s.db.row.status.Completed?
    && !(f.Card? && (s.db.row.status.Processing? || s.db.row.status.Submitted?))
  }

  function CancelStep(f: Funding, s: State, c: nat): State
    requires c in s.cancels
  {
    match CancelTx(s.db, f, s.cancels[c])
    case Success(db) => s.(db := db, ended := true, cancels := s.cancels - {c})
    case Failure(_) => s.(cancels := s.cancels - {c})
  }

  function Step(f: Funding, s: State, e: Event): State {
    match e
    case Work(_, w, act) => Taken(s, w, WorkTurn(f, s, PhaseOf(s, w), act))
    case CancelRead(_, c) =>
      if Cancellable(f, s) && c !in s.cancels then s.(cancels := s.cancels[c := s.db.row]) else s
    case CancelCommit(_, c) => if c in s.cancels then CancelStep(f, s, c) else s
    case CancelDrop(_, c) => s.(cancels := s.cancels - {c})
    case Others(_, user, company) =>
      if s.db.heldUser <= user.reserved && s.db.heldCompany <= company.reserved
      then s.(db := s.db.(user := user, company := company))
      else s
  }

  function Run(f: Funding, s: State, es: seq<Event>): State
    decreases |es|
  {
    if es == [] then s else Run(f, Step(f, s, es[0]), es[1..])
  }

  /** Before anything happened to the row: a stack's own transaction exists from the start,
      that of a later charge does not. */
  predicate Initial(s: State) {
    && s.workers == map[] && s.cancels == map[] && !s.ended && s.log == History(0, 0, 0, 0, None)
    && s.db.row == NewRow() && s.db.heldUser == 0 && s.db.heldCompany == 0 && s.db.debits == 0
    && 0 <= s.db.user.reserved && 0 <= s.db.company.reserved
  }

  /** A worker finds the row that is there; where there is none it makes one, PENDING, from the
      metadata of the stack's own transaction, unless another worker was faster.  An ended stack is
      not looked at. */
  lemma LooksUpOrCreates(f: Funding, s: State, w: WorkerId, at: int, config: Meta, between: State)
    requires PhaseOf(s, w).Idle?
    ensures var t := Step(f, s, Work(at, w, Lookup));
      t == if s.ended then s.(workers := s.workers[w := Idle])
           else s.(workers := s.workers[w := if s.present then Ready else Absent])
    ensures PhaseOf(between, w).Absent? ==> var t := Step(f, between, Work(at, w, Create(config)));
      && t.present && PhaseOf(t, w).Ready?
      && (if between.present then t.db == between.db && t.log == between.log
          else t.db == between.db.(row := Meta(Pending, config.initiatedAt, config.reservation, config.settled))
               && t.log.created == between.log.created + 1)
  {}

  /** A worker that has found the row claims it unless it is SUBMITTED, COMPLETED or claimed less than
      fifteen minutes ago; otherwise it goes away and changes nothing. */
  lemma ClaimsIff(f: Funding, s: State, w: WorkerId, at: int, now: int)
    requires PhaseOf(s, w).Ready? && s.present
    ensures var row, t := s.db.row, Step(f, s, Work(at, w, Claim(now)));
      var claim := Meta(Processing, now, row.reservation, row.settled);
      if row.status.Submitted? || row.status.Completed?
         || (row.status.Processing? && now - row.initiatedAt < 15 * 60 * 1000)
      then t == s.(workers := s.workers[w := Idle])
      else t == s.(workers := s.workers[w := Claimed(claim)], db := s.db.(row := claim), log := s.log.(trial := None))
  {}

  /** A swap reserves its source of the company, whatever the card rate says. */
  lemma SwapReservesItsSource(f: Funding, s: State, w: WorkerId, at: int, requested: nat)
    requires f.Swap? && PhaseOf(s, w).Claimed?
    ensures var p := PhaseOf(Step(f, s, Work(at, w, Reserve(requested))), w);
      p.Failing? || (p.Holding? && p.amount == f.source)
  {
    hide ReserveTx;
  }

  /** Other activity leaves no more reserved than there is. */
  predicate OthersSolvent(es: seq<Event>) {
    forall i :: 0 <= i < |es| && es[i].Others? ==> Solvent(es[i].user) && Solvent(es[i].company)
  }

  lemma TurnKeepsSolvent(f: Funding, s: State, p: Phase, act: Act)
    requires BothSolvent(s.db)
    ensures BothSolvent(WorkTurn(f, s, p, act).db)
  {
    if act.Reserve? && p.Claimed? { TransactionsKeepSolvent(s.db, f, p.meta, AmountToReserve(f, act.amount)); }
    TransactionsKeepSolvent(s.db, f, s.db.row, 0);
    hide ReserveTx, CompensateTx, Blocks;
  }

  lemma StepKeepsSolvent(f: Funding, s: State, e: Event)
    requires BothSolvent(s.db) && (e.Others? ==> Solvent(e.user) && Solvent(e.company))
    ensures BothSolvent(Step(f, s, e).db)
  {
    if e.Work? { TurnKeepsSolvent(f, s, PhaseOf(s, e.w), e.act); }
    if e.CancelCommit? && e.c in s.cancels { TransactionsKeepSolvent(s.db, f, s.cancels[e.c], 0); }
    hide WorkTurn, CancelTx;
  }

  /** However many workers there are and however late, they never reserve more than there is. */
  lemma {:induction false} NeverOverdrawn(f: Funding, s: State, es: seq<Event>)
    requires BothSolvent(s.db) && OthersSolvent(es)
    ensures BothSolvent(Run(f, s, es).db)
    decreases |es|
  {
    hide BothSolvent, Step;
    if es != [] {
      StepKeepsSolvent(f, s, es[0]);
      NeverOverdrawn(f, Step(f, s, es[0]), es[1..]);
    }
  }

  // ---------------------------------------------------------------- leases that are kept

  predicate Quiet(s: State) {
    forall w :: w in s.workers ==> s.workers[w].Idle?
  }

  /** Every worker in flight still acts inside its lease, no cancellation meets a worker, a card
      charge is priced at `amount` whenever it is tried, and a new row copies no reservation. */
  predicate Timely(f: Funding, amount: nat, s: State, e: Event) {
    && (forall w :: w in s.workers && s.workers[w].InFlight() ==> e.at < s.workers[w].meta.initiatedAt + LEASE_MS)
    && (e.Work? && e.act.Create? ==> !e.act.config.reservation.Reserved?)
    && (e.Work? && e.act.Claim? ==> e.act.now <= e.at)
    && (e.Work? && e.act.Reserve? ==> AmountToReserve(f, e.act.amount) == amount)
    && (s.cancels != map[] ==> e.CancelCommit? || e.CancelDrop? || e.Others?)
    && (e.CancelRead? ==> Quiet(s))
  }

  predicate TimelyRun(f: Funding, amount: nat, s: State, es: seq<Event>)
    decreases |es|
  {
    es == [] || (Timely(f, amount, s, es[0]) && TimelyRun(f, amount, Step(f, s, es[0]), es[1..]))
  }

  /** The row agrees with what a worker in flight has done. */
  predicate Agrees(row: Meta, p: Phase) {
    match p
    case Claimed(meta) => row == meta
    case Holding(meta, amount) => row == meta.(reservation := Reserved(amount))
    case Charged(meta, amount, _) => row == meta.(reservation := Reserved(amount))
    case Failing(meta) => row.status == meta.status && row.initiatedAt == meta.initiatedAt
    case _ => true
  }

  predicate WorkerOk(amount: nat, s: State, p: Phase) {
    && (!p.Idle? ==> !s.ended)
    && (p.InFlight() || p.Ready? ==> s.present)
    && (p.InFlight() ==> p.meta.status.Processing? && Agrees(s.db.row, p))
    && (p.Holding? || p.Charged? ==> p.amount == amount)
  }

  predicate WorkersInv(amount: nat, s: State) {
    forall w :: w in s.workers ==> WorkerOk(amount, s, s.workers[w])
  }

  predicate Alone(s: State) {
    forall v, w :: v in s.workers && w in s.workers && s.workers[v].InFlight() && s.workers[w].InFlight() ==> v == w
  }

  predicate RowInv(f: Funding, amount: nat, s: State) {
    && (s.db.row.reservation.Reserved? ==> s.db.row.reservation.amount == amount)
    && (s.db.row.status.Completed? <==> s.db.debits == 1)
    && s.db.debits <= 1
    && (!s.present ==> s.db.row == NewRow())
  }

  predicate BooksInv(f: Funding, s: State) {
    && Covered(s.db)
    && (!s.ended ==> Accounted(s.db, f))
    && (s.ended ==> s.db.heldCompany == 0)
    && (s.ended ==> s.db.heldUser == 0 || (f.Swap? && s.db.heldUser == f.fee))
  }

  /** A cancellation under way is the only one, and nothing has changed since it read the row. */
  predicate CancelsInv(f: Funding, s: State) {
    && (s.cancels != map[] ==> Quiet(s) && s.present)
    && (forall c :: c in s.cancels ==> s.cancels[c] == s.db.row && !s.db.row.status.Completed? && !s.ended)
    && (forall c, d :: c in s.cancels && d in s.cancels ==> c == d)
  }

  predicate Inv(f: Funding, amount: nat, s: State) {
    && (f.Swap? ==> amount == f.source) && CancelsInv(f, s)
    && s.log.created <= (if s.present then 1 else 0)
    && WorkersInv(amount, s) && Alone(s) && RowInv(f, amount, s) && BooksInv(f, s)
  }

  lemma InitialInv(f: Funding, amount: nat, s: State)
    requires Initial(s) && (f.Swap? ==> amount == f.source)
    ensures Inv(f, amount, s)
  {}

  /** While leases are kept, a claim finds no other worker in flight. */
  lemma ClaimFindsNobody(f: Funding, amount: nat, s: State, e: Event)
    requires Inv(f, amount, s) && Timely(f, amount, s, e) && e.Work? && e.act.Claim?
    requires !Blocks(s.db.row, e.act.now)
    ensures forall w :: w in s.workers ==> !s.workers[w].InFlight()
  {}

  /** The row and its books after a turn. */
  predicate RowsOk(f: Funding, amount: nat, n: State) {
    RowInv(f, amount, n) && BooksInv(f, n) && n.log.created <= (if n.present then 1 else 0)
  }

  /** A turn keeps the invariant when it suits its own worker, and no other worker is in flight if it
      changes the row or is in flight itself. */
  lemma TurnKeepsInv(f: Funding, amount: nat, s: State, w: WorkerId, t: Turn)
    requires Inv(f, amount, s) && s.cancels == map[] && (s.present ==> t.present)
    requires var n := Taken(s, w, t); WorkerOk(amount, n, t.phase) && RowsOk(f, amount, n)
    requires t.db.row != s.db.row || t.phase.InFlight() ==>
      forall v :: v in s.workers && v != w ==> !s.workers[v].InFlight()
    ensures Inv(f, amount, Taken(s, w, t))
  {
    var n := Taken(s, w, t);
    forall v | v in n.workers ensures WorkerOk(amount, n, n.workers[v]) {
      if v != w { assert WorkerOk(amount, s, s.workers[v]); }
    }
    hide RowInv, BooksInv, WorkerOk;
  }

  /** The turn of a worker in flight that keeps its own books. */
  lemma InFlightIsAlone(f: Funding, amount: nat, s: State, w: WorkerId)
    requires Inv(f, amount, s) && PhaseOf(s, w).InFlight()
    ensures forall v :: v in s.workers && v != w ==> !s.workers[v].InFlight()
  {}

  lemma StartTurn(f: Funding, amount: nat, s: State, e: Event)
    requires Inv(f, amount, s) && Timely(f, amount, s, e) && e.Work?
    requires e.act.Lookup? || e.act.Create? || e.act.Charge? || e.act.Abort? || e.act.Crash?
    ensures var t := WorkTurn(f, s, PhaseOf(s, e.w), e.act);
      var n := Taken(s, e.w, t);
      WorkerOk(amount, n, t.phase) && RowsOk(f, amount, n) && (s.present ==> t.present)
      && (t.db.row != s.db.row ==> !s.present) && (t.phase.InFlight() ==> PhaseOf(s, e.w).InFlight())
  {
    assert e.w in s.workers ==> WorkerOk(amount, s, PhaseOf(s, e.w));
    hide Alone, CancelsInv, WorkersInv;
  }

  lemma StartKeepsInv(f: Funding, amount: nat, s: State, e: Event)
    requires Inv(f, amount, s) && Timely(f, amount, s, e) && e.Work?
    requires e.act.Lookup? || e.act.Create? || e.act.Charge? || e.act.Abort? || e.act.Crash?
    ensures Inv(f, amount, Step(f, s, e))
  {
    StartTurn(f, amount, s, e);
    if PhaseOf(s, e.w).InFlight() { InFlightIsAlone(f, amount, s, e.w); }
    assert !s.present ==> forall v :: v in s.workers ==> !s.workers[v].InFlight();
    assert s.cancels == map[];
    hide WorkTurn, Inv, Timely, WorkerOk, RowsOk;
    TurnKeepsInv(f, amount, s, e.w, WorkTurn(f, s, PhaseOf(s, e.w), e.act));
  }

  lemma ClaimTurn(f: Funding, amount: nat, s: State, e: Event)
    requires Inv(f, amount, s) && Timely(f, amount, s, e) && e.Work? && e.act.Claim?
    ensures var t := WorkTurn(f, s, PhaseOf(s, e.w), e.act);
      var n := Taken(s, e.w, t);
      WorkerOk(amount, n, t.phase) && RowsOk(f, amount, n) && (s.present ==> t.present)
      && (t.db.row != s.db.row || (t.phase.InFlight() && !PhaseOf(s, e.w).InFlight()) ==> !Blocks(s.db.row, e.act.now))
  {
    assert e.w in s.workers ==> WorkerOk(amount, s, PhaseOf(s, e.w));
    hide Alone, CancelsInv, WorkersInv;
  }

  lemma ClaimKeepsInv(f: Funding, amount: nat, s: State, e: Event)
    requires Inv(f, amount, s) && Timely(f, amount, s, e) && e.Work? && e.act.Claim?
    ensures Inv(f, amount, Step(f, s, e))
  {
    ClaimTurn(f, amount, s, e);
    if !Blocks(s.db.row, e.act.now) { ClaimFindsNobody(f, amount, s, e); }
    if PhaseOf(s, e.w).InFlight() { InFlightIsAlone(f, amount, s, e.w); }
    assert s.cancels == map[];
    hide WorkTurn, Inv, Timely, WorkerOk, RowsOk, Blocks;
    TurnKeepsInv(f, amount, s, e.w, WorkTurn(f, s, PhaseOf(s, e.w), e.act));
  }

  lemma ReserveTurn(f: Funding, amount: nat, s: State, e: Event)
    requires Inv(f, amount, s) && Timely(f, amount, s, e) && e.Work? && e.act.Reserve?
    ensures var t := WorkTurn(f, s, PhaseOf(s, e.w), e.act);
      var n := Taken(s, e.w, t);
      WorkerOk(amount, n, t.phase) && RowsOk(f, amount, n) && (s.present ==> t.present)
      && (t.db.row != s.db.row || t.phase.InFlight() ==> PhaseOf(s, e.w).InFlight())
  {
    assert e.w in s.workers ==> WorkerOk(amount, s, PhaseOf(s, e.w));
    hide Alone, CancelsInv, WorkersInv;
  }

  lemma EndTurn(f: Funding, amount: nat, s: State, e: Event)
    requires Inv(f, amount, s) && Timely(f, amount, s, e) && e.Work? && (e.act.Debit? || e.act.Submit?)
    ensures var t := WorkTurn(f, s, PhaseOf(s, e.w), e.act);
      var n := Taken(s, e.w, t);
      WorkerOk(amount, n, t.phase) && RowsOk(f, amount, n) && (s.present ==> t.present)
      && (t.db.row != s.db.row || t.phase.InFlight() ==> PhaseOf(s, e.w).InFlight())
  {
    assert e.w in s.workers ==> WorkerOk(amount, s, PhaseOf(s, e.w));
    hide Alone, CancelsInv, WorkersInv;
  }

  lemma CompensateTurn(f: Funding, amount: nat, s: State, e: Event)
    requires Inv(f, amount, s) && Timely(f, amount, s, e) && e.Work? && e.act.Compensate?
    ensures var t := WorkTurn(f, s, PhaseOf(s, e.w), e.act);
      var n := Taken(s, e.w, t);
      WorkerOk(amount, n, t.phase) && RowsOk(f, amount, n) && (s.present ==> t.present)
      && (t.db.row != s.db.row || t.phase.InFlight() ==> PhaseOf(s, e.w).InFlight())
  {
    assert e.w in s.workers ==> WorkerOk(amount, s, PhaseOf(s, e.w));
    hide Alone, CancelsInv, WorkersInv;
  }

  lemma WriteKeepsInv(f: Funding, amount: nat, s: State, e: Event)
    requires Inv(f, amount, s) && Timely(f, amount, s, e) && e.Work?
    requires e.act.Reserve? || e.act.Debit? || e.act.Submit? || e.act.Compensate?
    ensures Inv(f, amount, Step(f, s, e))
  {
    match e.act {
      case Reserve(_) => ReserveTurn(f, amount, s, e);
      case Compensate => CompensateTurn(f, amount, s, e);
      case _ => EndTurn(f, amount, s, e);
    }
    if PhaseOf(s, e.w).InFlight() { InFlightIsAlone(f, amount, s, e.w); }
    assert s.cancels == map[];
    hide WorkTurn, Inv, Timely, WorkerOk, RowsOk;
    TurnKeepsInv(f, amount, s, e.w, WorkTurn(f, s, PhaseOf(s, e.w), e.act));
  }

  lemma CancelKeepsInv(f: Funding, amount: nat, s: State, e: Event)
    requires Inv(f, amount, s) && Timely(f, amount, s, e) && !e.Work?
    ensures Inv(f, amount, Step(f, s, e))
  {
    hide Agrees;
  }

  lemma StepKeepsInv(f: Funding, amount: nat, s: State, e: Event)
    requires Inv(f, amount, s) && Timely(f, amount, s, e)
    ensures Inv(f, amount, Step(f, s, e))
  {
    hide Inv, Timely, Step;
    if !e.Work? {
      CancelKeepsInv(f, amount, s, e);
    } else {
      match e.act
      case Claim(_) => ClaimKeepsInv(f, amount, s, e);
      case Lookup | Create(_) | Charge(_, _) | Abort | Crash => StartKeepsInv(f, amount, s, e);
      case Reserve(_) | Debit | Submit | Compensate => WriteKeepsInv(f, amount, s, e);
    }
  }

  lemma {:induction false} RunKeepsInv(f: Funding, amount: nat, s: State, es: seq<Event>)
    requires Inv(f, amount, s) && TimelyRun(f, amount, s, es)
    ensures Inv(f, amount, Run(f, s, es))
    decreases |es|
  {
    if es != [] {
      StepKeepsInv(f, amount, s, es[0]);
      RunKeepsInv(f, amount, Step(f, s, es[0]), es[1..]);
    }
  }

  /** Lease exclusivity: at most one worker is ever in flight. */
  lemma AtMostOneInFlight(f: Funding, amount: nat, s: State, es: seq<Event>, v: WorkerId, w: WorkerId)
    requires Initial(s) && (f.Swap? ==> amount == f.source) && TimelyRun(f, amount, s, es)
    requires PhaseOf(Run(f, s, es), v).InFlight() && PhaseOf(Run(f, s, es), w).InFlight()
    ensures v == w && OwnsLease(Run(f, s, es).db, PhaseOf(Run(f, s, es), v).meta)
  {
    InitialInv(f, amount, s);
    RunKeepsInv(f, amount, s, es);
  }

  /** The books of one execution: in every reachable state the row holds exactly what its
      metadata says is RESERVED (source and fee of the user, the source of the company), and
      nothing otherwise; a cancelled row holds nothing of the company and at most the fee. */
  lemma HoldsWhatItSays(f: Funding, amount: nat, s: State, es: seq<Event>)
    requires Initial(s) && (f.Swap? ==> amount == f.source) && TimelyRun(f, amount, s, es)
    ensures var t := Run(f, s, es);
      && Covered(t.db)
      && (!t.ended && t.db.row.reservation.Reserved? ==>
            t.db.heldUser == UserPart(f) && t.db.heldCompany == amount == t.db.row.reservation.amount)
      && (!t.ended && !t.db.row.reservation.Reserved? ==> t.db.heldUser == 0 && t.db.heldCompany == 0)
      && (t.ended ==> t.db.heldCompany == 0 && (t.db.heldUser == 0 || (f.Swap? && t.db.heldUser == f.fee)))
  {
    InitialInv(f, amount, s);
    RunKeepsInv(f, amount, s, es);
  }

  /** At most once: however many workers race to create it, one scheduled instant has one
      execution transaction, and it is debited once, exactly when it is COMPLETED. */
  lemma AtMostOnce(f: Funding, amount: nat, s: State, es: seq<Event>)
    requires Initial(s) && (f.Swap? ==> amount == f.source) && TimelyRun(f, amount, s, es)
    ensures var t := Run(f, s, es);
      t.log.created <= 1 && t.db.debits <= 1 && (t.db.debits == 1 <==> t.db.row.status.Completed?)
  {
    InitialInv(f, amount, s);
    RunKeepsInv(f, amount, s, es);
  }

  predicate Settled(s: State) {
    s.db.row.status.Submitted? || s.db.row.status.Completed?
  }

  /** No cancellation is under way, and none starts. */
  predicate Uncancelled(s: State, es: seq<Event>) {
    s.cancels == map[] && forall i :: 0 <= i < |es| ==> !es[i].CancelRead?
  }

  /** SUBMITTED and COMPLETED are terminal: without a cancellation the row never changes again. */
  lemma {:induction false} SettledIsTerminal(f: Funding, amount: nat, s: State, es: seq<Event>)
    requires Inv(f, amount, s) && s.present && Settled(s) && TimelyRun(f, amount, s, es)
    requires Uncancelled(s, es)
    ensures Run(f, s, es).db.row == s.db.row && Run(f, s, es).db.debits == s.db.debits
    decreases |es|
  {
    if es != [] {
      StepKeepsInv(f, amount, s, es[0]);
      SettledStays(f, amount, s, es[0]);
      SettledIsTerminal(f, amount, Step(f, s, es[0]), es[1..]);
    }
  }

  lemma SettledStays(f: Funding, amount: nat, s: State, e: Event)
    requires Inv(f, amount, s) && s.present && Settled(s) && s.cancels == map[] && !e.CancelRead?
    ensures var t := Step(f, s, e);
      t.db.row == s.db.row && t.db.debits == s.db.debits && t.present && t.cancels == map[]
  {}

  // ---------------------------------------------------------------- claims, whatever the workers do

  /** The instants at which claims go ahead. */
  function ClaimTimes(f: Funding, s: State, es: seq<Event>): seq<int>
    decreases |es|
  {
    if es == [] then []
    else (if Proceeds(s, es[0]) then [es[0].act.now] else []) + ClaimTimes(f, Step(f, s, es[0]), es[1..])
  }

  predicate Proceeds(s: State, e: Event) {
    e.Work? && e.act.Claim? && PhaseOf(s, e.w).Ready? && s.present && !Blocks(s.db.row, e.act.now)
  }

  /** The event records a failure or a cancellation. */
  predicate Resets(s: State, e: Event) {
    e.CancelCommit? || (e.Work? && e.act.Compensate? && PhaseOf(s, e.w).Failing?)
  }

  /** The event is a reservation by a worker whose claim is no longer the row's. */
  predicate Overtaken(f: Funding, s: State, e: Event) {
    && e.Work? && e.act.Reserve? && PhaseOf(s, e.w).Claimed? && !f.Usdt?
    && !OwnsLease(s.db, PhaseOf(s, e.w).meta)
  }

  predicate Undisturbed(f: Funding, s: State, es: seq<Event>)
    decreases |es|
  {
    es == [] || (!Resets(s, es[0]) && !Overtaken(f, s, es[0]) && Undisturbed(f, Step(f, s, es[0]), es[1..]))
  }

  /** The row keeps out claims before `until`. */
  predicate Guarded(s: State, until: int) {
    s.present && (Settled(s) || (s.db.row.status.Processing? && until <= s.db.row.initiatedAt + LEASE_MS))
  }

  lemma StepKeepsGuard(f: Funding, s: State, e: Event, until: int)
    requires Guarded(s, until) && !Resets(s, e) && !Overtaken(f, s, e)
    ensures Proceeds(s, e) ==> until <= e.act.now
    ensures Guarded(Step(f, s, e), if Proceeds(s, e) then e.act.now + LEASE_MS else until)
  {}

  lemma {:induction false} ClaimsFrom(f: Funding, s: State, es: seq<Event>, until: int)
    requires Guarded(s, until) && Undisturbed(f, s, es)
    ensures var ts := ClaimTimes(f, s, es); Spaced(ts, LEASE_MS) && (ts != [] ==> until <= ts[0])
    decreases |es|
  {
    if es != [] {
      StepKeepsGuard(f, s, es[0], until);
      ClaimsFrom(f, Step(f, s, es[0]), es[1..], if Proceeds(s, es[0]) then es[0].act.now + LEASE_MS else until);
    }
  }

  /** Claims that go ahead are at least 15 minutes apart while no failure or cancellation is
      recorded and no overtaken worker rewrites the row, even if workers outlive their leases
      or die and the clocks they read are stale. */
  lemma {:induction false} ClaimsSpaced(f: Funding, s: State, es: seq<Event>)
    requires Undisturbed(f, s, es)
    ensures Spaced(ClaimTimes(f, s, es), LEASE_MS)
    decreases |es|
  {
    if es != [] {
      if Proceeds(s, es[0]) {
        ClaimsFrom(f, Step(f, s, es[0]), es[1..], es[0].act.now + LEASE_MS);
      } else {
        ClaimsSpaced(f, Step(f, s, es[0]), es[1..]);
      }
    }
  }

  // ---------------------------------------------------------------- leases that are overrun

  lemma RunCons(f: Funding, s: State, e: Event, es: seq<Event>)
    ensures Run(f, s, [e] + es) == Run(f, Step(f, s, e), es)
    ensures ClaimTimes(f, s, [e] + es)
         == (if Proceeds(s, e) then [e.act.now] else []) + ClaimTimes(f, Step(f, s, e), es)
  {
    assert ([e] + es)[1..] == es;
  }

  function StateOf(db: Db, present: bool, workers: map<WorkerId, Phase>): State {
    State(db, present, false, workers, map[], History(0, 0, 0, 0, None))
  }

  function StartOf(present: bool): State {
    StateOf(Db(NewRow(), Pot(10, 0), Pot(10, 0), 0, 0, 0), present, map[])
  }

  /** Worker 1 claims at 0, worker 2 after the lease has run out; neither has acted yet. */
  function TwoClaims(): seq<Event> {
    [Work(0, 1, Lookup)] + ([Work(0, 1, Claim(0))]
      + ([Work(LEASE_MS, 2, Lookup)] + ([Work(LEASE_MS, 2, Claim(LEASE_MS))] + [])))
  }

  function AfterTwoClaims(): State {
    var m1, m2 := Meta(Processing, 0, NotReserved, false), Meta(Processing, LEASE_MS, NotReserved, false);
    StateOf(StartOf(true).db.(row := m2), true, map[1 := Claimed(m1), 2 := Claimed(m2)])
  }

  function BetweenClaims(k: nat): State {
    var m1 := Meta(Processing, 0, NotReserved, false);
    var db := StartOf(true).db;
    if k == 1 then StateOf(db, true, map[1 := Ready])
    else if k == 2 then StateOf(db.(row := m1), true, map[1 := Claimed(m1)])
    else StateOf(db.(row := m1), true, map[1 := Claimed(m1), 2 := Ready])
  }

  lemma TwoClaimsSteps(f: Funding)
    ensures Step(f, StartOf(true), Work(0, 1, Lookup)) == BetweenClaims(1)
    ensures Step(f, BetweenClaims(1), Work(0, 1, Claim(0))) == BetweenClaims(2)
    ensures Step(f, BetweenClaims(2), Work(LEASE_MS, 2, Lookup)) == BetweenClaims(3)
    ensures Step(f, BetweenClaims(3), Work(LEASE_MS, 2, Claim(LEASE_MS))) == AfterTwoClaims()
    ensures Proceeds(BetweenClaims(1), Work(0, 1, Claim(0)))
    ensures Proceeds(BetweenClaims(3), Work(LEASE_MS, 2, Claim(LEASE_MS)))
  {}

  lemma TwoClaimsRun(f: Funding, rest: seq<Event>)
    ensures Run(f, StartOf(true), TwoClaims() + rest) == Run(f, AfterTwoClaims(), rest)
    ensures ClaimTimes(f, StartOf(true), TwoClaims() + rest)
         == [0, LEASE_MS] + ClaimTimes(f, AfterTwoClaims(), rest)
  {
    TwoClaimsSteps(f);
    hide Step, StartOf, BetweenClaims, AfterTwoClaims, Run, ClaimTimes;
    var e1, e2 := Work(0, 1, Lookup), Work(0, 1, Claim(0));
    var e3, e4 := Work(LEASE_MS, 2, Lookup), Work(LEASE_MS, 2, Claim(LEASE_MS));
    assert TwoClaims() + rest == [e1] + ([e2] + ([e3] + ([e4] + rest)));
    RunCons(f, StartOf(true), e1, [e2] + ([e3] + ([e4] + rest)));
    RunCons(f, BetweenClaims(1), e2, [e3] + ([e4] + rest));
    RunCons(f, BetweenClaims(2), e3, [e4] + rest);
    RunCons(f, BetweenClaims(3), e4, rest);
  }

  /** A worker that outlives its lease can debit a second time. */
  lemma OverrunDebitsTwice()
    ensures exists s: State, es: seq<Event> :: Initial(s) && Run(Usdt, s, es).db.debits == 2
  {
    var d1, d2 := Work(LEASE_MS, 2, Debit), Work(LEASE_MS, 1, Debit);
    TwoClaimsRun(Usdt, [d1] + ([d2] + []));
    RunCons(Usdt, AfterTwoClaims(), d1, [d2] + []);
    RunCons(Usdt, Step(Usdt, AfterTwoClaims(), d1), d2, []);
    assert Initial(StartOf(true));
  }

  lemma TwoClaimsReachable(f: Funding)
    ensures Initial(StartOf(true)) && Run(f, StartOf(true), TwoClaims()) == AfterTwoClaims()
  {
    TwoClaimsRun(f, []);
    assert TwoClaims() + [] == TwoClaims();
  }

  /** The late reservation of worker 1 winds the row's lease back: one minute into the lease of
      worker 2, with no failure recorded, the row no longer keeps out a third claim. */
  lemma OverrunReopensLease()
    ensures var f, t, late := Swap(1, 0), AfterTwoClaims(), LEASE_MS + 60_000;
      && Initial(StartOf(true)) && Run(f, StartOf(true), TwoClaims()) == t
      && Overtaken(f, t, Work(late, 1, Reserve(1)))
      && Blocks(t.db.row, late)
      && !Blocks(Step(f, t, Work(late, 1, Reserve(1))).db.row, late)
  {
    hide Run, TwoClaims;
    TwoClaimsReachable(Swap(1, 0));
  }
}
