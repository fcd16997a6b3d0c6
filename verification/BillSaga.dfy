/** The confirmation of a bill payment: one transaction reserves the user's USDT and the
    company's naira, the sell order goes to the exchange, and one of three continuations
    follows.  Other activity on the balances, and the death of the process, may come between. */
module BillSaga {
  import opened Wrappers
  import opened Pots

  /** `total` is the quote's totalMinor, `fiat` the bill in kobo. */
  datatype Terms = Terms(total: nat, fiat: nat)

  datatype BillingStatus = PendingOrder | Processing | FailedOrderSubmit | ReferencePersistFailed

  /** The transaction row: its billing status and whether its reservation says RESERVED
      (otherwise RELEASED). */
  datatype Row = Row(billing: BillingStatus, reserved: bool)

  /** What the exchange's client gave back: an exception, or a response with a status and
      perhaps without data. */
  datatype Reply = Threw | Response(status: string, hasData: bool)

  /** The order as placed: whether the exchange accepted it, and what its client gave back. */
  datatype Order = Order(accepted: bool, reply: Reply)

  /** The response passes the test of its status, and reading its data does not throw. */
  predicate Acknowledges(reply: Reply) {
    reply.Response? && reply.status == "success" && reply.hasData
  }

  datatype Phase =
    | Started
    | Ordering
    | Persisting
    | ClosingQuote
    | Catching
    | Returned
    | Reconciling
    | Thrown
    | Dead

  /** `heldUser` and `heldCompany` are history: what this confirmation reserved and did not
      release.  So are the order that was placed and whether the catch block's transaction went
      through (`caught`).  `acknowledged` is the flag quidaxOrderAccepted. */
  datatype State = State(
    phase: Phase,
    row: Option<Row>,
    user: Pot,
    company: Pot,
    heldUser: int,
    heldCompany: int,
    placed: Option<Order>,
    acknowledged: bool,
    caught: bool,
    quoteStored: bool
  )

  datatype Event =
    | ReserveBoth
    | PlaceOrder(order: Order)
    | PersistReference(ok: bool)
    | DeleteQuote(ok: bool)
    | Compensate(ok: bool)
    | Crash
    | Others(user: Pot, company: Pot)

  function ReserveStep(t: Terms, s: State): State {
    var user, company := ReservePot(s.user, t.total), ReservePot(s.company, t.fiat);
    if user.None? || company.None? then s.(phase := Thrown)
    else s.(
      phase := Ordering,
      row := Some(Row(PendingOrder, true)),
      user := user.value,
      company := company.value,
      heldUser := s.heldUser + t.total,
      heldCompany := s.heldCompany + t.fiat)
  }

  function OrderStep(s: State, order: Order): State {
    var placed := s.(placed := Some(order));
    if order.reply.Threw? then placed.(phase := Catching)
    else if order.reply.status != "success" then placed.(phase := Catching)
    else if !order.reply.hasData then placed.(phase := Catching)
    else placed.(phase := Persisting, acknowledged := true)
  }

  /** Both releases of the catch block; one that fails is swallowed. */
  function ReleaseBothOf(s: State, t: Terms): State {
    var (user, ofUser) := ReleaseOrKeep(s.user, t.total);
    var (company, ofCompany) := ReleaseOrKeep(s.company, t.fiat);
    s.(user := user, company := company,
       heldUser := s.heldUser - ofUser, heldCompany := s.heldCompany - ofCompany)
  }

  /** The catch block: reconciliation once the order was acknowledged, otherwise the release. */
  function CompensateStep(t: Terms, s: State): State
    requires s.row.Some?
  {
    if s.acknowledged
    then s.(phase := Reconciling, caught := true, row := Some(s.row.value.(billing := ReferencePersistFailed)))
    else ReleaseBothOf(s, t).(phase := Thrown, caught := true, row := Some(Row(FailedOrderSubmit, false)))
  }

  predicate HasEnded(p: Phase) {
    p.Returned? || p.Thrown? || p.Dead?
  }

  function Step(t: Terms, s: State, e: Event): State {
    match e
    case ReserveBoth => if s.phase.Started? then ReserveStep(t, s) else s
    case PlaceOrder(order) => if s.phase.Ordering? then OrderStep(s, order) else s
    case PersistReference(ok) =>
      if !s.phase.Persisting? || s.row.None? then s
      else if ok then s.(phase := ClosingQuote, row := Some(s.row.value.(billing := Processing)))
      else s.(phase := Catching)
    case DeleteQuote(ok) =>
      if s.phase.ClosingQuote?
      then (if ok then s.(phase := Returned, quoteStored := false) else s.(phase := Catching))
      else if s.phase.Reconciling?
      then (if ok then s.(phase := Returned, quoteStored := false) else s.(phase := Thrown))
      else s
    case Compensate(ok) =>
      if !s.phase.Catching? || s.row.None? then s
      else if ok then CompensateStep(t, s)
      else s.(phase := Thrown)
    case Crash => if HasEnded(s.phase) then s else s.(phase := Dead)
    case Others(user, company) =>
      if s.heldUser <= user.reserved && s.heldCompany <= company.reserved
      then s.(user := user, company := company)
      else s
  }

  function Run(t: Terms, s: State, es: seq<Event>): State
    decreases |es|
  {
    if es == [] then s else Run(t, Step(t, s, es[0]), es[1..])
  }

  predicate Initial(s: State) {
    && s.phase.Started? && s.row.None? && s.heldUser == 0 && s.heldCompany == 0
    && 0 <= s.user.reserved && 0 <= s.company.reserved && s.placed.None? && !s.acknowledged && !s.caught
    && s.quoteStored
  }

  /** Both reservations are held while the row says RESERVED, and both are gone otherwise. */
  predicate Books(t: Terms, s: State) {
    if s.row.Some? && s.row.value.reserved
    then s.heldUser == t.total && s.heldCompany == t.fiat
    else s.heldUser == 0 && s.heldCompany == 0
  }

  predicate InProgress(p: Phase) {
    p.Ordering? || p.Persisting? || p.ClosingQuote? || p.Catching? || p.Reconciling?
  }

  predicate Accepted(s: State) {
    s.placed.Some? && s.placed.value.accepted
  }

  predicate IsReleased(s: State) {
    s.row.Some? && !s.row.value.reserved
  }

  /** What the phase says of the row, the order and the flags. */
  predicate Flags(s: State) {
    && (s.phase.Started? ==> s.row.None?)
    && (s.phase.Started? || s.phase.Ordering? ==> s.placed.None?)
    && (InProgress(s.phase) ==> s.row.Some? && s.row.value.reserved)
    && (s.phase.Persisting? || s.phase.ClosingQuote? || s.phase.Catching? ==> s.placed.Some? && !s.caught)
    && (s.phase.Persisting? || s.phase.ClosingQuote? || s.phase.Reconciling? || s.phase.Returned? ==> s.acknowledged)
    && (s.acknowledged <==> s.placed.Some? && Acknowledges(s.placed.value.reply))
    && (s.caught ==> s.placed.Some?) && (s.phase.Reconciling? ==> s.caught)
    && (IsReleased(s) <==> s.caught && !s.acknowledged)
    && (s.quoteStored <==> !s.phase.Returned?)
  }

  predicate Inv(t: Terms, s: State) {
    && Books(t, s)
    && 0 <= s.heldUser <= s.user.reserved && 0 <= s.heldCompany <= s.company.reserved
    && Flags(s)
  }

  lemma StepKeepsFlags(t: Terms, s: State, e: Event)
    requires Flags(s)
    ensures var n := Step(t, s, e);
      Flags(n) && (s.acknowledged ==> n.acknowledged) && (HasEnded(s.phase) ==> HasEnded(n.phase))
      && (HasEnded(s.phase) && !s.acknowledged ==> !n.acknowledged)
  {
    hide ReleaseOrKeep;
  }

  lemma StepKeepsInv(t: Terms, s: State, e: Event)
    requires Inv(t, s)
    ensures Inv(t, Step(t, s, e))
    ensures s.acknowledged ==> Step(t, s, e).acknowledged
  {}

  /** In every state after the first transaction, whatever failed and wherever the process
      stopped, the two reservations are both held when the row says RESERVED and both gone when
      it says RELEASED; an order that was acknowledged is never released. */
  lemma {:induction false} ReservationsStandTogether(t: Terms, s: State, es: seq<Event>)
    requires Inv(t, s)
    ensures Inv(t, Run(t, s, es))
    ensures s.acknowledged ==> Run(t, s, es).acknowledged
    decreases |es|
  {
    if es != [] {
      StepKeepsInv(t, s, es[0]);
      ReservationsStandTogether(t, Step(t, s, es[0]), es[1..]);
    }
  }

  predicate BothSolvent(s: State) {
    Solvent(s.user) && Solvent(s.company)
  }

  /** Whatever else happens to the balances leaves no more reserved than there is. */
  predicate OthersSolvent(es: seq<Event>) {
    forall i :: 0 <= i < |es| && es[i].Others? ==> Solvent(es[i].user) && Solvent(es[i].company)
  }

  /** A confirmation never reserves more than a balance has free, in any run. */
  lemma {:induction false} NeverOverdrawn(t: Terms, s: State, es: seq<Event>)
    requires BothSolvent(s) && OthersSolvent(es)
    ensures BothSolvent(Run(t, s, es))
    decreases |es|
  {
    if es != [] {
      StepKeepsSolvent(t, s, es[0]);
      hide BothSolvent, Step;
      NeverOverdrawn(t, Step(t, s, es[0]), es[1..]);
    }
  }

  lemma StepKeepsSolvent(t: Terms, s: State, e: Event)
    requires BothSolvent(s) && (e.Others? ==> Solvent(e.user) && Solvent(e.company))
    ensures BothSolvent(Step(t, s, e))
  {}

  /** The first transaction goes through if and only if both balances have the amount free, and then
      exactly the amounts are reserved; otherwise it changes no balance. */
  lemma ReservesIff(t: Terms, s: State)
    requires s.phase.Started?
    ensures var n := Step(t, s, ReserveBoth);
      && (n.phase.Ordering? <==>
            s.user.total - s.user.reserved >= t.total && s.company.total - s.company.reserved >= t.fiat)
      && (n.phase.Ordering? ==>
            && n.user == Pot(s.user.total, s.user.reserved + t.total)
            && n.company == Pot(s.company.total, s.company.reserved + t.fiat)
            && n.row == Some(Row(PendingOrder, true)))
      && (!n.phase.Ordering? ==> n == s.(phase := Thrown))
  {}

  /** Over every run, the reservations are released if and only if the catch block went through
      after an order whose reply threw, had another status than success, or had no data. */
  lemma ReleasedIff(t: Terms, s: State, es: seq<Event>)
    requires Initial(s)
    ensures var r := Run(t, s, es);
      IsReleased(r) <==> r.caught && r.placed.Some? && var reply := r.placed.value.reply;
        reply.Threw? || reply.status != "success" || !reply.hasData
  {
    ReservationsStandTogether(t, s, es);
    hide Run;
  }

  /** So they are released although the exchange accepted the order if and only if, besides, the
      reply to an accepted order threw, had another status than success, or had no data. */
  lemma ReleasedAfterAcceptanceIff(t: Terms, s: State, es: seq<Event>)
    requires Initial(s)
    ensures var r := Run(t, s, es);
      IsReleased(r) && Accepted(r) <==>
        r.caught && r.placed.Some? && r.placed.value.accepted && !Acknowledges(r.placed.value.reply)
  {
    ReleasedIff(t, s, es);
    hide Run;
  }

  /** The events report every acceptance of the exchange. */
  predicate Reported(es: seq<Event>) {
    forall i :: 0 <= i < |es| && es[i].PlaceOrder? && es[i].order.accepted ==> Acknowledges(es[i].order.reply)
  }

  lemma {:induction false} PlacedIsReported(t: Terms, s: State, es: seq<Event>)
    requires Reported(es) && (Accepted(s) ==> Acknowledges(s.placed.value.reply))
    ensures var r := Run(t, s, es); Accepted(r) ==> Acknowledges(r.placed.value.reply)
    decreases |es|
  {
    if es != [] { PlacedIsReported(t, Step(t, s, es[0]), es[1..]); }
  }

  /** A reservation is never released once the exchange accepted the order, as long as every
      acceptance is reported by a reply with status success and data. */
  lemma NoReleaseAfterAcceptance(t: Terms, s: State, es: seq<Event>)
    requires Initial(s) && Reported(es)
    ensures var r := Run(t, s, es);
      Accepted(r) ==> r.row.Some? && r.row.value.reserved && r.heldUser == t.total && r.heldCompany == t.fiat
  {
    ReservationsStandTogether(t, s, es);
    PlacedIsReported(t, s, es);
    RowIsThere(t, s, es);
  }

  lemma {:induction false} RowIsThere(t: Terms, s: State, es: seq<Event>)
    requires Inv(t, s) && (s.placed.Some? ==> s.row.Some?)
    ensures var r := Run(t, s, es); r.placed.Some? ==> r.row.Some?
    decreases |es|
  {
    if es != [] {
      StepKeepsInv(t, s, es[0]);
      RowIsThere(t, Step(t, s, es[0]), es[1..]);
    }
  }

  /** The transaction of the catch block gives both reservations back exactly, unless the order was
      acknowledged; then it keeps both. */
  lemma CatchIsExact(t: Terms, s: State)
    requires Inv(t, s) && s.phase.Catching?
    ensures var r := CompensateStep(t, s);
      if Acknowledges(s.placed.value.reply)
      then r.user == s.user && r.company == s.company && r.row.value.reserved
      else r.user == s.user.(reserved := s.user.reserved - t.total)
           && r.company == s.company.(reserved := s.company.reserved - t.fiat) && !r.row.value.reserved
  {}
}
