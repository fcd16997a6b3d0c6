/** The ledger behind autostack savings that are funded from a USDT wallet: wallets,
    stacks and the company's USDT liquidity row, changed by whole database transactions.
    A stack is identified by its position in the stack table. */
module AutoStackLedger {
  import opened Wrappers
  import opened Calendar
  import opened Spacing

  type UserId = string

  datatype StackStatus = Pending | Active | Ended

  datatype Stack = Stack(
    user: UserId,
    frequency: Frequency,
    status: StackStatus,
    amount: nat,
    accrued: nat,
    nextExecutionAt: int,
    nextInterestAt: int
  )

  /** `base`, `reserved`, `stacked` and `interest` are the columns baseBalance,
      reservedBalance, stackedAmount and totalStackedInterest of a USDT wallet. */
  datatype Wallet = Wallet(base: int, reserved: int, stacked: int, interest: int)

  /** totalAmountStacked, totalAccruedLockedInterest and totalLockedInterestPaid. */
  datatype Company = Company(stacked: int, accrued: int, paid: int)

  datatype Ledger = Ledger(wallets: map<UserId, Wallet>, stacks: seq<Stack>, company: Company)

  datatype LedgerError =
    | StackNotFound
    | InvalidPin
    | WalletNotFound
    | InsufficientBalance
    | ReservedInconsistency

  /** One database transaction.  `centiRate` is the daily interest rate in hundredths of a percent. */
  datatype Op =
    | Confirm(user: UserId, frequency: Frequency, principal: nat, startAt: int)
    | Execute(id: nat, source: nat, fee: nat, force: bool)
    | Accrue(id: nat, centiRate: nat)
    | CancelPending(user: UserId, id: nat)
    | Unlock(user: UserId, id: nat, pinOk: bool)
    | ReserveBalance(user: UserId, sum: nat)
    | ReleaseBalance(user: UserId, sum: nat)

  datatype Event = At(now: int, op: Op)

  // ---------------------------------------------------------------- arithmetic

  /** The integer nearest to `n / d`, halves away from zero. */
  function RoundHalfUp(n: nat, d: nat): (r: nat)
    requires d > 0
    ensures 2 * r * d - d <= 2 * n < 2 * r * d + d
  {
    var r := (2 * n + d) / (2 * d);
    assert 2 * d * r <= 2 * n + d < 2 * d * r + 2 * d;
    r
  }

  function Interest(principal: nat, centiRate: nat, days: nat): (r: nat)
    ensures 20_000 * r - 10_000 <= 2 * (principal * centiRate * days) < 20_000 * r + 10_000
  {
    RoundHalfUp(principal * centiRate * days, 10_000)
  }

  /** Five percent, rounded down. */
  function Penalty(principal: nat): (p: nat)
    ensures p <= principal && 20 * p <= principal < 20 * p + 20
  {
    principal * 5 / 100
  }

  // ---------------------------------------------------------------- transactions

  predicate Open(l: Ledger, id: nat) {
    id < |l.stacks| && !l.stacks[id].status.Ended?
  }

  /** A charge of the stack reaches its database transaction. */
  predicate Charges(l: Ledger, id: nat, force: bool, now: int) {
    Open(l, id) && (force || Due(l.stacks[id].nextExecutionAt, now))
  }

  predicate Accrues(l: Ledger, id: nat, now: int) {
    && Charges(l, id, false, now)
    && l.stacks[id].status.Active?
    && l.stacks[id].nextInterestAt <= now
  }

  predicate Owns(l: Ledger, user: UserId, id: nat, status: StackStatus) {
    id < |l.stacks| && l.stacks[id].user == user && l.stacks[id].status == status
  }

  /** The transaction of a debit that takes the stack for PENDING or not. */
  function ExecuteCommit(l: Ledger, id: nat, initial: bool, source: nat, fee: nat, now: int): Ledger
    requires id < |l.stacks| && l.stacks[id].user in l.wallets
  {
    var s := l.stacks[id];
    var w := l.wallets[s.user];
    var s' := s.(
      amount := if initial then source else s.amount + source,
      status := Active,
      nextExecutionAt := NextExecution(s.frequency, now),
      nextInterestAt := NextInterest(s.frequency, now));
    Ledger(
      l.wallets[s.user := w.(base := w.base - (source + fee), stacked := w.stacked + source)],
      l.stacks[id := s'],
      l.company.(stacked := l.company.stacked + source))
  }

  /** The debit of a charge, on a row and a wallet that exist. */
  function Executed(l: Ledger, id: nat, source: nat, fee: nat, now: int): Ledger
    requires id < |l.stacks| && l.stacks[id].user in l.wallets
  {
    ExecuteCommit(l, id, l.stacks[id].status.Pending?, source, fee, now)
  }

  function ExecuteStep(l: Ledger, id: nat, source: nat, fee: nat, force: bool, now: int): Result<Ledger, LedgerError> {
    if !Charges(l, id, force, now) then Success(l)
    else if l.stacks[id].user !in l.wallets then Failure(WalletNotFound)
    else
      var w := l.wallets[l.stacks[id].user];
      if w.base - w.reserved < source + fee then Failure(InsufficientBalance)
      else Success(Executed(l, id, source, fee, now))
  }

  /** The accrual of the interest of one period on a row. */
  function AccrueCommit(l: Ledger, id: nat, centiRate: nat, now: int): Ledger
    requires id < |l.stacks|
  {
    var s := l.stacks[id];
    var i := Interest(s.amount, centiRate, PeriodDays(s.frequency));
    Ledger(
      if s.user in l.wallets
      then l.wallets[s.user := l.wallets[s.user].(interest := l.wallets[s.user].interest + i)]
      else l.wallets,
      l.stacks[id := s.(accrued := s.accrued + i, nextInterestAt := NextInterest(s.frequency, now))],
      l.company.(accrued := l.company.accrued + i))
  }

  function AccrueStep(l: Ledger, id: nat, centiRate: nat, now: int): Ledger {
    if Accrues(l, id, now) then AccrueCommit(l, id, centiRate, now) else l
  }

  /** The end of a stack row by a cancellation. */
  function CancelCommit(l: Ledger, id: nat): Ledger
    requires id < |l.stacks|
  {
    l.(stacks := l.stacks[id := l.stacks[id].(status := Ended)])
  }

  function AtLeastZero(n: int): nat {
    if n < 0 then 0 else n
  }

  predicate Early(s: Stack, now: int) {
    now < s.nextInterestAt
  }

  function InterestPaid(s: Stack, now: int): nat {
    if Early(s, now) then 0 else s.accrued
  }

  function Payout(s: Stack, now: int): nat {
    if Early(s, now) then s.amount - Penalty(s.amount) else s.amount + s.accrued
  }

  /** The transaction of an unlock, on the stack row `s` that was read before it opened. */
  function UnlockCommit(l: Ledger, user: UserId, id: nat, s: Stack, now: int): Result<Ledger, LedgerError>
    requires id < |l.stacks|
  {
    if user !in l.wallets then Failure(WalletNotFound)
    else
      var w := l.wallets[user];
      Success(Ledger(
        l.wallets[user := w.(
          base := w.base + Payout(s, now),
          stacked := AtLeastZero(w.stacked - s.amount),
          interest := AtLeastZero(w.interest - s.accrued))],
        l.stacks[id := l.stacks[id].(status := Ended)],
        Company(
          AtLeastZero(l.company.stacked - s.amount),
          AtLeastZero(l.company.accrued - s.accrued),
          l.company.paid + InterestPaid(s, now))))
  }

  function UnlockStep(l: Ledger, user: UserId, id: nat, pinOk: bool, now: int): Result<Ledger, LedgerError> {
    if !Owns(l, user, id, Active) then Failure(StackNotFound)
    else if !pinOk then Failure(InvalidPin)
    else UnlockCommit(l, user, id, l.stacks[id], now)
  }

  function Step(l: Ledger, e: Event): Result<Ledger, LedgerError> {
    match e.op
    case Confirm(user, frequency, principal, startAt) =>
      Success(l.(stacks := l.stacks + [Stack(user, frequency, Pending, principal, 0, startAt, startAt)]))
    case Execute(id, source, fee, force) =>
      ExecuteStep(l, id, source, fee, force, e.now)
    case Accrue(id, centiRate) =>
      Success(AccrueStep(l, id, centiRate, e.now))
    case CancelPending(user, id) =>
      if Owns(l, user, id, Pending)
      then Success(CancelCommit(l, id))
      else Failure(StackNotFound)
    case Unlock(user, id, pinOk) =>
      UnlockStep(l, user, id, pinOk, e.now)
    case ReserveBalance(user, sum) =>
      if user !in l.wallets then Failure(WalletNotFound)
      else
        var w := l.wallets[user];
        if w.base - w.reserved < sum then Failure(InsufficientBalance)
        else Success(l.(wallets := l.wallets[user := w.(reserved := w.reserved + sum)]))
    case ReleaseBalance(user, sum) =>
      if user !in l.wallets then Failure(WalletNotFound)
      else
        var w := l.wallets[user];
        if w.reserved < sum then Failure(ReservedInconsistency)
        else Success(l.(wallets := l.wallets[user := w.(reserved := w.reserved - sum)]))
  }

  /** A transaction that fails is rolled back. */
  function Apply(l: Ledger, e: Event): Ledger {
    match Step(l, e)
    case Success(l') => l'
    case Failure(_) => l
  }

  function Run(l: Ledger, es: seq<Event>): Ledger
    decreases |es|
  {
    if es == [] then l else Run(Apply(l, es[0]), es[1..])
  }

  // ---------------------------------------------------------------- sums over stacks

  datatype Quantity = PrincipalOf(user: UserId) | InterestOf(user: UserId) | AllPrincipal | AllInterest

  function Weight(q: Quantity, s: Stack): nat {
    if !s.status.Active? then 0
    else
      match q
      case PrincipalOf(user) => if s.user == user then s.amount else 0
      case InterestOf(user) => if s.user == user then s.accrued else 0
      case AllPrincipal => s.amount
      case AllInterest => s.accrued
  }

  /** The quantity summed over all ACTIVE stacks. */
  function Total(q: Quantity, stacks: seq<Stack>): nat {
    if stacks == [] then 0 else Total(q, stacks[..|stacks| - 1]) + Weight(q, stacks[|stacks| - 1])
  }

  lemma {:induction false} TotalUpdate(q: Quantity, stacks: seq<Stack>, i: nat, s: Stack)
    requires i < |stacks|
    ensures Total(q, stacks[i := s]) == Total(q, stacks) - Weight(q, stacks[i]) + Weight(q, s)
  {
    var n := |stacks| - 1;
    if i < n {
      assert stacks[i := s][..n] == stacks[..n][i := s];
      TotalUpdate(q, stacks[..n], i, s);
    } else {
      assert stacks[i := s][..n] == stacks[..n];
    }
  }

  lemma {:induction false} TotalCovers(q: Quantity, stacks: seq<Stack>, i: nat)
    requires i < |stacks|
    ensures Weight(q, stacks[i]) <= Total(q, stacks)
  {
    var n := |stacks| - 1;
    if i < n { TotalCovers(q, stacks[..n], i); }
  }

  lemma TotalsUpdate(stacks: seq<Stack>, i: nat, s: Stack)
    requires i < |stacks|
    ensures forall q :: Total(q, stacks[i := s]) == Total(q, stacks) - Weight(q, stacks[i]) + Weight(q, s)
  {
    forall q ensures Total(q, stacks[i := s]) == Total(q, stacks) - Weight(q, stacks[i]) + Weight(q, s) {
      TotalUpdate(q, stacks, i, s);
    }
  }

  lemma TotalsAppend(stacks: seq<Stack>, s: Stack)
    ensures forall q :: Total(q, stacks + [s]) == Total(q, stacks) + Weight(q, s)
  {
    assert (stacks + [s])[..|stacks|] == stacks;
  }

  // ---------------------------------------------------------------- the invariant

  ghost predicate WalletSums(l: Ledger) {
    forall u :: u in l.wallets ==>
      && l.wallets[u].stacked == Total(PrincipalOf(u), l.stacks)
      && l.wallets[u].interest == Total(InterestOf(u), l.stacks)
  }

  ghost predicate CompanySums(l: Ledger) {
    && l.company.stacked == Total(AllPrincipal, l.stacks)
    && l.company.accrued == Total(AllInterest, l.stacks)
  }

  ghost predicate Available(l: Ledger) {
    forall u :: u in l.wallets ==> 0 <= l.wallets[u].reserved <= l.wallets[u].base
  }

  ghost predicate StackRows(l: Ledger) {
    forall i :: 0 <= i < |l.stacks| ==>
      && (l.stacks[i].status.Pending? ==> l.stacks[i].accrued == 0)
      && (l.stacks[i].status.Active? ==> l.stacks[i].user in l.wallets)
  }

  ghost predicate Inv(l: Ledger) {
    WalletSums(l) && CompanySums(l) && Available(l) && StackRows(l)
  }

  /** What an unlock removes is covered by every counter it is removed from. */
  lemma ClampsNeverBite(l: Ledger, id: nat)
    requires Inv(l) && id < |l.stacks| && l.stacks[id].status.Active?
    ensures var s := l.stacks[id];
      && s.user in l.wallets
      && s.amount <= l.wallets[s.user].stacked && s.accrued <= l.wallets[s.user].interest
      && s.amount <= l.company.stacked && s.accrued <= l.company.accrued
  {
    var u := l.stacks[id].user;
    TotalCovers(PrincipalOf(u), l.stacks, id);
    TotalCovers(InterestOf(u), l.stacks, id);
    TotalCovers(AllPrincipal, l.stacks, id);
    TotalCovers(AllInterest, l.stacks, id);
  }

  /** A step that rewrites one stack row keeps the invariant when wallet and company
      counters move by exactly what the row's weights move by. */
  lemma RowUpdateKeepsInv(l: Ledger, l': Ledger, id: nat, u: UserId)
    requires Inv(l) && id < |l.stacks| && l.stacks[id].user == u
    requires |l'.stacks| == |l.stacks| && l'.stacks == l.stacks[id := l'.stacks[id]]
    requires l'.stacks[id].user == u
    requires l'.stacks[id].status.Pending? ==> l'.stacks[id].accrued == 0
    requires l'.stacks[id].status.Active? ==> u in l.wallets
    requires forall v :: v in l'.wallets <==> v in l.wallets
    requires forall v :: v in l.wallets && v != u ==> l'.wallets[v] == l.wallets[v]
    requires u in l.wallets ==>
      && 0 <= l'.wallets[u].reserved <= l'.wallets[u].base
      && l'.wallets[u].stacked == l.wallets[u].stacked
           - Weight(PrincipalOf(u), l.stacks[id]) + Weight(PrincipalOf(u), l'.stacks[id])
      && l'.wallets[u].interest == l.wallets[u].interest
           - Weight(InterestOf(u), l.stacks[id]) + Weight(InterestOf(u), l'.stacks[id])
    requires l'.company.stacked == l.company.stacked
      - Weight(AllPrincipal, l.stacks[id]) + Weight(AllPrincipal, l'.stacks[id])
    requires l'.company.accrued == l.company.accrued
      - Weight(AllInterest, l.stacks[id]) + Weight(AllInterest, l'.stacks[id])
    ensures Inv(l')
  {
    TotalsUpdate(l.stacks, id, l'.stacks[id]);
  }

  lemma ConfirmKeepsInv(l: Ledger, s: Stack)
    requires Inv(l) && s.status.Pending? && s.accrued == 0
    ensures Inv(l.(stacks := l.stacks + [s]))
  {
    TotalsAppend(l.stacks, s);
  }

  lemma ExecuteKeepsInv(l: Ledger, id: nat, source: nat, fee: nat, force: bool, now: int)
    requires Inv(l)
    ensures var r := ExecuteStep(l, id, source, fee, force, now); r.Success? ==> Inv(r.value)
  {
    var r := ExecuteStep(l, id, source, fee, force, now);
    if r.Success? && r.value != l {
      RowUpdateKeepsInv(l, r.value, id, l.stacks[id].user);
    }
  }

  lemma AccrueKeepsInv(l: Ledger, id: nat, centiRate: nat, now: int)
    requires Inv(l)
    ensures Inv(AccrueStep(l, id, centiRate, now))
  {
    var l' := AccrueStep(l, id, centiRate, now);
    if l' != l { RowUpdateKeepsInv(l, l', id, l.stacks[id].user); }
  }

  lemma UnlockKeepsInv(l: Ledger, user: UserId, id: nat, pinOk: bool, now: int)
    requires Inv(l)
    ensures var r := UnlockStep(l, user, id, pinOk, now); r.Success? ==> Inv(r.value)
  {
    var r := UnlockStep(l, user, id, pinOk, now);
    if r.Success? {
      ClampsNeverBite(l, id);
      RowUpdateKeepsInv(l, r.value, id, user);
    }
  }

  lemma StepKeepsInv(l: Ledger, e: Event)
    requires Inv(l)
    ensures Inv(Apply(l, e))
  {
    match e.op
    case Confirm(user, frequency, principal, startAt) =>
      ConfirmKeepsInv(l, Stack(user, frequency, Pending, principal, 0, startAt, startAt));
    case Execute(id, source, fee, force) => ExecuteKeepsInv(l, id, source, fee, force, e.now);
    case Accrue(id, centiRate) => AccrueKeepsInv(l, id, centiRate, e.now);
    case CancelPending(user, id) =>
      var l' := Apply(l, e);
      if l' != l { RowUpdateKeepsInv(l, l', id, user); }
    case Unlock(user, id, pinOk) => UnlockKeepsInv(l, user, id, pinOk, e.now);
    case ReserveBalance(user, sum) =>
    case ReleaseBalance(user, sum) =>
  }

  /** A reservation adds its sum to `reserved` if and only if that much is free, a release takes its
      sum off if and only if that much is reserved; nothing else in the ledger changes. */
  lemma ReservedMovesIff(l: Ledger, user: UserId, sum: nat, now: int)
    requires user in l.wallets
    ensures var w := l.wallets[user];
      && Apply(l, At(now, ReserveBalance(user, sum)))
         == (if w.base - w.reserved >= sum
             then l.(wallets := l.wallets[user := Wallet(w.base, w.reserved + sum, w.stacked, w.interest)]) else l)
      && Apply(l, At(now, ReleaseBalance(user, sum)))
         == (if w.reserved >= sum
             then l.(wallets := l.wallets[user := Wallet(w.base, w.reserved - sum, w.stacked, w.interest)]) else l)
  {}

  /** A charge debits if and only if the stack is not ENDED, it is due or forced, and the wallet has
      amount and fee free; then the fee goes, the amount is stacked, and both dates are set from now. */
  lemma DebitIff(l: Ledger, id: nat, source: nat, fee: nat, force: bool, now: int)
    requires id < |l.stacks| && l.stacks[id].user in l.wallets
    ensures var s := l.stacks[id];
      var w := l.wallets[s.user];
      Apply(l, At(now, Execute(id, source, fee, force)))
      == if !s.status.Ended? && (force || s.nextExecutionAt <= now) && w.base - w.reserved >= source + fee
         then Ledger(
           l.wallets[s.user := Wallet(w.base - source - fee, w.reserved, w.stacked + source, w.interest)],
           l.stacks[id := Stack(s.user, s.frequency, Active, if s.status.Pending? then source else s.amount + source,
                                s.accrued, NextExecution(s.frequency, now), NextInterest(s.frequency, now))],
           Company(l.company.stacked + source, l.company.accrued, l.company.paid))
         else l
  {
    hide NextExecution, NextInterest;
  }

  /** A charge accrues interest if and only if the stack is ACTIVE, due, and past its interest date. */
  lemma AccrualIff(l: Ledger, id: nat, centiRate: nat, now: int)
    requires id < |l.stacks| && l.stacks[id].user in l.wallets
    ensures var s := l.stacks[id];
      var w := l.wallets[s.user];
      var i := Interest(s.amount, centiRate, match s.frequency case Daily => 1 case Weekly => 7 case Monthly => 30);
      Apply(l, At(now, Accrue(id, centiRate)))
      == if s.status.Active? && s.nextExecutionAt <= now && s.nextInterestAt <= now
         then Ledger(
           l.wallets[s.user := Wallet(w.base, w.reserved, w.stacked, w.interest + i)],
           l.stacks[id := s.(accrued := s.accrued + i, nextInterestAt := NextInterest(s.frequency, now))],
           Company(l.company.stacked, l.company.accrued + i, l.company.paid))
         else l
  {
    hide NextInterest, Interest;
  }

  /** The owner of an ACTIVE stack, with the right PIN, unlocks it: before its interest date for the
      amount less five percent rounded down, the interest lost; from then on for amount and interest.
      Nobody else, no other stack and no other PIN changes anything. */
  lemma UnlockIff(l: Ledger, user: UserId, id: nat, pinOk: bool, now: int)
    requires Inv(l) && id < |l.stacks|
    ensures var s := l.stacks[id];
      if s.user == user && s.status.Active? && pinOk
      then
        && user in l.wallets
        && var w := l.wallets[user];
        && var (payout, paid) := if now < s.nextInterestAt then (s.amount - s.amount * 5 / 100, 0)
                                 else (s.amount + s.accrued, s.accrued);
        && Apply(l, At(now, Unlock(user, id, pinOk))) == Ledger(
             l.wallets[user := Wallet(w.base + payout, w.reserved, w.stacked - s.amount, w.interest - s.accrued)],
             l.stacks[id := s.(status := Ended)],
             Company(l.company.stacked - s.amount, l.company.accrued - s.accrued, l.company.paid + paid))
      else Apply(l, At(now, Unlock(user, id, pinOk))) == l
  {
    if l.stacks[id].status.Active? { ClampsNeverBite(l, id); }
    hide Inv;
  }

  /** The owner of a PENDING stack ends it by a cancellation, and nobody else. */
  lemma CancelIff(l: Ledger, user: UserId, id: nat, now: int)
    requires id < |l.stacks|
    ensures var s := l.stacks[id];
      Apply(l, At(now, CancelPending(user, id)))
      == if s.user == user && s.status.Pending? then l.(stacks := l.stacks[id := s.(status := Ended)]) else l
  {}

  /** Over every run of whole transactions, wallet and company counters stay the sums over
      ACTIVE stacks, and no wallet reserves more than its balance. */
  lemma {:induction false} RunKeepsInv(l: Ledger, es: seq<Event>)
    requires Inv(l)
    ensures Inv(Run(l, es))
    decreases |es|
  {
    if es != [] {
      StepKeepsInv(l, es[0]);
      RunKeepsInv(Apply(l, es[0]), es[1..]);
    }
  }

  // ---------------------------------------------------------------- transactions that read early

  /** What the row contributes to the sums of its user now. */
  function HeldNow(s: Stack): (nat, nat) {
    (Weight(PrincipalOf(s.user), s), Weight(InterestOf(s.user), s))
  }

  function Min(a: int, b: int): int {
    if a < b then a else b
  }

  lemma SumsOfUnlock(l: Ledger, l': Ledger, user: UserId, id: nat)
    requires Inv(l) && id < |l.stacks| && l.stacks[id].user == user && user in l.wallets
    requires l'.stacks == l.stacks[id := l.stacks[id].(status := Ended)]
    requires forall v :: v in l'.wallets <==> v in l.wallets
    requires forall v :: v in l.wallets && v != user ==> l'.wallets[v] == l.wallets[v]
    ensures WalletSums(l') && CompanySums(l') <==>
      && l'.wallets[user].stacked == l.wallets[user].stacked - HeldNow(l.stacks[id]).0
      && l'.wallets[user].interest == l.wallets[user].interest - HeldNow(l.stacks[id]).1
      && l'.company.stacked == l.company.stacked - HeldNow(l.stacks[id]).0
      && l'.company.accrued == l.company.accrued - HeldNow(l.stacks[id]).1
  {
    TotalsUpdate(l.stacks, id, l'.stacks[id]);
    hide Total, Available, StackRows;
    assert user in l'.wallets;
    if WalletSums(l') {
      assert l'.wallets[user].stacked == Total(PrincipalOf(user), l'.stacks);
    }
  }

  /** Only the four counters decide. */
  lemma StaleUnlockSums(l: Ledger, user: UserId, id: nat, s: Stack, now: int)
    requires Inv(l) && id < |l.stacks| && l.stacks[id].user == user && user in l.wallets
    ensures UnlockCommit(l, user, id, s, now).Success?
    ensures Inv(UnlockCommit(l, user, id, s, now).value) <==>
      && Min(s.amount, l.wallets[user].stacked) == HeldNow(l.stacks[id]).0
      && Min(s.accrued, l.wallets[user].interest) == HeldNow(l.stacks[id]).1
      && Min(s.amount, l.company.stacked) == HeldNow(l.stacks[id]).0
      && Min(s.accrued, l.company.accrued) == HeldNow(l.stacks[id]).1
  {
    var l' := UnlockCommit(l, user, id, s, now).value;
    CountersCover(l, id);
    SumsOfUnlock(l, l', user, id);
    hide WalletSums, CompanySums, Weight, Payout, InterestPaid;
    assert StackRows(l');
    assert Available(l');
  }

  lemma CountersCover(l: Ledger, id: nat)
    requires Inv(l) && id < |l.stacks| && l.stacks[id].user in l.wallets
    ensures var s := l.stacks[id];
      && HeldNow(s).0 <= l.wallets[s.user].stacked && HeldNow(s).1 <= l.wallets[s.user].interest
      && HeldNow(s).0 <= l.company.stacked && HeldNow(s).1 <= l.company.accrued
  {
    if l.stacks[id].status.Active? { ClampsNeverBite(l, id); }
    hide Weight, StackRows, Available;
    assert l.wallets[l.stacks[id].user].stacked >= 0;
  }

  /** An unlock does what it should: the sums hold, the user's value changes by the penalty and
      the interest paid, and the company's accrued interest loses what the unlock read. */
  ghost predicate Settles(l: Ledger, l': Ledger, user: UserId, s: Stack, now: int)
    requires user in l.wallets && user in l'.wallets
  {
    && Inv(l')
    && l'.wallets[user].base + l'.wallets[user].stacked
       == l.wallets[user].base + l.wallets[user].stacked
          - (if Early(s, now) then Penalty(s.amount) else 0) + InterestPaid(s, now)
    && l'.company.accrued == l.company.accrued - s.accrued
  }

  /** `unlock` reads the stack before its transaction opens.  Committing with a row `s` that may be
      out of date settles the stack if and only if `s` has the amount and the accrued interest that
      the row contributes now, which is nothing once it is not ACTIVE. */
  lemma StaleUnlockIsExact(l: Ledger, user: UserId, id: nat, s: Stack, now: int)
    requires Inv(l) && id < |l.stacks| && l.stacks[id].user == user && user in l.wallets
    ensures UnlockCommit(l, user, id, s, now).Success?
    ensures Settles(l, UnlockCommit(l, user, id, s, now).value, user, s, now)
      <==> (s.amount, s.accrued) == HeldNow(l.stacks[id])
  {
    StaleUnlockSums(l, user, id, s, now);
    CountersCover(l, id);
    hide Inv, HeldNow;
  }

  /** Two unlocks that read the same ACTIVE row both pay out, whatever else the ledger holds; the
      second one never settles it, unless the stack is empty. */
  lemma DoubleUnlockPaysTwice(l: Ledger, id: nat, now: int)
    requires Inv(l) && id < |l.stacks| && l.stacks[id].status.Active?
    ensures var s := l.stacks[id];
      && s.user in l.wallets
      && UnlockCommit(l, s.user, id, s, now).Success?
      && var once := UnlockCommit(l, s.user, id, s, now).value;
      && Settles(l, once, s.user, s, now)
      && UnlockCommit(once, s.user, id, s, now).Success?
      && var twice := UnlockCommit(once, s.user, id, s, now).value;
      && twice.wallets[s.user].base == l.wallets[s.user].base + 2 * Payout(s, now)
      && (Settles(once, twice, s.user, s, now) <==> s.amount == 0 && s.accrued == 0)
  {
    var s := l.stacks[id];
    StaleUnlockIsExact(l, s.user, id, s, now);
    var once := UnlockCommit(l, s.user, id, s, now).value;
    StaleUnlockIsExact(once, s.user, id, s, now);
    hide Inv, Payout, InterestPaid, Penalty;
  }

  function OneWallet(user: UserId, base: int): Ledger {
    Ledger(map[user := Wallet(base, 0, 0, 0)], [], Company(0, 0, 0))
  }

  lemma OneWalletInv(user: UserId, base: nat)
    ensures Inv(OneWallet(user, base))
  {}

  function OneStackRun(user: UserId, frequency: Frequency, source: nat, fee: nat, now: int): seq<Event> {
    [At(now, Confirm(user, frequency, source, now))] + ([At(now, Execute(0, source, fee, true))] + [])
  }

  lemma RunCons(l: Ledger, e: Event, es: seq<Event>)
    ensures Run(l, [e] + es) == Run(Apply(l, e), es)
  {
    hide Apply;
    assert ([e] + es)[1..] == es;
  }

  lemma OneStackIsActive(user: UserId, frequency: Frequency, source: nat, fee: nat, now: int)
    ensures var l := Run(OneWallet(user, source + fee), OneStackRun(user, frequency, source, fee, now));
      && Inv(l) && l.wallets == map[user := Wallet(0, 0, source, 0)] && l.company == Company(source, 0, 0)
      && |l.stacks| == 1 && l.stacks[0] == Stack(user, frequency, Active, source, 0,
                                                 NextExecution(frequency, now), NextInterest(frequency, now))
  {
    hide NextExecution, NextInterest;
    var l0 := OneWallet(user, source + fee);
    var e1, e2 := At(now, Confirm(user, frequency, source, now)), At(now, Execute(0, source, fee, true));
    var l1 := l0.(stacks := [Stack(user, frequency, Pending, source, 0, now, now)]);
    OneWalletInv(user, source + fee);
    RunKeepsInv(l0, OneStackRun(user, frequency, source, fee, now));
    RunCons(l0, e1, [e2] + []);
    assert Apply(l0, e1) == l1;
    RunCons(l1, e2, []);
  }

  /** The clamps hide it when the stack is the only one: a run from a wallet that holds just the
      amount and the fee, then two unlocks of the row it made ACTIVE.  Every sum still holds, and
      the user has been paid twice. */
  lemma DoubleUnlockMintsValue(user: UserId, frequency: Frequency, source: nat, fee: nat, now: int, at: int)
    ensures var l := Run(OneWallet(user, source + fee), OneStackRun(user, frequency, source, fee, now));
      && |l.stacks| == 1 && l.stacks[0].status.Active? && user in l.wallets
      && l.wallets[user].base + l.wallets[user].stacked == source
      && var s := l.stacks[0];
      && UnlockCommit(l, user, 0, s, at).Success?
      && var once := UnlockCommit(l, user, 0, s, at).value;
      && UnlockCommit(once, user, 0, s, at).Success?
      && var twice := UnlockCommit(once, user, 0, s, at).value;
      && Inv(twice) && user in twice.wallets
      && twice.wallets[user].base + twice.wallets[user].stacked
         == 2 * (if at < NextInterest(frequency, now) then source - Penalty(source) else source)
  {
    OneStackIsActive(user, frequency, source, fee, now);
    hide Run, NextInterest, NextExecution, Inv;
    var l := Run(OneWallet(user, source + fee), OneStackRun(user, frequency, source, fee, now));
    var s := l.stacks[0];
    DoubleUnlockPaysTwice(l, 0, at);
    var once := UnlockCommit(l, user, 0, s, at).value;
    StaleUnlockSums(once, user, 0, s, at);
  }

  /** `initiateAutoStack` reads the stack before its transaction, too, and the debit makes the row
      ACTIVE whatever it has become.  Having read PENDING, it keeps the ledger sums exactly when
      the row is not ACTIVE already (or has no amount); having read ACTIVE, exactly when the row
      has not been unlocked meanwhile (or has no amount); and an ENDED row must not bring accrued
      interest back. */
  lemma StaleExecuteKeepsSums(l: Ledger, id: nat, initial: bool, source: nat, fee: nat, now: int)
    requires Inv(l) && id < |l.stacks| && l.stacks[id].user in l.wallets
    requires var w := l.wallets[l.stacks[id].user]; w.base - w.reserved >= source + fee
    ensures var row := l.stacks[id];
      Inv(ExecuteCommit(l, id, initial, source, fee, now)) <==>
        (row.amount == 0 || row.status.Active? != initial) && (row.status.Active? || row.accrued == 0)
  {
    hide NextExecution, NextInterest;
    var l', u := ExecuteCommit(l, id, initial, source, fee, now), l.stacks[id].user;
    TotalsUpdate(l.stacks, id, l'.stacks[id]);
    if WalletSums(l') {
      assert u in l'.wallets;
    }
  }

  /** `executeCharge` reads the status before its transaction and only amount and date inside it.
      The accrual keeps the sums if and only if the row is ACTIVE still, or the interest is 0. */
  lemma StaleAccrueKeepsSums(l: Ledger, id: nat, centiRate: nat, now: int)
    requires Inv(l) && id < |l.stacks| && l.stacks[id].user in l.wallets && !l.stacks[id].status.Pending?
    ensures var row := l.stacks[id];
      Inv(AccrueCommit(l, id, centiRate, now)) <==>
        row.status.Active? || Interest(row.amount, centiRate, PeriodDays(row.frequency)) == 0
  {
    hide NextInterest, Interest;
    var l', u := AccrueCommit(l, id, centiRate, now), l.stacks[id].user;
    TotalsUpdate(l.stacks, id, l'.stacks[id]);
    if WalletSums(l') {
      assert u in l'.wallets;
    }
  }

  /** `cancelPending` reads the status before its transaction, which ends the stack whatever it has
      become: the sums survive if and only if the row is not ACTIVE, or is empty. */
  lemma StaleCancelKeepsSums(l: Ledger, id: nat)
    requires Inv(l) && id < |l.stacks|
    ensures Inv(CancelCommit(l, id)) <==> HeldNow(l.stacks[id]) == (0, 0)
  {
    var l', u := CancelCommit(l, id), l.stacks[id].user;
    TotalsUpdate(l.stacks, id, l'.stacks[id]);
    if u !in l.wallets { assert !l.stacks[id].status.Active?; }
    if WalletSums(l') && u in l.wallets {
      assert u in l'.wallets;
    }
  }

  // ---------------------------------------------------------------- conservation

  /** Amounts that a run moves. */
  datatype Flow =
    | InterestAccrued
    | InterestForfeited
    | FeesOf(user: UserId)
    | PenaltiesOf(user: UserId)
    | InterestPaidTo(user: UserId)

  function Moved(k: Flow, l: Ledger, e: Event): nat {
    match e.op
    case Execute(id, source, fee, force) =>
      if Charges(l, id, force, e.now) && Step(l, e).Success? && k == FeesOf(l.stacks[id].user) then fee else 0
    case Accrue(id, centiRate) =>
      if Accrues(l, id, e.now) && k == InterestAccrued
      then Interest(l.stacks[id].amount, centiRate, PeriodDays(l.stacks[id].frequency)) else 0
    case Unlock(user, id, pinOk) =>
      if Step(l, e).Failure? then 0
      else
        var s := l.stacks[id];
        if k == InterestForfeited && Early(s, e.now) then s.accrued
        else if k == PenaltiesOf(user) && Early(s, e.now) then Penalty(s.amount)
        else if k == InterestPaidTo(user) then InterestPaid(s, e.now)
        else 0
    case _ => 0
  }

  /** Fees go with debits, penalties and lost interest with unlocks before the interest date, paid
      interest with unlocks from then on, and interest comes with accruals. */
  lemma FlowsByKind(l: Ledger, e: Event, u: UserId)
    ensures Moved(FeesOf(u), l, e) > 0 ==> e.op.Execute?
    ensures Moved(InterestAccrued, l, e) > 0 ==> e.op.Accrue?
    ensures Moved(PenaltiesOf(u), l, e) > 0 || Moved(InterestForfeited, l, e) > 0 ==>
      e.op.Unlock? && e.op.id < |l.stacks| && e.now < l.stacks[e.op.id].nextInterestAt
    ensures Moved(InterestPaidTo(u), l, e) > 0 ==>
      e.op.Unlock? && e.op.id < |l.stacks| && e.now >= l.stacks[e.op.id].nextInterestAt
  {}

  function FlowTotal(k: Flow, l: Ledger, es: seq<Event>): nat
    decreases |es|
  {
    if es == [] then 0 else Moved(k, l, es[0]) + FlowTotal(k, Apply(l, es[0]), es[1..])
  }

  lemma StepConservesInterest(l: Ledger, e: Event)
    requires Inv(l)
    ensures var l' := Apply(l, e);
      l'.company.accrued + l'.company.paid + Moved(InterestForfeited, l, e)
      == l.company.accrued + l.company.paid + Moved(InterestAccrued, l, e)
  {
    if e.op.Unlock? && Step(l, e).Success? { ClampsNeverBite(l, e.op.id); }
  }

  /** Outstanding interest, interest paid and interest forfeited by early unlocks
      together are all the interest ever accrued. */
  lemma {:induction false} InterestConserved(l: Ledger, es: seq<Event>)
    requires Inv(l)
    ensures var l' := Run(l, es);
      l'.company.accrued + l'.company.paid + FlowTotal(InterestForfeited, l, es)
      == l.company.accrued + l.company.paid + FlowTotal(InterestAccrued, l, es)
    decreases |es|
  {
    if es != [] {
      StepConservesInterest(l, es[0]);
      StepKeepsInv(l, es[0]);
      InterestConserved(Apply(l, es[0]), es[1..]);
    }
  }

  lemma StepConservesValue(l: Ledger, e: Event, u: UserId)
    requires Inv(l) && u in l.wallets
    ensures var l' := Apply(l, e);
      u in l'.wallets
      && l'.wallets[u].base + l'.wallets[u].stacked
         == l.wallets[u].base + l.wallets[u].stacked
            - Moved(FeesOf(u), l, e) - Moved(PenaltiesOf(u), l, e) + Moved(InterestPaidTo(u), l, e)
  {
    if e.op.Unlock? && Step(l, e).Success? { ClampsNeverBite(l, e.op.id); }
  }

  /** What a user holds, free or stacked, changes by fees, penalties and interest paid only. */
  lemma {:induction false} ValueConserved(l: Ledger, es: seq<Event>, u: UserId)
    requires Inv(l) && u in l.wallets
    ensures var l' := Run(l, es);
      u in l'.wallets
      && l'.wallets[u].base + l'.wallets[u].stacked
         == l.wallets[u].base + l.wallets[u].stacked
            - FlowTotal(FeesOf(u), l, es) - FlowTotal(PenaltiesOf(u), l, es) + FlowTotal(InterestPaidTo(u), l, es)
    decreases |es|
  {
    if es != [] {
      StepConservesValue(l, es[0], u);
      StepKeepsInv(l, es[0]);
      ValueConserved(Apply(l, es[0]), es[1..], u);
    }
  }

  // ---------------------------------------------------------------- due charges

  /** After an execution at `now`, a charge of the stack that is due at `later` accrues
      interest, except for a monthly stack executed in February, from the end of that month's
      length until day 30. */
  lemma DueChargeAccrues(l: Ledger, id: nat, source: nat, fee: nat, force: bool, now: int, later: int)
    requires Charges(l, id, force, now) && ExecuteStep(l, id, source, fee, force, now).Success?
    ensures var l' := ExecuteStep(l, id, source, fee, force, now).value;
      Charges(l', id, false, later) ==>
        (Accrues(l', id, later) <==>
          !(l.stacks[id].frequency == Monthly && DateAt(now).month == 1 && later < now + 30 * DAY_MS))
  {
    DueWithoutInterest(l.stacks[id].frequency, now, later);
    ExecutionAgainstInterest(l.stacks[id].frequency, now);
  }

  // ---------------------------------------------------------------- accrual spacing

  ghost predicate Monotone(es: seq<Event>) {
    forall i, j :: 0 <= i < j < |es| ==> es[i].now <= es[j].now
  }

  /** The event accrues interest on the stack. */
  predicate AccruesOn(l: Ledger, e: Event, id: nat) {
    e.op.Accrue? && e.op.id == id && Accrues(l, id, e.now)
  }

  /** One step moves the interest date of a stack to one period past its own time, or leaves it. */
  lemma StepMovesInterestDate(l: Ledger, e: Event, id: nat)
    requires id < |l.stacks|
    ensures var l' := Apply(l, e);
      && id < |l'.stacks|
      && l'.stacks[id].frequency == l.stacks[id].frequency
      && (l'.stacks[id].nextInterestAt == l.stacks[id].nextInterestAt
          || l'.stacks[id].nextInterestAt == e.now + PeriodMs(l.stacks[id].frequency))
      && (AccruesOn(l, e, id) ==>
           l.stacks[id].nextInterestAt <= e.now
           && l'.stacks[id].nextInterestAt == e.now + PeriodMs(l.stacks[id].frequency))
  {
    AddDaysIsElapsedTime(e.now, PeriodDays(l.stacks[id].frequency));
  }

  /** The instants at which a run accrues interest on the stack. */
  function AccrualTimes(l: Ledger, es: seq<Event>, id: nat): seq<int>
    decreases |es|
  {
    if es == [] then []
    else (if AccruesOn(l, es[0], id) then [es[0].now] else []) + AccrualTimes(Apply(l, es[0]), es[1..], id)
  }

  /** The list names every accrual: the charges that find the stack ACTIVE, due, and past its interest
      date. */
  lemma {:induction false} AccrualTimesAreAll(l: Ledger, es: seq<Event>, e: Event, id: nat)
    requires id < |l.stacks|
    ensures var t := Run(l, es);
      id < |t.stacks| && var s := t.stacks[id];
      AccrualTimes(l, es + [e], id)
      == AccrualTimes(l, es, id)
         + if e.op.Accrue? && e.op.id == id && s.status.Active? && s.nextExecutionAt <= e.now && s.nextInterestAt <= e.now
           then [e.now] else []
    ensures AccrualTimes(l, [], id) == []
    decreases |es|
  {
    if es == [] {
      assert es + [e] == [e];
    } else {
      StepMovesInterestDate(l, es[0], id);
      hide Apply, AccruesOn;
      assert (es + [e])[0] == es[0] && (es + [e])[1..] == es[1..] + [e];
      AccrualTimesAreAll(Apply(l, es[0]), es[1..], e, id);
    }
  }

  lemma {:induction false} AccrualsFrom(l: Ledger, es: seq<Event>, id: nat, lo: int, p: int)
    requires Monotone(es) && id < |l.stacks| && p == PeriodMs(l.stacks[id].frequency)
    requires lo <= l.stacks[id].nextInterestAt && (es != [] ==> lo <= es[0].now + p)
    ensures var ts := AccrualTimes(l, es, id); Spaced(ts, p) && (ts != [] ==> lo <= ts[0])
    decreases |es|
  {
    if es != [] {
      StepMovesInterestDate(l, es[0], id);
      AccrualsFrom(Apply(l, es[0]), es[1..], id, if AccruesOn(l, es[0], id) then es[0].now + p else lo, p);
    }
  }

  /** Accruals on one stack are at least its period apart, whatever happens in between
      (charges that fail and are retried, executions, unlocks), while time does not run back. */
  lemma AccrualsSpaced(l: Ledger, es: seq<Event>, id: nat)
    requires Monotone(es) && id < |l.stacks|
    ensures Spaced(AccrualTimes(l, es, id), PeriodMs(l.stacks[id].frequency))
  {
    var p := PeriodMs(l.stacks[id].frequency);
    var n := l.stacks[id].nextInterestAt;
    AccrualsFrom(l, es, id, if es == [] then n else Min(n, es[0].now + p), p);
  }

  /** Over any run, the accruals on one stack number at most one more than the whole periods
      between the first and the last of them. */
  lemma AccrualsBounded(l: Ledger, es: seq<Event>, id: nat)
    requires Monotone(es) && id < |l.stacks| && AccrualTimes(l, es, id) != []
    ensures var ts := AccrualTimes(l, es, id);
      (|ts| - 1) * PeriodMs(l.stacks[id].frequency) <= ts[|ts| - 1] - ts[0]
  {
    AccrualsSpaced(l, es, id);
    SpacedBound(AccrualTimes(l, es, id), PeriodMs(l.stacks[id].frequency));
  }
}
