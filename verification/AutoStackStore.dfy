/** The database rows behind USDT-funded autostacks and the transactions that update them in
    place.  The source reads a stack before it opens a transaction on it: `read` is that row, whose
    user and frequency never change.  With `read` up to date, every method realises one step of
    AutoStackLedger. */
module AutoStackStore {
  import opened Wrappers
  import opened Calendar
  import opened AutoStackLedger

  /** What `executeCharge` goes on to do after its own transaction. */
  datatype Dispatch = Nothing | InitiateAutoStack(force: bool)

  class Store {
    var wallets: map<UserId, Wallet>
    var stacks: seq<Stack>
    var totalAmountStacked: int
    var totalAccruedLockedInterest: int
    var totalLockedInterestPaid: int

    constructor ()
      ensures State() == Ledger(map[], [], Company(0, 0, 0)) && Inv(State())
    {
      wallets, stacks := map[], [];
      totalAmountStacked, totalAccruedLockedInterest, totalLockedInterestPaid := 0, 0, 0;
    }

    ghost function State(): Ledger
      reads this
    {
      Ledger(wallets, stacks, Company(totalAmountStacked, totalAccruedLockedInterest, totalLockedInterestPaid))
    }

    /** `r` and the state `after` are what `step` gives: a failed transaction leaves every row alone. */
    ghost predicate Realises(step: Result<Ledger, LedgerError>, before: Ledger, after: Ledger, r: Outcome<LedgerError>) {
      match step
      case Success(l) => r == Pass && after == l
      case Failure(x) => r == Fail(x) && after == before
    }

    method Confirm(user: UserId, frequency: Frequency, principal: nat, startAt: int)
      modifies this
      ensures State() == Apply(old(State()), At(0, Op.Confirm(user, frequency, principal, startAt)))
    {
      stacks := stacks + [Stack(user, frequency, Pending, principal, 0, startAt, startAt)];
    }

    predicate SameStack(id: nat, read: Stack)
      reads this
    {
      id < |stacks| && read.user == stacks[id].user && read.frequency == stacks[id].frequency
    }

    method ExecuteUsdt(id: nat, read: Stack, source: nat, fee: nat, force: bool, now: int)
      returns (r: Outcome<LedgerError>)
      requires SameStack(id, read)
      modifies this
      ensures read == old(stacks)[id] ==>
        Realises(ExecuteStep(old(State()), id, source, fee, force, now), old(State()), State(), r)
      ensures read.status.Ended? || (!force && !Due(read.nextExecutionAt, now)) ==>
        r == Pass && State() == old(State())
      ensures !read.status.Ended? && (force || Due(read.nextExecutionAt, now)) ==>
        if read.user !in old(wallets) then r == Fail(WalletNotFound) && State() == old(State())
        else if old(wallets)[read.user].base - old(wallets)[read.user].reserved < source + fee
        then r == Fail(InsufficientBalance) && State() == old(State())
        else r == Pass && State() == ExecuteCommit(old(State()), id, read.status.Pending?, source, fee, now)
    {
      if read.status.Ended? { return Pass; }
      if !force && !Due(read.nextExecutionAt, now) { return Pass; }
      if read.user !in wallets { return Fail(WalletNotFound); }
      var wallet := wallets[read.user];
      if wallet.base - wallet.reserved < source + fee { return Fail(InsufficientBalance); }
      DebitUsdt(id, read, source, fee, now);
      return Pass;
    }

    method DebitUsdt(id: nat, read: Stack, source: nat, fee: nat, now: int)
      requires SameStack(id, read) && read.user in wallets
      modifies this
      ensures State() == ExecuteCommit(old(State()), id, read.status.Pending?, source, fee, now)
    {
      hide NextExecution, NextInterest;
      var wallet := wallets[read.user];
      var totalWalletDeduction := source + fee;
      wallets := wallets[read.user := wallet.(
        base := wallet.base - totalWalletDeduction,
        stacked := wallet.stacked + source)];
      totalAmountStacked := totalAmountStacked + source;
      var isInitialExecution := read.status.Pending?;
      stacks := stacks[id := stacks[id].(
        amount := if isInitialExecution then source else stacks[id].amount + source,
        status := Active,
        nextExecutionAt := NextExecution(read.frequency, now),
        nextInterestAt := NextInterest(read.frequency, now))];
    }

    /** `executeCharge` up to its call of `initiateAutoStack`: inside the transaction only amount
        and interest date are read again. */
    method ExecuteCharge(id: nat, read: Stack, centiRate: nat, now: int) returns (next: Dispatch)
      requires SameStack(id, read)
      modifies this
      ensures State() ==
        if read.status.Active? && Due(read.nextExecutionAt, now) && old(stacks)[id].nextInterestAt <= now
        then AccrueCommit(old(State()), id, centiRate, now) else old(State())
      ensures next.InitiateAutoStack? <==> !read.status.Ended? && Due(read.nextExecutionAt, now)
      ensures next.InitiateAutoStack? ==> next.force == read.status.Active?
      ensures read == old(stacks)[id] ==> State() == AccrueStep(old(State()), id, centiRate, now)
    {
      hide NextInterest;
      if read.status.Ended? { return Nothing; }
      if !Due(read.nextExecutionAt, now) { return Nothing; }
      if read.status.Pending? { return InitiateAutoStack(false); }
      var freshStack := stacks[id];
      if freshStack.nextInterestAt <= now {
        var interest := Interest(freshStack.amount, centiRate, PeriodDays(read.frequency));
        stacks := stacks[id := freshStack.(
          accrued := freshStack.accrued + interest,
          nextInterestAt := NextInterest(read.frequency, now))];
        if read.user in wallets {
          var wallet := wallets[read.user];
          wallets := wallets[read.user := wallet.(interest := wallet.interest + interest)];
        }
        totalAccruedLockedInterest := totalAccruedLockedInterest + interest;
      }
      return InitiateAutoStack(true);
    }

    /** The stack's part of `cancelPending`. */
    method EndPending(user: UserId, id: nat, read: Option<Stack>) returns (r: Outcome<LedgerError>)
      requires read.Some? ==> SameStack(id, read.value)
      modifies this
      ensures r.Pass? <==> read.Some? && read.value.user == user && read.value.status.Pending?
      ensures r.Fail? ==> r == Fail(StackNotFound) && State() == old(State())
      ensures r.Pass? ==> State() == CancelCommit(old(State()), id)
      ensures read.Some? && read.value == old(stacks)[id] ==>
        Realises(Step(old(State()), At(0, CancelPending(user, id))), old(State()), State(), r)
    {
      if read.None? || read.value.user != user || !read.value.status.Pending? {
        return Fail(StackNotFound);
      }
      stacks := stacks[id := stacks[id].(status := Ended)];
      return Pass;
    }

    method UnlockStack(user: UserId, id: nat, read: Option<Stack>, pinOk: bool, now: int)
      returns (r: Outcome<LedgerError>)
      requires read.Some? ==> SameStack(id, read.value)
      modifies this
      ensures read.None? || read.value.user != user || !read.value.status.Active? ==>
        r == Fail(StackNotFound) && State() == old(State())
      ensures read.Some? && read.value.user == user && read.value.status.Active? ==>
        if !pinOk then r == Fail(InvalidPin) && State() == old(State())
        else
          && (if user in old(wallets) then r == Pass else r == Fail(WalletNotFound) && State() == old(State()))
          && Realises(UnlockCommit(old(State()), user, id, read.value, now), old(State()), State(), r)
      ensures read.Some? && read.value == old(stacks)[id] ==>
        Realises(UnlockStep(old(State()), user, id, pinOk, now), old(State()), State(), r)
    {
      if read.None? || read.value.user != user || !read.value.status.Active? {
        return Fail(StackNotFound);
      }
      if !pinOk { return Fail(InvalidPin); }
      var stack := read.value;
      var isEarly := now < stack.nextInterestAt;
      var principal, accrued := stack.amount, stack.accrued;
      var penalty := if isEarly then principal * 5 / 100 else 0;
      var payout := if isEarly then principal - penalty else principal + accrued;
      var interestPaid := if isEarly then 0 else accrued;
      if user !in wallets { return Fail(WalletNotFound); }
      var wallet := wallets[user];
      wallets := wallets[user := wallet.(
        base := wallet.base + payout,
        stacked := AtLeastZero(wallet.stacked - principal),
        interest := AtLeastZero(wallet.interest - accrued))];
      stacks := stacks[id := stacks[id].(status := Ended)];
      totalAmountStacked := AtLeastZero(totalAmountStacked - principal);
      totalAccruedLockedInterest := AtLeastZero(totalAccruedLockedInterest - accrued);
      totalLockedInterestPaid := totalLockedInterestPaid + interestPaid;
      return Pass;
    }

    method Reserve(user: UserId, sum: nat) returns (r: Outcome<LedgerError>)
      modifies this
      ensures Realises(Step(old(State()), At(0, ReserveBalance(user, sum))), old(State()), State(), r)
      ensures r == if user !in old(wallets) then Fail(WalletNotFound)
                   else if old(wallets)[user].base - old(wallets)[user].reserved < sum then Fail(InsufficientBalance)
                   else Pass
    {
      if user !in wallets { return Fail(WalletNotFound); }
      var wallet := wallets[user];
      if wallet.base - wallet.reserved < sum { return Fail(InsufficientBalance); }
      wallets := wallets[user := wallet.(reserved := wallet.reserved + sum)];
      return Pass;
    }

    method Release(user: UserId, sum: nat) returns (r: Outcome<LedgerError>)
      modifies this
      ensures Realises(Step(old(State()), At(0, ReleaseBalance(user, sum))), old(State()), State(), r)
      ensures r == if user !in old(wallets) then Fail(WalletNotFound)
                   else if old(wallets)[user].reserved < sum then Fail(ReservedInconsistency)
                   else Pass
    {
      if user !in wallets { return Fail(WalletNotFound); }
      var wallet := wallets[user];
      if wallet.reserved < sum { return Fail(ReservedInconsistency); }
      wallets := wallets[user := wallet.(reserved := wallet.reserved - sum)];
      return Pass;
    }
  }
}
