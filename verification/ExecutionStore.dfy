/** The execution transaction as rows that are updated in place, and one undisturbed call of
    the initiation that works on them. */
module ExecutionStore {
  import opened Wrappers
  import opened ExecutionTx
  import opened Pots

  /** How an initiation ends: blocked by a lease or a settled row, carried through, or thrown
      after its compensation. */
  datatype Initiation = Skipped | Done | Threw

  /** What the provider did with the charge, whether its client returned, and whether the write that
      records the charge went through. */
  datatype Charging = Charging(accepted: bool, reported: bool, recorded: bool)

  /** The claim proceeds, and its amount is reserved already or can be. */
  predicate Reserves(db: Db, f: Funding, amount: nat, now: int) {
    && !Blocks(db.row, now)
    && (|| db.row.reservation == Reserved(amount)
        || ((f.Swap? ==> db.user.total - db.user.reserved >= f.source + f.fee)
            && db.company.total - db.company.reserved >= amount))
  }

  /** What a reservation at a moved rate leaves without a record. */
  function Stranded(row: Meta, amount: nat): nat {
    if row.reservation.Reserved? && row.reservation.amount != amount then row.reservation.amount else 0
  }

  /** A reservation on a row that may hold one already, and its compensation. */
  lemma ReentryHolds(db: Db, f: Funding, amount: nat)
    requires Covered(db) && Accounted(db, f) && !f.Usdt?
    requires db.row.reservation.Reserved? ==> f.Card? || db.row.reservation.amount == amount
    ensures ReserveTx(db, f, db.row, amount).Success? ==>
      var t := ReserveTx(db, f, db.row, amount).value;
      && Covered(t) && t.row == db.row.(reservation := Reserved(amount)) && t.debits == db.debits
      && t.heldUser == UserPart(f) && t.heldCompany == amount + Stranded(db.row, amount)
      && t.user.reserved == db.user.reserved - db.heldUser + t.heldUser
      && t.company.reserved == db.company.reserved - db.heldCompany + t.heldCompany
      && var u, rest := CompensateTx(t, f), Stranded(db.row, amount);
      && Covered(u) && u.row == t.row.(status := Failed, reservation := Released) && u.debits == db.debits
      && u.heldUser == 0 && u.heldCompany == rest
      && u.user == db.user.(reserved := db.user.reserved - db.heldUser)
      && u.company == db.company.(reserved := db.company.reserved - db.heldCompany + rest)
  {}

  class Store {
    var row: Meta
    var user: Pot
    var company: Pot
    ghost var heldUser: int
    ghost var heldCompany: int
    ghost var debits: nat
    /** The charges that the provider accepted. */
    ghost var accepted: nat

    constructor (user: Pot, company: Pot)
      requires 0 <= user.reserved && 0 <= company.reserved
      ensures row == Meta(Pending, 0, NotReserved, false) && this.user == user && this.company == company
      ensures Covered(State()) && accepted == 0 && forall f :: Accounted(State(), f)
    {
      row := Meta(Pending, 0, NotReserved, false);
      this.user, this.company := user, company;
      heldUser, heldCompany, debits, accepted := 0, 0, 0, 0;
    }

    ghost function State(): Db
      reads this
    {
      Db(row, user, company, heldUser, heldCompany, debits)
    }

    method Claim(now: int) returns (shouldProceed: bool)
      modifies this
      ensures accepted == old(accepted)
      ensures shouldProceed <==>
        !old(row).status.Submitted? && !old(row).status.Completed?
        && !(old(row).status.Processing? && now - old(row).initiatedAt < 15 * 60 * 1000)
      ensures State() == if shouldProceed then ClaimTx(old(State()), now) else old(State())
    {
      if row.status.Submitted? || row.status.Completed? { return false; }
      if row.status.Processing? && now - row.initiatedAt < LEASE_MS { return false; }
      row := row.(status := Processing, initiatedAt := now);
      return true;
    }

    method ReserveSource(f: Funding, meta: Meta, amount: nat) returns (r: Outcome<TxError>)
      modifies this
      ensures accepted == old(accepted)
      ensures r.Pass? <==>
        || meta.reservation == Reserved(amount)
        || ((f.Swap? ==> old(user).total - old(user).reserved >= f.source + f.fee)
            && old(company).total - old(company).reserved >= amount)
      ensures r.Pass? && meta.reservation != Reserved(amount) ==>
        && row == Meta(meta.status, meta.initiatedAt, Reserved(amount), meta.settled)
        && user == Pot(old(user).total, old(user).reserved + if f.Swap? then f.source + f.fee else 0)
        && company == Pot(old(company).total, old(company).reserved + amount)
      ensures match ReserveTx(old(State()), f, meta, amount)
        case Success(db) => r == Pass && State() == db
        case Failure(e) => r == Fail(e) && State() == old(State())
    {
      var alreadyReserved := meta.reservation == Reserved(amount);
      if !alreadyReserved {
        var user' := user;
        if f.Swap? {
          if user.total - user.reserved < UserPart(f) { return Fail(InsufficientBalance); }
          user' := user.(reserved := user.reserved + UserPart(f));
        }
        if company.total - company.reserved < amount { return Fail(InsufficientLiquidity); }
        company := company.(reserved := company.reserved + amount);
        user := user';
        heldUser, heldCompany := heldUser + UserPart(f), heldCompany + amount;
      }
      row := meta.(reservation := Reserved(amount));
      return Pass;
    }

    method CompleteDebit(meta: Meta)
      modifies this
      ensures State() == DebitTx(old(State()), meta) && accepted == old(accepted)
    {
      row := meta.(status := Completed);
      debits := debits + 1;
    }

    method RecordSubmitted(f: Funding, meta: Meta, amount: nat)
      modifies this
      ensures State() == SubmitTx(old(State()), f, meta, amount) && accepted == old(accepted)
    {
      if f.Card? {
        row := meta.(status := Submitted, reservation := Reserved(amount));
      } else {
        row := row.(status := Submitted);
      }
    }

    /** A release that finds too little reserved fails, and the failure is swallowed. */
    method Compensate(f: Funding)
      modifies this
      ensures State() == CompensateTx(old(State()), f) && accepted == old(accepted)
    {
      if row.reservation.Reserved? {
        if company.reserved >= row.reservation.amount {
          company := company.(reserved := company.reserved - row.reservation.amount);
          heldCompany := heldCompany - row.reservation.amount;
        }
        if f.Swap? && user.reserved >= UserPart(f) {
          user := user.(reserved := user.reserved - UserPart(f));
          heldUser := heldUser - UserPart(f);
        }
        row := row.(status := Failed, reservation := Released);
      } else {
        row := row.(status := Failed);
      }
    }

    /** `meta` is the metadata that `cancelPending` read before its transaction. */
    method CancelPending(f: Funding, meta: Meta) returns (r: Outcome<TxError>)
      modifies this
      ensures match CancelTx(old(State()), f, meta)
        case Success(db) => r == Pass && State() == db
        case Failure(e) => r == Fail(e) && State() == old(State())
    {
      if meta.reservation.Reserved? {
        if company.reserved < meta.reservation.amount { return Fail(ReservationInconsistency); }
        if f.Swap? {
          if user.reserved < f.source { return Fail(ReservationInconsistency); }
          user := user.(reserved := user.reserved - f.source);
          heldUser := heldUser - f.source;
        }
        company := company.(reserved := company.reserved - meta.reservation.amount);
        heldCompany := heldCompany - meta.reservation.amount;
        row := meta.(status := Cancelled, reservation := Released);
      } else {
        row := meta.(status := Cancelled);
      }
      return Pass;
    }

    /** `initiatePendingAutoStack` as one call.  `debitOk` is the outcome of the USDT debit, `charge`
        that of the swap or card charge and of its record; `amount` is the company's part of the
        reservation, fixed by the source or computed from the live card rate.  It may re-enter a
        row whose earlier worker died holding a reservation.  Unless that is a card reservation at
        another rate, every ending leaves the books balanced; otherwise that amount stays held.
        What the provider accepted counts in no ending: the call is done exactly if the client
        returned and the record went through, and gives everything back otherwise. */
    method InitiatePending(f: Funding, amount: nat, now: int, charge: Charging, debitOk: bool) returns (r: Initiation)
      requires f.Swap? ==> amount == f.source
      requires Covered(State()) && Accounted(State(), f)
      requires row.reservation.Reserved? ==> f.Card? || (f.Swap? && row.reservation.amount == amount)
      modifies this
      ensures Covered(State())
      ensures r.Skipped? <==> Blocks(old(row), now)
      ensures r.Skipped? ==> State() == old(State())
      ensures !r.Skipped? ==>
        (r.Done? <==> if f.Usdt? then debitOk
                      else Reserves(old(State()), f, amount, now) && charge.reported && charge.recorded)
      ensures accepted == old(accepted)
        + if !f.Usdt? && Reserves(old(State()), f, amount, now) && charge.accepted then 1 else 0
      ensures r.Done? && f.Usdt? ==> row.status.Completed? && debits == old(debits) + 1 && user == old(user)
      ensures r.Done? && !f.Usdt? ==>
        && row == Meta(Submitted, now, Reserved(amount), old(row).settled) && debits == old(debits)
        && heldUser == UserPart(f) && heldCompany == amount + Stranded(old(row), amount)
        && user.reserved == old(user).reserved - old(heldUser) + heldUser
        && company.reserved == old(company).reserved - old(heldCompany) + heldCompany
      ensures r.Threw? ==>
        && row.status.Failed? && !row.reservation.Reserved? && debits == old(debits) && heldUser == 0
        && heldCompany == (if !f.Usdt? && Reserves(old(State()), f, amount, now) then Stranded(old(row), amount) else 0)
        && user == old(user).(reserved := old(user).reserved - old(heldUser))
        && company == old(company).(reserved := old(company).reserved - old(heldCompany) + heldCompany)
    {
      hide CompensateTx, ReserveTx, ReserveUser, UserPart;
      var shouldProceed := Claim(now);
      if !shouldProceed { return Skipped; }
      var meta := row;
      if f.Usdt? {
        if debitOk {
          CompleteDebit(meta);
          return Done;
        }
      } else {
        var reserved := ReserveSource(f, meta, amount);
        ReentryHolds(ClaimTx(old(State()), now), f, amount);
        if reserved.Pass? {
          if charge.accepted { accepted := accepted + 1; }
          if charge.reported && charge.recorded {
            RecordSubmitted(f, meta, amount);
            return Done;
          }
        }
      }
      CompensateReleasesAll(ClaimTx(old(State()), now), f);
      Compensate(f);
      return Threw;
    }
  }
}
