/** The execution transaction of an autostack: the row that carries the initiation status
    and the reservation of one scheduled charge, together with the balances it reserves
    from, and the database transactions that change them. */
module ExecutionTx {
  import opened Pots
  import opened Rounding
  import opened Wrappers

  const LEASE_MS: int := 15 * 60 * 1000

  datatype InitStatus = Pending | Processing | Submitted | Completed | Failed | Cancelled

  /** liquidityReservationStatus, with the reserved amount while it says RESERVED. */
  datatype Reservation = NotReserved | Reserved(amount: nat) | Released

  /** paymentMetadata of the row.  `settled` says that it carries a mark of a settled swap,
      autostackWebhookProcessedAt or the autostackSettlement swap_completed. */
  datatype Meta = Meta(status: InitStatus, initiatedAt: int, reservation: Reservation, settled: bool)

  /** How the charge is paid: from a wallet in another asset that is swapped to USDT, from a
      USDT wallet, or by card.  `fee` is in units of the source. */
  datatype Funding = Swap(source: nat, fee: nat) | Usdt | Card

  /** The row and the two pots.  `heldUser`, `heldCompany` and `debits` are history: what this
      row's transactions reserved and did not release, and how often they debited the wallet. */
  datatype Db = Db(row: Meta, user: Pot, company: Pot, heldUser: int, heldCompany: int, debits: nat)

  datatype TxError = InsufficientBalance | InsufficientLiquidity | ReservationInconsistency

  /** The transaction fee, charged in USDT on `principal`, converted to units of the source. */
  function SourceFee(source: nat, transactionFee: nat, principal: nat): nat {
    if principal > 0 then CeilDiv(source * transactionFee, principal) else 0
  }

  /** It is the least fee whose value is not below the USDT fee, and the USDT fee itself when
      the source is USDT. */
  lemma SourceFeeIsLeast(source: nat, transactionFee: nat, principal: nat, other: nat)
    requires principal > 0
    ensures other >= SourceFee(source, transactionFee, principal)
      <==> other * principal >= source * transactionFee
    ensures source == principal ==> SourceFee(source, transactionFee, principal) == transactionFee
    ensures SourceFee(source, transactionFee, 0) == 0
  {
    CeilDivIsLeast(source * transactionFee, principal, other);
    if source == principal {
      assert source * transactionFee == transactionFee * principal;
      CeilDivExact(transactionFee, principal);
    }
  }

  function UserPart(f: Funding): nat {
    if f.Swap? then f.source + f.fee else 0
  }

  // ---------------------------------------------------------------- transactions

  predicate Blocks(m: Meta, now: int) {
    || m.status.Submitted?
    || m.status.Completed?
    || (m.status.Processing? && now - m.initiatedAt < LEASE_MS)
  }

  /** The claim taken under the row lock. */
  function ClaimTx(db: Db, now: int): Db
    requires !Blocks(db.row, now)
  {
    db.(row := db.row.(status := Processing, initiatedAt := now))
  }

  /** Only a swap reserves from the user. */
  function ReserveUser(db: Db, f: Funding): Option<Pot> {
    if f.Swap? then ReservePot(db.user, UserPart(f)) else Some(db.user)
  }

  /** The reservation of `amount` company units by a worker whose claim read `meta`. */
  function ReserveTx(db: Db, f: Funding, meta: Meta, amount: nat): Result<Db, TxError> {
    if meta.reservation == Reserved(amount)
    then Success(db.(row := meta))
    else if ReserveUser(db, f).None? then Failure(InsufficientBalance)
    else if ReservePot(db.company, amount).None? then Failure(InsufficientLiquidity)
    else Success(db.(
      row := meta.(reservation := Reserved(amount)),
      user := ReserveUser(db, f).value,
      company := ReservePot(db.company, amount).value,
      heldUser := db.heldUser + UserPart(f),
      heldCompany := db.heldCompany + amount))
  }

  /** The USDT debit, which also completes the row.  The balances it moves are those of AutoStackLedger. */
  function DebitTx(db: Db, meta: Meta): Db {
    db.(row := meta.(status := Completed), debits := db.debits + 1)
  }

  /** The record that the swap, or the card charge, was submitted. */
  function SubmitTx(db: Db, f: Funding, meta: Meta, amount: nat): Db {
    db.(row := if f.Card? then meta.(status := Submitted, reservation := Reserved(amount))
               else db.row.(status := Submitted))
  }

  function ReleaseCompany(db: Db, amount: nat): Db {
    var (company, given) := ReleaseOrKeep(db.company, amount);
    db.(company := company, heldCompany := db.heldCompany - given)
  }

  function ReleaseUser(db: Db, amount: nat): Db {
    var (user, given) := ReleaseOrKeep(db.user, amount);
    db.(user := user, heldUser := db.heldUser - given)
  }

  /** The compensation of a failed initiation: releases that fail are swallowed. */
  function CompensateTx(db: Db, f: Funding): Db {
    if db.row.reservation.Reserved?
    then
      var a := ReleaseCompany(db, db.row.reservation.amount);
      var b := if f.Swap? then ReleaseUser(a, UserPart(f)) else a;
      b.(row := db.row.(status := Failed, reservation := Released))
    else db.(row := db.row.(status := Failed))
  }

  /** The cancellation of a pending stack, from the metadata that was read before. */
  function CancelTx(db: Db, f: Funding, meta: Meta): Result<Db, TxError> {
    if !meta.reservation.Reserved? then Success(db.(row := meta.(status := Cancelled)))
    else if db.company.reserved < meta.reservation.amount then Failure(ReservationInconsistency)
    else if f.Swap? && db.user.reserved < f.source then Failure(ReservationInconsistency)
    else
      var a := ReleaseCompany(db, meta.reservation.amount);
      var b := if f.Swap? then ReleaseUser(a, f.source) else a;
      Success(b.(row := meta.(status := Cancelled, reservation := Released)))
  }

  /** The row of a later charge copies the metadata of the stack's own transaction. */
  function CreatedRow(config: Meta): Meta {
    config.(status := Pending)
  }

  // ---------------------------------------------------------------- accounting

  /** Whatever the row holds is part of what the pots have reserved. */
  predicate Covered(db: Db) {
    0 <= db.heldUser <= db.user.reserved && 0 <= db.heldCompany <= db.company.reserved
  }

  /** What a row with this reservation should hold, of the user and of the company. */
  function Hold(f: Funding, r: Reservation): (int, int) {
    if r.Reserved? then (UserPart(f), r.amount) else (0, 0)
  }

  /** What the row holds is what its metadata says. */
  predicate Accounted(db: Db, f: Funding) {
    (db.heldUser, db.heldCompany) == Hold(f, db.row.reservation)
  }

  /** The row is COMPLETED exactly if its wallet was debited, and it was debited once at most. */
  predicate Counted(db: Db) {
    db.debits <= 1 && (db.debits == 1 <==> db.row.status.Completed?)
  }

  /** The balances cover what the row holds, the row says what it holds, and it is COMPLETED
      exactly after its one debit. */
  predicate Good(f: Funding, db: Db) {
    Covered(db) && Accounted(db, f) && Counted(db)
  }

  /** A worker's claim is still the one recorded in the row. */
  predicate OwnsLease(db: Db, meta: Meta) {
    db.row.status.Processing? && meta.status.Processing? && db.row.initiatedAt == meta.initiatedAt
  }

  /** A claim that has not recorded this amount reserves if and only if the user has source and fee
      free, for a swap, and the company the amount; then exactly these are reserved. */
  lemma ReservesIff(db: Db, f: Funding, meta: Meta, amount: nat)
    ensures var r := ReserveTx(db, f, meta, amount);
      var part := if f.Swap? then f.source + f.fee else 0;
      var userOk := f.Swap? ==> db.user.total - db.user.reserved >= part;
      var companyOk := db.company.total - db.company.reserved >= amount;
      if meta.reservation == Reserved(amount) then r == Success(db.(row := meta))
      else if !userOk then r == Failure(InsufficientBalance)
      else if !companyOk then r == Failure(InsufficientLiquidity)
      else r == Success(Db(
        Meta(meta.status, meta.initiatedAt, Reserved(amount), meta.settled),
        Pot(db.user.total, db.user.reserved + part), Pot(db.company.total, db.company.reserved + amount),
        db.heldUser + part, db.heldCompany + amount, db.debits))
  {}

  /** A failure ends the row FAILED; what its metadata says RESERVED is taken off each balance that has
      as much reserved, and the metadata says RELEASED in any case. */
  lemma CompensatesIff(db: Db, f: Funding)
    ensures var t := CompensateTx(db, f);
      if !db.row.reservation.Reserved? then t == db.(row := db.row.(status := Failed))
      else
        var amount, part := db.row.reservation.amount, if f.Swap? then f.source + f.fee else 0;
        var company := if db.company.reserved >= amount then amount else 0;
        var user := if db.user.reserved >= part && f.Swap? then part else 0;
        t == Db(Meta(Failed, db.row.initiatedAt, Released, db.row.settled),
                Pot(db.user.total, db.user.reserved - user), Pot(db.company.total, db.company.reserved - company),
                db.heldUser - user, db.heldCompany - company, db.debits)
  {}

  /** A cancellation takes the company's amount and, for a swap, the source off, or fails when either is
      not reserved; the row is CANCELLED, from the metadata that was read. */
  lemma CancelTxIff(db: Db, f: Funding, meta: Meta)
    ensures var r, source := CancelTx(db, f, meta), if f.Swap? then f.source else 0;
      if !meta.reservation.Reserved?
      then r == Success(db.(row := Meta(Cancelled, meta.initiatedAt, meta.reservation, meta.settled)))
      else
        var amount := meta.reservation.amount;
        if db.company.reserved < amount || (f.Swap? && db.user.reserved < source)
        then r == Failure(ReservationInconsistency)
        else r == Success(Db(
          Meta(Cancelled, meta.initiatedAt, Released, meta.settled),
          Pot(db.user.total, db.user.reserved - source), Pot(db.company.total, db.company.reserved - amount),
          db.heldUser - source, db.heldCompany - amount, db.debits))
  {}

  predicate BothSolvent(db: Db) {
    Solvent(db.user) && Solvent(db.company)
  }

  /** None of the transactions reserves more than there is, or releases more than is reserved. */
  lemma TransactionsKeepSolvent(db: Db, f: Funding, meta: Meta, amount: nat)
    requires BothSolvent(db)
    ensures ReserveTx(db, f, meta, amount).Success? ==> BothSolvent(ReserveTx(db, f, meta, amount).value)
    ensures BothSolvent(CompensateTx(db, f))
    ensures CancelTx(db, f, meta).Success? ==> BothSolvent(CancelTx(db, f, meta).value)
  {}

  /** A reservation rewrites status and claim time from the worker's own claim: both stay as
      they are exactly when that claim is still the row's. */
  lemma ReserveKeepsLease(db: Db, f: Funding, meta: Meta, amount: nat)
    requires meta.status.Processing? && ReserveTx(db, f, meta, amount).Success?
    ensures var db' := ReserveTx(db, f, meta, amount).value;
      db'.row.status == db.row.status && db'.row.initiatedAt == db.row.initiatedAt
      <==> OwnsLease(db, meta)
  {}

  /** A card charge recomputes its amount from a live rate.  Re-entering a row that holds
      `first` keeps the books exactly when the rate gives the same amount again. */
  lemma CardReentry(db: Db, first: nat, second: nat)
    requires first > 0 && second > 0 && Accounted(db, Card) && db.row.reservation == Reserved(first)
    requires ReserveTx(db, Card, db.row, second).Success?
    ensures var db' := ReserveTx(db, Card, db.row, second).value;
      && (Accounted(db', Card) <==> first == second)
      && (first != second ==> db'.heldCompany == first + second)
      && (first != second && Covered(db') ==> CompensateTx(db', Card).heldCompany == first)
  {}

  /** The compensation undoes a reservation exactly. */
  lemma CompensateUndoesReserve(db: Db, f: Funding, meta: Meta, amount: nat)
    requires Covered(db) && Accounted(db, f) && !db.row.reservation.Reserved? && !meta.reservation.Reserved?
    requires ReserveTx(db, f, meta, amount).Success?
    ensures var db' := CompensateTx(ReserveTx(db, f, meta, amount).value, f);
      db'.user == db.user && db'.company == db.company && db'.heldUser == 0 && db'.heldCompany == 0
      && db'.row.status.Failed? && db'.row.reservation.Released?
  {}

  /** A compensation on balanced books gives back all that the row holds. */
  lemma CompensateReleasesAll(db: Db, f: Funding)
    requires Covered(db) && Accounted(db, f)
    ensures CompensateTx(db, f) == Db(
      db.row.(status := Failed, reservation := if db.row.reservation.Reserved? then Released else db.row.reservation),
      db.user.(reserved := db.user.reserved - db.heldUser),
      db.company.(reserved := db.company.reserved - db.heldCompany), 0, 0, db.debits)
  {}

  /** A cancellation gives back the company's part and the source, and leaves exactly the fee
      part of the user's reservation behind: the books balance exactly when that fee is 0. */
  lemma CancelLeavesFee(db: Db, source: nat, fee: nat)
    requires Covered(db) && Accounted(db, Swap(source, fee)) && db.row.reservation.Reserved?
    ensures CancelTx(db, Swap(source, fee), db.row).Success?
    ensures var db' := CancelTx(db, Swap(source, fee), db.row).value;
      && db'.heldCompany == 0 && db'.heldUser == fee
      && db'.user.reserved == db.user.reserved - source
      && (Accounted(db', Swap(source, fee)) <==> fee == 0)
  {}

  // ---------------------------------------------------------------- late and early writers

  /** A reservation finds its amount recorded in the metadata of its claim, and the row has that
      hold; or it reserves anew, and the row has none. */
  predicate ReserveFits(f: Funding, row: Meta, meta: Meta, amount: nat) {
    && !row.status.Completed?
    && Hold(f, row.reservation) == if meta.reservation == Reserved(amount) then Hold(f, meta.reservation) else (0, 0)
  }

  /** Whoever reserves: re-entry after a crash is safe, a second worker that claimed before the
      first one reserved is not. */
  lemma ReserveKeepsBooks(f: Funding, db: Db, meta: Meta, amount: nat)
    requires Good(f, db) && meta.status.Processing? && ReserveTx(db, f, meta, amount).Success?
    ensures Good(f, ReserveTx(db, f, meta, amount).value) <==> ReserveFits(f, db.row, meta, amount)
  {}

  /** Whoever debits: the books go on if and only if the row is not COMPLETED yet and has the hold
      that the claim read. */
  lemma DebitKeepsBooks(f: Funding, db: Db, meta: Meta)
    requires Good(f, db)
    ensures Good(f, DebitTx(db, meta))
      <==> !db.row.status.Completed? && Hold(f, meta.reservation) == Hold(f, db.row.reservation)
  {}

  /** Whoever compensates: a debit is not forgotten if and only if the row is not COMPLETED. */
  lemma CompensateKeepsBooks(f: Funding, db: Db)
    requires Good(f, db)
    ensures Good(f, CompensateTx(db, f)) <==> !db.row.status.Completed?
  {
    CompensateReleasesAll(db, f);
    hide CompensateTx;
  }

  /** Whoever submits: a card submission writes its reservation down, a swap submission does not.
      The charge that it hands over is backed if and only if the row has its reservation now: a late
      card submission writes it without holding it, a late swap submission lacks it. */
  lemma SubmitKeepsBooks(f: Funding, db: Db, meta: Meta, amount: nat)
    requires Good(f, db)
    ensures Good(f, SubmitTx(db, f, meta, amount))
      <==> !db.row.status.Completed? && (f.Card? ==> Hold(f, Reserved(amount)) == Hold(f, db.row.reservation))
    ensures var db' := SubmitTx(db, f, meta, amount);
      !f.Usdt? && amount > 0 ==>
        (Good(f, db') && db'.row.reservation == Reserved(amount)
         <==> !db.row.status.Completed? && db.row.reservation == Reserved(amount))
  {}

  /** A cancellation gives back what the row holds. */
  predicate CancelFits(f: Funding, row: Meta, meta: Meta) {
    && !row.status.Completed?
    && Hold(f, row.reservation)
       == if meta.reservation.Reserved? then (if f.Swap? then f.source else 0, meta.reservation.amount) else (0, 0)
  }

  /** `cancelPending` works from metadata read before its transaction: when it goes through, the
      books go on if and only if the row holds what the metadata lets it release. */
  lemma CancelKeepsBooks(f: Funding, db: Db, meta: Meta)
    requires Good(f, db) && CancelTx(db, f, meta).Success?
    ensures Good(f, CancelTx(db, f, meta).value) <==> CancelFits(f, db.row, meta)
  {}

  /** A new row that copies a reservation holds nothing yet. */
  lemma CreatedRowKeepsBooks(f: Funding, db: Db, config: Meta)
    requires Good(f, db)
    ensures Good(f, db.(row := CreatedRow(config)))
      <==> !db.row.status.Completed? && Hold(f, config.reservation) == Hold(f, db.row.reservation)
  {}

  // ---------------------------------------------------------------- the settlement of a swap

  /** The exchange's swap handler takes the charge of this row for settled already. */
  predicate SkippedByHandler(row: Meta) {
    row.settled || row.reservation.Released?
  }
}
