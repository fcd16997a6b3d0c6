/** The rows that a bill payment updates in place, and one undisturbed call of `confirm`. */
module BillStore {
  import opened Wrappers
  import opened Pots
  import opened BillSaga
  import BillQuotes

  datatype StoredQuote = StoredQuote(userId: string, expiresAt: int, terms: Terms)

  datatype Refusal =
    | InvalidPin
    | QuoteNotFound
    | InvalidOwner
    | QuoteExpired
    | WalletNotFound
    | NetworkChanged
    | InsufficientFunds

  /** How `confirm` ends.  Unresolved means that the catch block itself failed. */
  datatype Confirmation =
    | RefusedEarly(why: Refusal)
    | Submitted
    | SubmittedForReconciliation
    | PaymentFailed
    | Unresolved

  /** The outcomes of the outside world, in the order in which `confirm` meets them. */
  datatype World = World(order: Order, persistOk: bool, deleteOk: bool, catchOk: bool, secondDeleteOk: bool)

  datatype WalletRow = WalletRow(defaultNetwork: Option<string>)

  /** The wallet rows as the first transaction finds them: that of the quote by its id, and the
      user's USDT wallet. */
  datatype WalletRows = WalletRows(ofQuote: Option<WalletRow>, ofUser: Option<WalletRow>)

  /** The same outcomes as events of the saga; what does not apply is passed over. */
  function Script(w: World): (es: seq<Event>)
    ensures |es| == 6
  {
    [Event.ReserveBoth, PlaceOrder(w.order), PersistReference(w.persistOk), DeleteQuote(w.deleteOk),
     Compensate(w.catchOk), DeleteQuote(w.secondDeleteOk)]
  }

  lemma RunSix(t: Terms, s: State, es: seq<Event>)
    requires |es| == 6
    ensures Run(t, s, es)
         == Step(t, Step(t, Step(t, Step(t, Step(t, Step(t, s, es[0]), es[1]), es[2]), es[3]), es[4]), es[5])
  {
    hide Step;
    var s1 := Step(t, s, es[0]);
    var s2 := Step(t, s1, es[1]);
    var s3 := Step(t, s2, es[2]);
    var s4 := Step(t, s3, es[3]);
    var s5 := Step(t, s4, es[4]);
    RunTail(t, s, es, 0);
    RunTail(t, s1, es, 1);
    RunTail(t, s2, es, 2);
    RunTail(t, s3, es, 3);
    RunTail(t, s4, es, 4);
    RunTail(t, s5, es, 5);
    assert es[0..] == es && es[6..] == [];
  }

  lemma RunTail(t: Terms, s: State, es: seq<Event>, k: nat)
    requires k < |es|
    ensures Run(t, s, es[k..]) == Run(t, Step(t, s, es[k]), es[k + 1..])
  {
    hide Step;
    assert es[k..][0] == es[k] && es[k..][1..] == es[k + 1..];
  }

  /** The saga's state at the end of one undisturbed confirmation. */
  function SagaEnd(t: Terms, user: Pot, company: Pot, w: World): State {
    Run(t, BillQuotes.Begun(user, company), Script(w))
  }

  lemma SagaEnds(t: Terms, user: Pot, company: Pot, w: World)
    requires 0 <= user.reserved && 0 <= company.reserved
    ensures var g := SagaEnd(t, user, company, w);
      var funds := user.total - user.reserved >= t.total && company.total - company.reserved >= t.fiat;
      var ack := Acknowledges(w.order.reply);
      var released := !ack && w.catchOk;
      var smooth := ack && w.persistOk && w.deleteOk;
      && (if funds && !released
          then g.user == Pot(user.total, user.reserved + t.total)
               && g.company == Pot(company.total, company.reserved + t.fiat)
          else g.user == user && g.company == company)
      && (g.quoteStored <==> !(funds && (smooth || (ack && w.catchOk && w.secondDeleteOk))))
      && g.row == if !funds then None else Some(Row(
           if smooth then Processing
           else if ack && w.catchOk then ReferencePersistFailed
           else if released then FailedOrderSubmit
           else if ack && w.persistOk then Processing
           else PendingOrder, !released))
  {
    RunSix(t, BillQuotes.Begun(user, company), Script(w));
    SagaReserves(t, user, company, w.order);
    var s := Step(t, Step(t, BillQuotes.Begun(user, company), Event.ReserveBoth), PlaceOrder(w.order));
    hide ReservePot, Run;
  }

  lemma SagaReserves(t: Terms, user: Pot, company: Pot, order: Order)
    ensures var s := Step(t, Step(t, BillQuotes.Begun(user, company), Event.ReserveBoth), PlaceOrder(order));
      if user.total - user.reserved < t.total || company.total - company.reserved < t.fiat
      then s == BillQuotes.Begun(user, company).(phase := Thrown)
      else s == State(
        if Acknowledges(order.reply) then Persisting else Catching, Some(Row(PendingOrder, true)),
        Pot(user.total, user.reserved + t.total), Pot(company.total, company.reserved + t.fiat), t.total, t.fiat,
        Some(order), Acknowledges(order.reply), false, true)
  {}

  class Store {
    var user: Pot
    var company: Pot
    var row: Option<Row>
    var quote: Option<StoredQuote>

    constructor (user: Pot, company: Pot, quote: Option<StoredQuote>)
      ensures this.user == user && this.company == company && row == None && this.quote == quote
    {
      this.user, this.company, this.quote := user, company, quote;
      row := None;
    }

    method ReserveBoth(terms: Terms) returns (ok: bool)
      modifies `user, `company, `row
      ensures ok <==> old(user).total - old(user).reserved >= terms.total
                      && old(company).total - old(company).reserved >= terms.fiat
      ensures ok ==> row == Some(Row(PendingOrder, true))
      ensures ok ==> user == old(user).(reserved := old(user).reserved + terms.total)
      ensures ok ==> company == old(company).(reserved := old(company).reserved + terms.fiat)
      ensures !ok ==> user == old(user) && company == old(company) && row == old(row)
    {
      if user.total - user.reserved < terms.total { return false; }
      if company.total - company.reserved < terms.fiat { return false; }
      user := user.(reserved := user.reserved + terms.total);
      company := company.(reserved := company.reserved + terms.fiat);
      row := Some(Row(PendingOrder, true));
      return true;
    }

    method ReleaseBoth(terms: Terms)
      requires row.Some?
      modifies `user, `company, `row
      ensures row == Some(Row(FailedOrderSubmit, false))
      ensures user == if old(user).reserved >= terms.total
                      then old(user).(reserved := old(user).reserved - terms.total) else old(user)
      ensures company == if old(company).reserved >= terms.fiat
                         then old(company).(reserved := old(company).reserved - terms.fiat) else old(company)
    {
      if user.reserved >= terms.total { user := user.(reserved := user.reserved - terms.total); }
      if company.reserved >= terms.fiat { company := company.(reserved := company.reserved - terms.fiat); }
      row := Some(Row(FailedOrderSubmit, false));
    }

    /** `confirm`.  It ends as the saga does on the same outcomes.  Unless it fails early, it reserved
        both balances; they stay reserved in every ending but PaymentFailed, which gives both back. */
    method Confirm(userId: string, pinOk: bool, now: int, wallets: WalletRows, world: World)
      returns (r: Confirmation)
      requires 0 <= user.reserved && 0 <= company.reserved
      modifies this
      ensures r.RefusedEarly? ==> user == old(user) && company == old(company) && row == old(row) && quote == old(quote)
      ensures r.RefusedEarly? <==>
        !pinOk || old(quote).None? || old(quote).value.userId != userId || now > old(quote).value.expiresAt
        || wallets.ofQuote.None? || wallets.ofUser != wallets.ofQuote
        || old(user).total - old(user).reserved < old(quote).value.terms.total
        || old(company).total - old(company).reserved < old(quote).value.terms.fiat
      ensures pinOk && old(quote).Some? && old(quote).value.userId == userId && now <= old(quote).value.expiresAt ==>
        && (r == RefusedEarly(WalletNotFound) <==> wallets.ofQuote.None? || wallets.ofUser.None?)
        && (r == RefusedEarly(NetworkChanged) <==>
              wallets.ofQuote.Some? && wallets.ofUser.Some? && wallets.ofUser != wallets.ofQuote)
        && (r == RefusedEarly(InsufficientFunds) <==>
              wallets.ofQuote.Some? && wallets.ofUser == wallets.ofQuote
              && (old(user).total - old(user).reserved < old(quote).value.terms.total
                  || old(company).total - old(company).reserved < old(quote).value.terms.fiat))
      ensures !r.RefusedEarly? || r.why.InsufficientFunds? ==>
        old(quote).Some? && var g := SagaEnd(old(quote).value.terms, old(user), old(company), world);
        && user == g.user && company == g.company
        && row == (if g.row.Some? then g.row else old(row)) && (quote.Some? <==> g.quoteStored)
      ensures !r.RefusedEarly? ==> row.Some?
      ensures !r.RefusedEarly? ==>
        var t := old(quote).value.terms;
        if row.value.reserved
        then user == old(user).(reserved := old(user).reserved + t.total)
             && company == old(company).(reserved := old(company).reserved + t.fiat)
        else user == old(user) && company == old(company)
      ensures !r.RefusedEarly? ==>
        (!row.value.reserved <==> !Acknowledges(world.order.reply) && world.catchOk)
      ensures r.PaymentFailed? <==> !r.RefusedEarly? && !Acknowledges(world.order.reply) && world.catchOk
      ensures r.Submitted? <==> !r.RefusedEarly? && Acknowledges(world.order.reply) && world.persistOk && world.deleteOk
      ensures r.SubmittedForReconciliation? <==>
        !r.RefusedEarly? && Acknowledges(world.order.reply) && !(world.persistOk && world.deleteOk)
        && world.catchOk && world.secondDeleteOk
      ensures r.Submitted? ==> row.value.billing == Processing
      ensures r.SubmittedForReconciliation? ==> row.value.billing == ReferencePersistFailed
      ensures r.PaymentFailed? ==> row.value.billing == FailedOrderSubmit
      ensures r.Submitted? || r.SubmittedForReconciliation? ==> quote == None
      ensures !r.Submitted? && !r.SubmittedForReconciliation? ==> quote == old(quote)
    {
      if !pinOk { return RefusedEarly(InvalidPin); }
      if quote.None? { return RefusedEarly(QuoteNotFound); }
      if quote.value.userId != userId { return RefusedEarly(InvalidOwner); }
      if now > quote.value.expiresAt { return RefusedEarly(QuoteExpired); }
      var terms := quote.value.terms;
      if wallets.ofQuote.None? || wallets.ofUser.None? { return RefusedEarly(WalletNotFound); }
      if wallets.ofUser.value.defaultNetwork != wallets.ofQuote.value.defaultNetwork { return RefusedEarly(NetworkChanged); }
      SagaEnds(terms, user, company, world);
      hide SagaEnd;
      var reserved := ReserveBoth(terms);
      if !reserved { return RefusedEarly(InsufficientFunds); }

      var quidaxOrderAccepted := false;
      var reply := world.order.reply;
      if !reply.Threw? && reply.status == "success" && reply.hasData {
        quidaxOrderAccepted := true;
        if world.persistOk {
          row := Some(row.value.(billing := Processing));
          if world.deleteOk {
            quote := None;
            return Submitted;
          }
        }
      }
      // the catch block
      if !world.catchOk { return Unresolved; }
      if quidaxOrderAccepted {
        row := Some(row.value.(billing := ReferencePersistFailed));
        if !world.secondDeleteOk { return Unresolved; }
        quote := None;
        return SubmittedForReconciliation;
      }
      ReleaseBoth(terms);
      return PaymentFailed;
    }
  }
}
