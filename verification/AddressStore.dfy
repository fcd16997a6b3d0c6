/** The payment-address row as one worker's open transaction sees and writes it. */
module AddressStore {
  import opened Wrappers
  import opened PaymentAddress

  /** What the provider's call gives: an answer, possibly without an id, or an exception.  The
      write that records an exception may fail too. */
  datatype Provider = Answered(id: Option<string>) | Raised(recorded: bool)

  /** The protocol's state when a worker whose transaction is open reaches the slot. */
  function Solo(savepoints: bool, committed: Option<Row>, now: int): State {
    State(savepoints, committed, None, map[0 := Open], [], now)
  }

  /** The same statements as events of the protocol; what does not apply is passed over. */
  function Statements(now: int, provider: Provider): (es: seq<Event>)
    ensures |es| == 5
  {
    [At(now, 0, Insert(now)), At(now, 0, Find), At(now, 0, Check), At(now, 0, Swap(now)),
     At(now, 0, if provider.Answered? then Answer(provider.id) else Act.Fail(provider.recorded))]
  }

  /** The protocol's state after one worker's statements. */
  function SoloEnd(savepoints: bool, committed: Option<Row>, now: int, provider: Provider): State {
    Run(Solo(savepoints, committed, now), Statements(now, provider))
  }

  function SoloSteps(s: State, es: seq<Event>): State
    requires |es| == 5
  {
    Step(Step(Step(Step(Step(s, es[0]), es[1]), es[2]), es[3]), es[4])
  }

  lemma RunFive(s: State, es: seq<Event>)
    requires |es| == 5
    ensures Run(s, es) == SoloSteps(s, es)
  {
    hide Step, Plausible;
    var s1 := Step(s, es[0]);
    var s2 := Step(s1, es[1]);
    var s3 := Step(s2, es[2]);
    var s4 := Step(s3, es[3]);
    Unfold(s, es, 0, s1);
    Unfold(s1, es, 1, s2);
    Unfold(s2, es, 2, s3);
    Unfold(s3, es, 3, s4);
    Unfold(s4, es, 4, Step(s4, es[4]));
    assert es[0..] == es && es[5..] == [];
  }

  /** Where the worker is when it has gone through its first four statements. */
  predicate Claims(m: State, savepoints: bool, committed: Option<Row>, now: int, called: bool) {
    && m.savepoints == savepoints && m.committed == committed && |m.calls| == (if called then 1 else 0)
    && (if called
        then PhaseOf(m, 0) == Calling(0, true) && m.held == Some(Held(0, Row(Processing, None, now)))
        else PhaseOf(m, 0) == Returned(None, savepoints) && m.held.None?)
  }

  lemma SoloClaims(savepoints: bool, committed: Option<Row>, now: int)
    requires committed.Some? ==> (committed.value.status == Active ==> committed.value.id.Some?)
    ensures var s1 := Step(Solo(savepoints, committed, now), At(now, 0, Insert(now)));
      var m := Step(Step(Step(s1, At(now, 0, Find)), At(now, 0, Check)), At(now, 0, Swap(now)));
      Claims(m, savepoints, committed, now, Claimable(savepoints, committed, now))
  {}

  lemma SoloAnswers(m: State, savepoints: bool, committed: Option<Row>, now: int, provider: Provider)
    requires Claims(m, savepoints, committed, now, Claimable(savepoints, committed, now))
    ensures var act := if provider.Answered? then Answer(provider.id) else Act.Fail(provider.recorded);
      var t := Step(m, At(now, 0, act));
      var called := Claimable(savepoints, committed, now);
      && (t.calls != [] <==> called)
      && t.committed == committed
      && PhaseOf(t, 0).Returned?
      && (PhaseOf(t, 0).alive <==> savepoints || (called && provider != Raised(false)))
      && t.held == (if called && PhaseOf(t, 0).alive
                    then Some(Held(0, if provider.Answered? && provider.id.Some? then Row(Active, provider.id, now)
                                      else if provider.Raised? && provider.recorded then Row(Failed, None, now)
                                      else Row(Processing, None, now)))
                    else None)
  {
    hide Claimable;
  }

  lemma SoloEnds(savepoints: bool, committed: Option<Row>, now: int, provider: Provider)
    requires committed.Some? ==> (committed.value.status == Active ==> committed.value.id.Some?)
    ensures var t := SoloEnd(savepoints, committed, now, provider);
      var called := Claimable(savepoints, committed, now);
      && (t.calls != [] <==> called)
      && t.committed == committed
      && PhaseOf(t, 0).Returned?
      && (PhaseOf(t, 0).alive <==> savepoints || (called && provider != Raised(false)))
      && t.held == (if called && PhaseOf(t, 0).alive
                    then Some(Held(0, if provider.Answered? && provider.id.Some? then Row(Active, provider.id, now)
                                      else if provider.Raised? && provider.recorded then Row(Failed, None, now)
                                      else Row(Processing, None, now)))
                    else None)
  {
    var s, es := Solo(savepoints, committed, now), Statements(now, provider);
    RunFive(s, es);
    SoloClaims(savepoints, committed, now);
    hide Step, Run, Solo, Claimable;
    SoloAnswers(Step(Step(Step(Step(s, es[0]), es[1]), es[2]), es[3]), savepoints, committed, now, provider);
  }

  /** What the transaction of worker 0 has written, as the protocol holds it. */
  function Written(held: Option<Held>): Option<Row> {
    if held.Some? then Some(held.value.row) else None
  }

  /** The connection's fields are what the protocol says of worker 0 once its statements are done. */
  predicate Mirrors(t: State, committed: Option<Row>, written: Option<Row>, aborted: bool) {
    && t.committed == committed
    && Written(t.held) == written
    && (t.held.Some? ==> t.held.value.holder == 0)
    && PhaseOf(t, 0).Returned?
    && (aborted <==> !PhaseOf(t, 0).alive)
    && (aborted ==> written.None?)
  }

  /** One worker's connection.  `savepoints` says whether a failed statement spares the rest of
      the transaction; no other transaction holds the row. */
  class Connection {
    const savepoints: bool
    var committed: Option<Row>
    var written: Option<Row>
    var aborted: bool

    constructor (savepoints: bool, committed: Option<Row>)
      ensures this.savepoints == savepoints && this.committed == committed && written == None && !aborted
    {
      this.savepoints, this.committed := savepoints, committed;
      written, aborted := None, false;
    }

    predicate Fresh()
      reads this
    {
      written.None? && !aborted
    }

    method AbortTransaction()
      modifies `written, `aborted
      ensures aborted && written == None
    {
      written, aborted := None, true;
    }

    /** The insert.  When the row exists, the unique constraint fails the statement, and without
        savepoints everything else in the transaction with it. */
    method Create(now: int) returns (claimedSlot: bool)
      requires Fresh()
      modifies `written, `aborted
      ensures claimedSlot == committed.None?
      ensures written == if claimedSlot then Some(Row(Processing, None, now)) else None
      ensures aborted <==> !claimedSlot && !savepoints
    {
      if committed.Some? {
        if !savepoints { AbortTransaction(); }
        return false;
      }
      written := Some(Row(Processing, None, now));
      return true;
    }

    /** The conditional update of a stale slot, on the row as it was read. */
    method ClaimStale(read: Row, now: int) returns (count: nat)
      requires Fresh()
      modifies `written
      ensures count == 1 <==>
        committed.Some? && committed.value.updatedAt == read.updatedAt && Claimed(committed.value)
      ensures count <= 1
      ensures written == if count == 1 then Some(Row(Processing, None, now)) else None
    {
      if committed.Some? && committed.value.updatedAt == read.updatedAt
         && committed.value.status == Processing && committed.value.id.None? {
        written := Some(committed.value.(updatedAt := now));
        return 1;
      }
      return 0;
    }

    /** `ensurePaymentAddress`.  It calls the provider exactly if the slot is claimable; nothing is
        committed yet, and without savepoints an existing row ends the transaction. */
    method EnsurePaymentAddress(now: int, provider: Provider) returns (called: bool)
      requires Fresh()
      requires committed.Some? ==> (committed.value.status == Active ==> committed.value.id.Some?)
      modifies `written, `aborted
      ensures var t := SoloEnd(savepoints, committed, now, provider);
        (called <==> t.calls != []) && Mirrors(t, committed, written, aborted)
      ensures called <==> Claimable(savepoints, committed, now)
      ensures aborted <==> !savepoints && if called then provider == Raised(false) else true
      ensures !called || aborted ==> written == None
      ensures called && !aborted ==> written == Some(
        if provider.Answered? && provider.id.Some? then Row(Active, provider.id, now)
        else if provider.Raised? && provider.recorded then Row(Failed, None, now)
        else Row(Processing, None, now))
    {
      SoloEnds(savepoints, committed, now, provider);
      hide SoloEnd;
      var claimedSlot := Create(now);
      if !claimedSlot {
        if aborted { return false; }
        var addressRecord := committed.value;
        if addressRecord.status == Active && addressRecord.id.Some? { return false; }
        if addressRecord.status == Failed { return false; }
        if addressRecord.status == Processing && addressRecord.id.Some? { return false; }
        var ageMs := now - addressRecord.updatedAt;
        if ageMs < STALE_MS { return false; }
        var count := ClaimStale(addressRecord, now);
        if count == 0 { return false; }
      }
      match provider {
        case Answered(id) =>
          if id.Some? {
            written := Some(Row(Active, id, now));
          } else {
            written := Some(written.value.(updatedAt := now));
          }
        case Raised(recorded) =>
          if recorded {
            written := Some(written.value.(status := Failed, updatedAt := now));
          } else if !savepoints {
            AbortTransaction();
          }
      }
      return true;
    }

    /** The end of the transaction: what an aborted or rolled back one wrote is gone. */
    method EndTransaction(commit: bool)
      modifies this
      ensures forall t: State :: Mirrors(t, old(committed), old(written), old(aborted)) ==>
                                   committed == Step(t, At(t.clock, 0, if commit then Commit else Abort)).committed
      ensures committed == if commit && !old(aborted) && old(written).Some? then old(written) else old(committed)
      ensures Fresh()
    {
      if commit && !aborted && written.Some? { committed := written; }
      written, aborted := None, false;
    }
  }
}
