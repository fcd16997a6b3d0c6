/** The Redis keys of the dashboard and the two calls that rewrite them, each without overlap. */
module DashboardStore {
  import opened Wrappers
  import opened Dashboard
  import Amounts
  import Numerals

  const RECENT: nat := 5

  function FirstFive(rows: seq<string>): (r: seq<string>)
    ensures |r| <= RECENT && r <= rows
  {
    if |rows| <= RECENT then rows else rows[..RECENT]
  }

  /** `LPUSH` and then `LTRIM 0 4`. */
  function Pushed(recent: seq<string>, row: string): seq<string> {
    FirstFive([row] + recent)
  }

  function PushedAll(recent: seq<string>, rows: seq<string>): seq<string>
    decreases |rows|
  {
    if rows == [] then recent else PushedAll(Pushed(recent, rows[0]), rows[1..])
  }

  function Reversed(rows: seq<string>): (r: seq<string>)
    ensures |r| == |rows| && forall i :: 0 <= i < |rows| ==> r[i] == rows[|rows| - 1 - i]
  {
    if rows == [] then [] else Reversed(rows[1..]) + [rows[0]]
  }

  /** Trimming after every push shows the last five rows pushed, the latest first. */
  lemma {:induction false} LastFive(recent: seq<string>, rows: seq<string>)
    requires |recent| <= RECENT
    ensures var all := Reversed(rows) + recent;
      PushedAll(recent, rows) == FirstFive(all) == if |all| <= 5 then all else all[..5]
    decreases |rows|
  {
    if rows == [] {
      assert Reversed(rows) + recent == recent;
    } else {
      LastFive(Pushed(recent, rows[0]), rows[1..]);
      var before := Reversed(rows[1..]);
      assert Reversed(rows) + recent == before + ([rows[0]] + recent);
      FirstFiveOfFirstFive(before, [rows[0]] + recent);
    }
  }

  lemma FirstFiveOfFirstFive(a: seq<string>, b: seq<string>)
    ensures FirstFive(a + FirstFive(b)) == FirstFive(a + b)
  {}

  class Store {
    var lock: Option<Lease>
    var meta: Meta
    var recent: seq<string>

    constructor ()
      ensures lock == None && meta == map[] && recent == []
    {
      lock, meta, recent := None, map[], [];
    }

    /** `handleTransactionUpdate`: a call that finds the lock taken drops its transaction. */
    method HandleTransactionUpdate(t: Txn, row: string, now: int, call: nat) returns (counted: bool)
      modifies this
      ensures counted <==> old(lock).None? || old(lock).value.until <= now
      ensures counted ==> lock == None && Read(meta) == Plus(Read(old(meta)), t)
                          && meta == Updated(old(meta), t) && recent == Pushed(old(recent), row)
      ensures !counted ==> unchanged(this)
    {
      hide ReadValue, ReadCount, PrintValue, PrintCount, Increment, Read, Plus;
      var amount := if t.nairaAmountBase.Some? then t.nairaAmountBase.value else 0;
      counted := lock.None? || lock.value.until <= now;
      if !counted { return; }
      lock := Some(Lease(call, now + LOCK_MS));
      var totalValue := ParseValue(TotalValue);
      var dailyValue := ParseValue(DailyValue);
      var totalVolume, dailyVolume := ReadCount(meta, TotalVolume), ReadCount(meta, DailyVolume);
      totalValue := totalValue + amount;
      totalVolume := Increment(totalVolume);
      if t.today {
        dailyValue := dailyValue + amount;
        dailyVolume := Increment(dailyVolume);
      }
      UpdatedAdds(meta, t);
      Write(totalValue, dailyValue, totalVolume, dailyVolume);
      recent := [row] + recent;
      if |recent| > RECENT { recent := recent[..RECENT]; }
      if lock.Some? && lock.value.holder == call { lock := None; }
    }

    method ParseValue(f: Field) returns (kobo: int)
      ensures kobo == ReadValue(meta, f)
    {
      kobo := 0;
      if f in meta && meta[f] != "" {
        var parsed := Amounts.ToBase(meta[f], FIAT_DECIMALS);
        if parsed.Success? { kobo := parsed.value; }
      }
    }

    method Write(value: int, daily: int, volume: Option<nat>, dailyVolume: Option<nat>)
      modifies `meta
      ensures meta == old(meta)[TotalValue := PrintValue(value)][DailyValue := PrintValue(daily)]
                              [TotalVolume := PrintCount(volume)][DailyVolume := PrintCount(dailyVolume)]
    {
      meta := meta[TotalValue := PrintValue(value)];
      meta := meta[DailyValue := PrintValue(daily)];
      meta := meta[TotalVolume := PrintCount(volume)];
      meta := meta[DailyVolume := PrintCount(dailyVolume)];
    }

    /** `computeAndCacheStats` over the rows of the database, of which `newest` are the latest. */
    method ComputeAndCacheStats(rows: seq<Txn>, newest: seq<string>, now: int, call: nat) returns (rebuilt: bool)
      requires |newest| <= RECENT
      modifies this
      ensures rebuilt <==> old(lock).None? || old(lock).value.until <= now
      ensures rebuilt ==> lock == None && meta == Rebuilt(rows) && recent == newest
      ensures !rebuilt ==> unchanged(this)
    {
      rebuilt := lock.None? || lock.value.until <= now;
      if !rebuilt { return; }
      lock := Some(Lease(call, now + LOCK_MS));
      meta, recent := map[], [];
      Write(SumFiat(rows), SumFiat(Today(rows)),
            Some(CountCompleted(rows)), Some(CountCompleted(Today(rows))));
      for i := 0 to |newest|
        invariant recent == newest[..i]
        invariant lock == Some(Lease(call, now + LOCK_MS)) && meta == Rebuilt(rows)
      {
        recent := recent + [newest[i]];
      }
      if lock.Some? && lock.value.holder == call { lock := None; }
    }
  }
}
