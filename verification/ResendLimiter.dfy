/** The limits on sending a one-time code again: two keys with a time to live, shared by the two
    endpoints.  Calls for one email run one at a time; each has its own instants, in ms. */
module ResendLimiter {
  import opened Wrappers

  const COOLDOWN_SECONDS := 60
  const MAX_PER_HOUR: nat := 5
  const RATE_TTL := 3600 * 1000
  const COOLDOWN_TTL := COOLDOWN_SECONDS * 1000

  /** How far a call that passes the checks gets before something raises. */
  datatype Progress = NotIssued | RateNotStored | StampNotStored | Completed

  /** One call: when it reads the two keys and the clock, writes the count, takes the stamp and
      writes it.  `admitted` says that the captcha and the email let it through. */
  datatype Call = Call(
    admitted: bool, progress: Progress,
    rateRead: int, lastRead: int, clock: int, rateWrite: int, stamp: int, lastWrite: int)

  datatype Rate = Rate(attempts: nat, until: int)

  datatype Last = Last(stamp: int, until: int)

  datatype Keys = Keys(rate: Option<Rate>, last: Option<Last>)

  function Attempts(k: Keys, now: int): nat {
    if k.rate.Some? && now < k.rate.value.until then k.rate.value.attempts else 0
  }

  function SecondsLeft(stamp: int, now: int): int {
    COOLDOWN_SECONDS - (now - stamp) / 1000
  }

  predicate Cooling(k: Keys, c: Call) {
    k.last.Some? && c.lastRead < k.last.value.until && SecondsLeft(k.last.value.stamp, c.clock) > 0
  }

  /** The checks let the call pass. */
  predicate Passes(k: Keys, c: Call) {
    c.admitted && Attempts(k, c.rateRead) < MAX_PER_HOUR && !Cooling(k, c)
  }

  predicate Sends(k: Keys, c: Call) {
    Passes(k, c) && c.progress.Completed?
  }

  function Counted(k: Keys, c: Call): Rate {
    Rate(Attempts(k, c.rateRead) + 1, c.rateWrite + RATE_TTL)
  }

  function Next(k: Keys, c: Call): Keys {
    if !Passes(k, c) || c.progress.NotIssued? || c.progress.RateNotStored? then k
    else if c.progress.StampNotStored? then k.(rate := Some(Counted(k, c)))
    else Keys(Some(Counted(k, c)), Some(Last(c.stamp, c.lastWrite + COOLDOWN_TTL)))
  }

  function Run(k: Keys, cs: seq<Call>): Keys
    decreases |cs|
  {
    if cs == [] then k else Run(Next(k, cs[0]), cs[1..])
  }

  function IfSends(k: Keys, c: Call): seq<Call> {
    if Sends(k, c) then [c] else []
  }

  /** The calls of a run that send a code, in order. */
  function SendsOf(k: Keys, cs: seq<Call>): seq<Call>
    decreases |cs|
  {
    if cs == [] then [] else IfSends(k, cs[0]) + SendsOf(Next(k, cs[0]), cs[1..])
  }

  predicate WellTimed(c: Call) {
    c.rateRead <= c.lastRead <= c.clock <= c.rateWrite <= c.stamp <= c.lastWrite
  }

  /** One call after the other, the first not before `from`. */
  predicate Sequential(from: int, cs: seq<Call>)
    decreases |cs|
  {
    cs == [] || (from <= cs[0].rateRead && WellTimed(cs[0]) && Sequential(cs[0].lastWrite, cs[1..]))
  }

  // ---------------------------------------------------------------- the cooldown

  /** `retryAfter` is the least number of whole seconds after which the cooldown lets a call pass. */
  lemma RetryAfterIsLeast(stamp: int, now: int, seconds: int)
    requires SecondsLeft(stamp, now) > 0
    ensures SecondsLeft(stamp, now + 1000 * seconds) <= 0 <==> seconds >= SecondsLeft(stamp, now)
    ensures stamp <= now ==> SecondsLeft(stamp, now) <= COOLDOWN_SECONDS
  {
    assert (now + 1000 * seconds - stamp) / 1000 == (now - stamp) / 1000 + seconds;
  }

  predicate SpacedFrom(stamp: Option<int>, sends: seq<Call>)
    decreases |sends|
  {
    sends == []
    || ((stamp.Some? ==> sends[0].clock >= stamp.value + COOLDOWN_TTL)
        && SpacedFrom(Some(sends[0].stamp), sends[1..]))
  }

  /** The cooldown key is the one of the last code sent. */
  predicate RemembersLast(k: Keys, last: Option<Call>) {
    if last.None? then k.last.None?
    else k.last == Some(Last(last.value.stamp, last.value.lastWrite + COOLDOWN_TTL))
  }

  lemma PassingIsLater(k: Keys, c: Call, last: Call)
    requires RemembersLast(k, Some(last)) && WellTimed(c) && WellTimed(last) && Passes(k, c)
    ensures c.clock >= last.stamp + COOLDOWN_TTL
  {
    var elapsed := c.clock - last.stamp;
    assert elapsed >= elapsed / 1000 * 1000;
  }

  function StampOf(last: Option<Call>): Option<int> {
    if last.Some? then Some(last.value.stamp) else None
  }

  lemma {:induction false} SendsSpacedFrom(k: Keys, from: int, cs: seq<Call>, last: Option<Call>)
    requires Sequential(from, cs) && RemembersLast(k, last) && (last.Some? ==> WellTimed(last.value))
    ensures SpacedFrom(StampOf(last), SendsOf(k, cs))
    decreases |cs|
  {
    if cs != [] {
      var c, n := cs[0], Next(k, cs[0]);
      var rest := SendsOf(n, cs[1..]);
      if Sends(k, c) {
        if last.Some? { PassingIsLater(k, c, last.value); }
        SendsSpacedFrom(n, c.lastWrite, cs[1..], Some(c));
        assert ([c] + rest)[1..] == rest;
      } else {
        SendsSpacedFrom(n, c.lastWrite, cs[1..], last);
        assert [] + rest == rest;
      }
    }
  }

  lemma {:induction false} SendsAreCalls(k: Keys, from: int, cs: seq<Call>)
    requires Sequential(from, cs)
    ensures forall c :: c in SendsOf(k, cs) ==> c in cs && WellTimed(c)
    decreases |cs|
  {
    if cs != [] { SendsAreCalls(Next(k, cs[0]), cs[0].lastWrite, cs[1..]); }
  }

  lemma {:induction false} SpacedPairs(stamp: Option<int>, sends: seq<Call>, i: nat, j: nat)
    requires SpacedFrom(stamp, sends) && i <= j < |sends| && forall c :: c in sends ==> WellTimed(c)
    ensures i < j ==> sends[j].clock - sends[i].stamp >= COOLDOWN_TTL * (j - i)
    ensures stamp.Some? ==> sends[i].clock >= stamp.value + COOLDOWN_TTL * (i + 1)
    decreases |sends|
  {
    assert WellTimed(sends[0]);
    if i > 0 {
      SpacedPairs(Some(sends[0].stamp), sends[1..], i - 1, j - 1);
    } else if j > 0 {
      SpacedPairs(Some(sends[0].stamp), sends[1..], j - 1, j - 1);
    }
  }

  const NO_KEYS := Keys(None, None)

  /** Over any run, whatever fails in it, codes are sent at least a minute apart, by their stamps as
      by the writes of their counts. */
  lemma SendsSpaced(from: int, cs: seq<Call>, i: nat, j: nat)
    requires Sequential(from, cs) && i <= j < |SendsOf(NO_KEYS, cs)|
    ensures var s := SendsOf(NO_KEYS, cs);
      && s[j].stamp - s[i].stamp >= COOLDOWN_TTL * (j - i)
      && s[j].rateWrite - s[i].rateWrite >= COOLDOWN_TTL * (j - i)
  {
    var s := SendsOf(NO_KEYS, cs);
    SendsSpacedFrom(NO_KEYS, from, cs, None);
    SendsAreCalls(NO_KEYS, from, cs);
    assert WellTimed(s[i]) && WellTimed(s[j]);
    SpacedPairs(None, s, i, j);
  }

  // ---------------------------------------------------------------- the hourly limit

  /** The next code was asked for before the count of the previous one expired. */
  predicate Quick(prev: Call, next: Call) {
    next.rateRead < prev.rateWrite + RATE_TTL
  }

  /** The number of last sends that followed each other quickly. */
  function Streak(sends: seq<Call>): nat {
    var n := |sends|;
    if n == 0 then 0
    else if n > 1 && Quick(sends[n - 2], sends[n - 1]) then Streak(sends[..n - 1]) + 1
    else 1
  }

  /** The count covers the streak, unless the last send is an hour old. */
  predicate Covers(k: Keys, now: int, past: seq<Call>) {
    past == []
    || (var written := past[|past| - 1].rateWrite;
        written <= now
        && (written + RATE_TTL <= now
            || (k.rate.Some? && Streak(past) <= k.rate.value.attempts && written + RATE_TTL <= k.rate.value.until)))
  }

  lemma StepCovers(k: Keys, from: int, c: Call, past: seq<Call>)
    requires Covers(k, from, past) && from <= c.rateRead && WellTimed(c)
    ensures Covers(Next(k, c), c.lastWrite, past + IfSends(k, c))
    ensures Sends(k, c) ==> Streak(past + [c]) <= MAX_PER_HOUR
  {
    var sent := past + [c];
    assert sent[..|sent| - 1] == past;
    assert past + [] == past;
    if past != [] { assert sent[|sent| - 2] == past[|past| - 1]; }
  }

  predicate ShortStreaks(sends: seq<Call>) {
    forall n :: 0 <= n <= |sends| ==> Streak(sends[..n]) <= MAX_PER_HOUR
  }

  lemma {:induction false} SendsHaveShortStreaks(k: Keys, from: int, cs: seq<Call>, past: seq<Call>)
    requires Sequential(from, cs) && Covers(k, from, past) && ShortStreaks(past)
    ensures ShortStreaks(past + SendsOf(k, cs))
    decreases |cs|
  {
    hide Streak, Covers, WellTimed, Next, Sends;
    if cs == [] {
      assert past + [] == past;
    } else {
      var c, n := cs[0], Next(k, cs[0]);
      var now, rest := past + IfSends(k, c), SendsOf(n, cs[1..]);
      StepCovers(k, from, c, past);
      assert ShortStreaks(now) by {
        forall m | 0 <= m <= |now| ensures Streak(now[..m]) <= MAX_PER_HOUR {
          if m <= |past| { assert now[..m] == past[..m]; } else { assert now[..m] == past + [c]; }
        }
      }
      SendsHaveShortStreaks(n, c.lastWrite, cs[1..], now);
      assert past + (IfSends(k, c) + rest) == now + rest;
    }
  }

  lemma {:induction false} QuickMakesStreak(sends: seq<Call>, m: nat)
    requires m < |sends| && forall i :: |sends| - 1 - m <= i < |sends| - 1 ==> Quick(sends[i], sends[i + 1])
    ensures Streak(sends) >= m + 1
    decreases m
  {
    if m > 0 {
      var n := |sends|;
      assert Quick(sends[n - 2], sends[n - 2 + 1]);
      QuickMakesStreak(sends[..n - 1], m - 1);
    }
  }

  lemma FindPause(s: seq<Call>, i: nat) returns (g: nat)
    requires ShortStreaks(s) && i + MAX_PER_HOUR < |s|
    ensures i <= g < i + MAX_PER_HOUR && !Quick(s[g], s[g + 1])
  {
    hide Streak, Quick;
    var six := s[..i + MAX_PER_HOUR + 1];
    if forall j :: i <= j < i + MAX_PER_HOUR ==> Quick(six[j], six[j + 1]) {
      QuickMakesStreak(six, MAX_PER_HOUR);
      assert false;
    }
    g :| i <= g < i + MAX_PER_HOUR && !Quick(six[g], six[g + 1]);
  }

  /** Among any six consecutive sends, one was asked for an hour or more after the count of the
      send before it was written. */
  lemma SomeLongPause(from: int, cs: seq<Call>, i: nat) returns (g: nat)
    requires Sequential(from, cs) && i + MAX_PER_HOUR < |SendsOf(NO_KEYS, cs)|
    ensures i <= g < i + MAX_PER_HOUR
    ensures var s := SendsOf(NO_KEYS, cs); s[g + 1].rateRead >= s[g].rateWrite + RATE_TTL
  {
    hide Sequential, SendsOf;
    var s := SendsOf(NO_KEYS, cs);
    assert ShortStreaks([]);
    SendsHaveShortStreaks(NO_KEYS, from, cs, []);
    assert [] + s == s;
    g := FindPause(s, i);
  }

  /** Six consecutive sends take more than an hour: the long pause and four minutes besides, from
      the write of one count to another. */
  lemma SixTakeAnHour(from: int, cs: seq<Call>, i: nat)
    requires Sequential(from, cs) && i + MAX_PER_HOUR < |SendsOf(NO_KEYS, cs)|
    ensures var s := SendsOf(NO_KEYS, cs);
      s[i + MAX_PER_HOUR].rateWrite - s[i].rateWrite >= RATE_TTL + (MAX_PER_HOUR - 1) * COOLDOWN_TTL
  {
    hide Sequential, SendsOf;
    var s := SendsOf(NO_KEYS, cs);
    var g := SomeLongPause(from, cs, i);
    SendsAreCalls(NO_KEYS, from, cs);
    SendsSpaced(from, cs, i, g);
    SendsSpaced(from, cs, g + 1, i + MAX_PER_HOUR);
    assert WellTimed(s[g + 1]);
  }

  /** So no 3600 seconds contain more than five sends, each taken at the write of its count. */
  lemma AtMostFiveInAnHour(from: int, cs: seq<Call>, start: int)
    requires Sequential(from, cs)
    ensures var s := SendsOf(NO_KEYS, cs);
      |set i | 0 <= i < |s| && start <= s[i].rateWrite <= start + RATE_TTL| <= MAX_PER_HOUR
  {
    hide Sequential, SendsOf;
    var s := SendsOf(NO_KEYS, cs);
    var within := set i | 0 <= i < |s| && start <= s[i].rateWrite <= start + RATE_TTL;
    if i :| i in within {
      var first := Least(within, i);
      forall j | j in within ensures j < first + MAX_PER_HOUR {
        if j >= first + MAX_PER_HOUR {
          SixTakeAnHour(from, cs, first);
          SendsSpaced(from, cs, first + MAX_PER_HOUR, j);
        }
      }
      var five := {first, first + 1, first + 2, first + 3, first + 4};
      assert within <= five;
      SubsetIsSmaller(within, five);
    }
  }

  lemma {:induction false} Least(s: set<int>, i: int) returns (least: int)
    requires i in s && forall x :: x in s ==> x >= 0
    ensures least in s && forall x :: x in s ==> least <= x
    decreases i
  {
    if j :| j in s && j < i {
      least := Least(s, j);
    } else {
      least := i;
    }
  }

  lemma {:induction false} SubsetIsSmaller<T>(a: set<T>, b: set<T>)
    requires a <= b
    ensures |a| <= |b|
    decreases a
  {
    if a != {} {
      var x :| x in a;
      SubsetIsSmaller(a - {x}, b - {x});
    }
  }

  // ---------------------------------------------------------------- who is let through

  /** The call writes its count. */
  predicate Counts(k: Keys, c: Call) {
    Passes(k, c) && (c.progress.Completed? || c.progress.StampNotStored?)
  }

  /** The calls of a run that write their count, in order. */
  function CountsOf(k: Keys, cs: seq<Call>): seq<Call>
    decreases |cs|
  {
    if cs == [] then [] else (if Counts(k, cs[0]) then [cs[0]] else []) + CountsOf(Next(k, cs[0]), cs[1..])
  }

  /** The keys are those of the last count and of the last send. */
  predicate Tracks(k: Keys, counted: seq<Call>, sent: seq<Call>) {
    && k.rate == (if counted == [] then None
                  else Some(Rate(Streak(counted), counted[|counted| - 1].rateWrite + RATE_TTL)))
    && RemembersLast(k, if sent == [] then None else Some(sent[|sent| - 1]))
  }

  lemma TracksOn(k: Keys, c: Call, counted: seq<Call>, sent: seq<Call>)
    requires Tracks(k, counted, sent)
    ensures Tracks(Next(k, c), counted + (if Counts(k, c) then [c] else []), sent + IfSends(k, c))
  {
    var all := counted + [c];
    assert all[..|all| - 1] == counted;
    if counted != [] { assert all[|all| - 2] == counted[|counted| - 1]; }
    assert counted + [] == counted && sent + [] == sent;
  }

  lemma {:induction false} TracksRun(k: Keys, cs: seq<Call>, counted: seq<Call>, sent: seq<Call>)
    requires Tracks(k, counted, sent)
    ensures Tracks(Run(k, cs), counted + CountsOf(k, cs), sent + SendsOf(k, cs))
    decreases |cs|
  {
    hide Tracks, Next, Counts, Sends;
    if cs == [] {
      assert counted + [] == counted && sent + [] == sent;
    } else {
      var c, n := cs[0], Next(k, cs[0]);
      var one := if Counts(k, c) then [c] else [];
      TracksOn(k, c, counted, sent);
      TracksRun(n, cs[1..], counted + one, sent + IfSends(k, c));
      assert counted + (one + CountsOf(n, cs[1..])) == counted + one + CountsOf(n, cs[1..]);
      assert sent + (IfSends(k, c) + SendsOf(n, cs[1..])) == sent + IfSends(k, c) + SendsOf(n, cs[1..]);
    }
  }

  lemma {:induction false} StreakIff(s: seq<Call>, m: nat)
    ensures Streak(s) > m <==>
      m < |s| && forall i :: |s| - 1 - m <= i < |s| - 1 ==> Quick(s[i], s[i + 1])
    decreases |s|
  {
    var n := |s|;
    if n > 0 && m > 0 {
      var t := s[..n - 1];
      StreakIff(t, m - 1);
      if n > 1 { assert s[n - 2 + 1] == s[n - 1]; }
      assert forall i :: 0 <= i < n - 2 && Quick(t[i], t[i + 1]) ==> Quick(s[i], s[i + 1]);
    }
  }

  lemma TracksFromStart(cs: seq<Call>)
    ensures Tracks(Run(NO_KEYS, cs), CountsOf(NO_KEYS, cs), SendsOf(NO_KEYS, cs))
  {
    assert Tracks(NO_KEYS, [], []);
    TracksRun(NO_KEYS, cs, [], []);
    hide *;
    assert [] + CountsOf(NO_KEYS, cs) == CountsOf(NO_KEYS, cs) && [] + SendsOf(NO_KEYS, cs) == SendsOf(NO_KEYS, cs);
  }

  /** An hour lay between the count of one of the last five calls counted and the next one. */
  predicate PauseAmongFive(counted: seq<Call>) {
    || |counted| < 5
    || exists g :: |counted| - 5 <= g < |counted| - 1 && counted[g + 1].rateRead >= counted[g].rateWrite + 3_600_000
  }

  /** Exactly which call sends a code, after any run: it is admitted and nothing in it raises; fewer
      than five calls were counted, or an hour lies between two of the last five, or between the
      last of them and this one; and nothing was sent, or the last code is a minute old. */
  lemma SendsIff(cs: seq<Call>, c: Call)
    ensures var counted, sent := CountsOf(NO_KEYS, cs), SendsOf(NO_KEYS, cs);
      Sends(Run(NO_KEYS, cs), c) <==>
        && c.admitted && c.progress.Completed?
        && (PauseAmongFive(counted) || (counted != [] && c.rateRead >= counted[|counted| - 1].rateWrite + 3_600_000))
        && (sent == [] || c.lastRead >= sent[|sent| - 1].lastWrite + 60_000
            || c.clock >= sent[|sent| - 1].stamp + 60_000)
  {
    hide *;
    var counted, sent := CountsOf(NO_KEYS, cs), SendsOf(NO_KEYS, cs);
    TracksFromStart(cs);
    BelowLimitIff(Run(NO_KEYS, cs), counted, sent, c.rateRead);
    NotCoolingIff(Run(NO_KEYS, cs), counted, sent, c);
    SendsMeans(Run(NO_KEYS, cs), c);
  }

  lemma SendsMeans(k: Keys, c: Call)
    ensures Sends(k, c) <==> c.admitted && c.progress.Completed? && Attempts(k, c.rateRead) < 5 && !Cooling(k, c)
  {}

  lemma BelowLimitIff(k: Keys, counted: seq<Call>, sent: seq<Call>, now: int)
    requires Tracks(k, counted, sent)
    ensures Attempts(k, now) < 5 <==>
      PauseAmongFive(counted) || (counted != [] && now >= counted[|counted| - 1].rateWrite + 3_600_000)
  {
    StreakIff(counted, 4);
    PauseIff(counted);
    hide Streak, PauseAmongFive, RemembersLast;
  }

  lemma NotCoolingIff(k: Keys, counted: seq<Call>, sent: seq<Call>, c: Call)
    requires Tracks(k, counted, sent)
    ensures !Cooling(k, c) <==>
      sent == [] || c.lastRead >= sent[|sent| - 1].lastWrite + 60_000 || c.clock >= sent[|sent| - 1].stamp + 60_000
  {
    if sent != [] { CoolingIff(sent[|sent| - 1].stamp, c.clock); }
    hide SecondsLeft, Streak;
  }

  lemma PauseIff(counted: seq<Call>)
    ensures PauseAmongFive(counted) <==>
      !(4 < |counted| && forall i :: |counted| - 1 - 4 <= i < |counted| - 1 ==> Quick(counted[i], counted[i + 1]))
  {}

  lemma CoolingIff(stamp: int, now: int)
    ensures SecondsLeft(stamp, now) > 0 <==> now < stamp + 60_000
  {}

  // ---------------------------------------------------------------- the endpoints

  datatype Reply = Refused | TooMany | Wait(retryAfter: int) | Sent | Raised

  /** The keys of one email and the two endpoints that share them. */
  class TempStore {
    var rate: Option<Rate>
    var last: Option<Last>

    constructor ()
      ensures State() == NO_KEYS
    {
      rate, last := None, None;
    }

    function State(): Keys
      reads this
    {
      Keys(rate, last)
    }

    /** `resendOtp`: an email that is already verified is refused. */
    method ResendOtp(verified: bool, c: Call) returns (reply: Reply)
      requires c.admitted <==> !verified
      modifies this
      ensures State() == Next(old(State()), c)
      ensures reply == Sent <==> Sends(old(State()), c)
      ensures reply.Wait? ==> State() == old(State()) && Cooling(State(), c)
                              && reply.retryAfter == SecondsLeft(State().last.value.stamp, c.clock) > 0
      ensures reply == TooMany ==> State() == old(State()) && Attempts(State(), c.rateRead) >= MAX_PER_HOUR
      ensures reply == Refused <==> verified
    {
      if verified { return Refused; }
      reply := Resend(c);
    }

    /** `resendOnboardingOtp`: the same, behind a captcha. */
    method ResendOnboardingOtp(captcha: bool, verified: bool, c: Call) returns (reply: Reply)
      requires c.admitted <==> captcha && !verified
      modifies this
      ensures State() == Next(old(State()), c)
      ensures reply == Sent <==> Sends(old(State()), c)
      ensures reply.Wait? ==> State() == old(State()) && Cooling(State(), c)
                              && reply.retryAfter == SecondsLeft(State().last.value.stamp, c.clock) > 0
      ensures reply == TooMany ==> State() == old(State()) && Attempts(State(), c.rateRead) >= MAX_PER_HOUR
      ensures reply == Refused <==> !captcha || verified
    {
      if !captcha { return Refused; }
      if verified { return Refused; }
      reply := Resend(c);
    }

    method Resend(c: Call) returns (reply: Reply)
      requires c.admitted
      modifies this
      ensures State() == Next(old(State()), c)
      ensures reply == Sent <==> Sends(old(State()), c)
      ensures reply.Wait? ==> State() == old(State()) && Cooling(State(), c)
                              && reply.retryAfter == SecondsLeft(State().last.value.stamp, c.clock) > 0
      ensures reply == TooMany ==> State() == old(State()) && Attempts(State(), c.rateRead) >= MAX_PER_HOUR
      ensures reply != Refused
    {
      var attempts := if rate.Some? && c.rateRead < rate.value.until then rate.value.attempts else 0;
      if attempts >= MAX_PER_HOUR { return TooMany; }
      if last.Some? && c.lastRead < last.value.until {
        var secondsLeft := COOLDOWN_SECONDS - (c.clock - last.value.stamp) / 1000;
        if secondsLeft > 0 { return Wait(secondsLeft); }
      }
      if c.progress.NotIssued? { return Raised; }
      attempts := attempts + 1;
      if c.progress.RateNotStored? { return Raised; }
      rate := Some(Rate(attempts, c.rateWrite + RATE_TTL));
      if c.progress.StampNotStored? { return Raised; }
      last := Some(Last(c.stamp, c.lastWrite + COOLDOWN_SECONDS * 1000));
      reply := Sent;
    }
  }
}
