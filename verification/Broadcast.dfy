/** The batched push broadcast: a recursion over batches of at most 500 device tokens, with the
    removal of the tokens that the provider reports as invalid. */
module Broadcast {
  import opened Wrappers

  const BATCH_SIZE: nat := 500

  datatype SendResult = Delivered | Refused(code: Option<string>, message: Option<string>)

  datatype Message = Message(tokens: seq<string>, image: Option<string>)

  /** What comes of one attempt: the send raises, or it answers for every token, and the removal
      of invalid tokens that may follow can raise too. */
  datatype Attempt = Raises | Answers(result: nat -> SendResult, cleanupRaises: bool)

  /** One call of the provider, as it happened. */
  datatype Sending =
    | Rejected(message: Message)
    | Answered(message: Message, results: seq<SendResult>, cleanupFailed: bool)

  // ---------------------------------------------------------------- batches

  function Batch(tokens: seq<string>): (b: seq<string>)
    ensures |b| <= BATCH_SIZE && b <= tokens
  {
    if |tokens| <= BATCH_SIZE then tokens else tokens[..BATCH_SIZE]
  }

  function Remaining(tokens: seq<string>): (r: seq<string>)
    ensures Batch(tokens) + r == tokens && (r != [] ==> |r| < |tokens| && |Batch(tokens)| == BATCH_SIZE)
  {
    if |tokens| <= BATCH_SIZE then [] else tokens[BATCH_SIZE..]
  }

  /** The messages of a broadcast that nothing interrupts; only the first one has the image. */
  function Messages(tokens: seq<string>, image: Option<string>): (ms: seq<Message>)
    ensures |ms| > 0
    ensures forall m :: m in ms ==> |m.tokens| <= 500 && (tokens != [] ==> m.tokens != [])
    ensures forall k :: 0 < k < |ms| ==> ms[k].image == None
    decreases |tokens|
  {
    [Message(Batch(tokens), image)]
    + if Remaining(tokens) == [] then [] else Messages(Remaining(tokens), None)
  }

  function AllTokens(ms: seq<Message>): seq<string> {
    if ms == [] then [] else ms[0].tokens + AllTokens(ms[1..])
  }

  /** Every token is in exactly one message, in order. */
  lemma {:induction false} MessagesCover(tokens: seq<string>, image: Option<string>)
    ensures AllTokens(Messages(tokens, image)) == tokens
    decreases |tokens|
  {
    var ms, rest := Messages(tokens, image), Remaining(tokens);
    if rest == [] {
      assert ms[1..] == [];
    } else {
      MessagesCover(rest, None);
      assert ms[1..] == Messages(rest, None);
    }
  }

  // ---------------------------------------------------------------- results

  function CountDelivered(rs: seq<SendResult>): (n: nat)
    ensures n <= |rs|
  {
    if rs == [] then 0 else (if rs[0].Delivered? then 1 else 0) + CountDelivered(rs[1..])
  }

  function DeliveredIn(log: seq<Sending>): nat {
    if log == [] then 0
    else (if log[0].Answered? then CountDelivered(log[0].results) else 0) + DeliveredIn(log[1..])
  }

  lemma {:induction false} CountLast(rs: seq<SendResult>, r: SendResult)
    ensures CountDelivered(rs + [r]) == CountDelivered(rs) + if r.Delivered? then 1 else 0
  {
    if rs == [] {
      assert rs + [r] == [r];
    } else {
      CountLast(rs[1..], r);
      assert (rs + [r])[1..] == rs[1..] + [r];
    }
  }

  /** `successCount` is the number of the tokens that were delivered. */
  lemma {:induction false} DeliveredAreCounted(rs: seq<SendResult>)
    ensures CountDelivered(rs) == |set i | 0 <= i < |rs| && rs[i].Delivered?|
  {
    var all := set i | 0 <= i < |rs| && rs[i].Delivered?;
    if rs == [] {
      assert all == {};
    } else {
      var n := |rs| - 1;
      var before := set i | 0 <= i < |rs[..n]| && rs[..n][i].Delivered?;
      DeliveredAreCounted(rs[..n]);
      CountLast(rs[..n], rs[n]);
      assert rs == rs[..n] + [rs[n]];
      assert all == before + if rs[n].Delivered? then {n} else {};
    }
  }

  const NOT_FOUND := "registration-token-not-registered"
  const INVALID_ARGUMENT := "invalid-argument"

  predicate Includes(s: string, part: string) {
    part <= s || (s != "" && Includes(s[1..], part))
  }

  /** The provider says that the token itself is bad. */
  predicate IsInvalid(r: SendResult) {
    r.Refused? && (
      r.code == Some(NOT_FOUND) || r.code == Some(INVALID_ARGUMENT)
      || (r.message.Some? && Includes(r.message.value, "invalid registration token")))
  }

  lemma {:induction false} IncludesPart(a: string, part: string, b: string)
    ensures Includes(a + part + b, part)
    decreases |a|
  {
    if a == "" {
      assert part <= a + part + b;
    } else {
      IncludesPart(a[1..], part, b);
      assert (a + part + b)[1..] == a[1..] + part + b;
    }
  }

  lemma {:induction false} PartOf(s: string, part: string) returns (a: string, b: string)
    requires Includes(s, part)
    ensures s == a + part + b
    decreases |s|
  {
    if part <= s {
      a, b := "", s[|part|..];
    } else {
      a, b := PartOf(s[1..], part);
      a := [s[0]] + a;
    }
  }

  lemma IncludesIff(s: string, part: string)
    ensures Includes(s, part) <==> exists a, b :: s == a + part + b
  {
    hide Includes;
    if Includes(s, part) { var a, b := PartOf(s, part); }
    if a, b :| s == a + part + b { IncludesPart(a, part, b); }
  }

  /** A token is taken for invalid exactly on one of the two codes, or when the message says so. */
  lemma IsInvalidIff(r: SendResult)
    ensures IsInvalid(r) <==>
      && r.Refused?
      && (|| r.code == Some("registration-token-not-registered") || r.code == Some("invalid-argument")
          || (r.message.Some? && exists a, b :: r.message.value == a + "invalid registration token" + b))
  {
    if r.Refused? && r.message.Some? { IncludesIff(r.message.value, "invalid registration token"); }
    hide Includes;
  }

  function InvalidAmong(tokens: seq<string>, results: seq<SendResult>): set<string>
    requires |tokens| == |results|
  {
    set i | 0 <= i < |tokens| && IsInvalid(results[i]) :: tokens[i]
  }

  predicate Complete(s: Sending) {
    s.Answered? ==> |s.results| == |s.message.tokens|
  }

  /** The exception that ends the recursion. */
  predicate Interrupts(s: Sending) {
    s.Rejected? || s.cleanupFailed
  }

  /** The tokens that the cleanup after one call removed. */
  function RemovedBy(s: Sending): set<string>
    requires Complete(s)
  {
    if Interrupts(s) then {} else InvalidAmong(s.message.tokens, s.results)
  }

  function RemovedIn(log: seq<Sending>): set<string>
    requires forall s :: s in log ==> Complete(s)
  {
    if log == [] then {} else RemovedBy(log[0]) + RemovedIn(log[1..])
  }

  /** A broadcast delivers what its answered calls deliver, and removes what the cleanups remove of
      the calls that interrupt nothing. */
  lemma {:induction false} TalliesAreSums(log: seq<Sending>, k: nat)
    requires k < |log| && Complete(log[k]) && forall s :: s in log ==> Complete(s)
    ensures DeliveredIn([]) == 0 && RemovedIn([]) == {}
    ensures var rest := log[..k] + log[k + 1..];
      var delivered := if log[k].Answered? then CountDelivered(log[k].results) else 0;
      var removed := if log[k].Answered? && !log[k].cleanupFailed
                     then InvalidAmong(log[k].message.tokens, log[k].results) else {};
      && (forall s :: s in rest ==> Complete(s))
      && DeliveredIn(log) == DeliveredIn(rest) + delivered && RemovedIn(log) == RemovedIn(rest) + removed
  {
    hide CountDelivered, InvalidAmong, Complete;
    var rest := log[..k] + log[k + 1..];
    if k == 0 {
      assert rest == log[1..];
    } else {
      TalliesAreSums(log[1..], k - 1);
      assert rest[0] == log[0] && rest[1..] == log[1..][..k - 1] + log[1..][k..];
      assert log[1..][k..] == log[k + 1..] && log[1..][k - 1] == log[k];
    }
  }

  // ---------------------------------------------------------------- a whole broadcast

  /** The calls that a broadcast of these messages may make: they follow the messages, and go on
      exactly as long as nothing is interrupted. */
  predicate Follows(log: seq<Sending>, ms: seq<Message>) {
    && 0 < |log| <= |ms|
    && (forall k :: 0 <= k < |log| ==> log[k].message == ms[k] && Complete(log[k]))
    && (forall k :: 0 <= k < |log| - 1 ==> !Interrupts(log[k]))
    && (|log| < |ms| ==> Interrupts(log[|log| - 1]))
  }

  /** The tokens counted twice: those of the batch whose cleanup raised. */
  function CountedTwice(log: seq<Sending>): nat
    requires log != []
  {
    var last := log[|log| - 1];
    if last.Answered? && last.cleanupFailed then |last.message.tokens| else 0
  }

  lemma FollowsOn(s: Sending, log: seq<Sending>, tokens: seq<string>, image: Option<string>)
    requires Remaining(tokens) != [] && Follows(log, Messages(Remaining(tokens), None))
    requires s.message == Message(Batch(tokens), image) && Complete(s) && !Interrupts(s)
    ensures Follows([s] + log, Messages(tokens, image))
  {
    hide Complete, Interrupts, Batch, Remaining, Messages;
    var rest := Messages(Remaining(tokens), None);
    UnfoldMessages(tokens, image);
    var all, ms := [s] + log, [s.message] + rest;
    assert forall k :: 0 < k < |all| ==> all[k] == log[k - 1] && ms[k] == rest[k - 1];
  }

  lemma UnfoldMessages(tokens: seq<string>, image: Option<string>)
    requires Remaining(tokens) != []
    ensures Messages(tokens, image) == [Message(Batch(tokens), image)] + Messages(Remaining(tokens), None)
  {}

  lemma FollowsComplete(log: seq<Sending>, ms: seq<Message>)
    requires Follows(log, ms)
    ensures log != [] && forall x :: x in log ==> Complete(x)
  {}

  lemma TalliesOn(s: Sending, log: seq<Sending>)
    requires log != [] && Complete(s) && forall x :: x in log ==> Complete(x)
    ensures forall x :: x in [s] + log ==> Complete(x)
    ensures CountedTwice([s] + log) == CountedTwice(log)
    ensures RemovedIn([s] + log) == RemovedBy(s) + RemovedIn(log)
    ensures DeliveredIn([s] + log) == (if s.Answered? then CountDelivered(s.results) else 0) + DeliveredIn(log)
  {
    hide Complete, Interrupts, RemovedBy, CountDelivered;
    assert ([s] + log)[1..] == log;
  }

  lemma FollowsOnce(s: Sending, tokens: seq<string>, image: Option<string>)
    requires s.message == Message(Batch(tokens), image) && Complete(s)
    requires Interrupts(s) || Remaining(tokens) == []
    ensures Follows([s], Messages(tokens, image))
    ensures forall x :: x in [s] ==> Complete(x)
    ensures RemovedIn([s]) == RemovedBy(s)
    ensures DeliveredIn([s]) == if s.Answered? then CountDelivered(s.results) else 0
    ensures CountedTwice([s]) == if s.Answered? && s.cleanupFailed then |Batch(tokens)| else 0
  {
    assert [s][1..] == [];
  }

  /** What a broadcast of these tokens did: its calls, its two counts and the tokens it removed. */
  ghost predicate BroadcastDone(log: seq<Sending>, log': seq<Sending>,
                                registered: set<string>, registered': set<string>,
                                tokens: seq<string>, image: Option<string>, success: int, failed: int) {
    && log <= log'
    && var calls := log'[|log|..];
    && Follows(calls, Messages(tokens, image))
    && success == DeliveredIn(calls)
    && success + failed == |tokens| + CountedTwice(calls)
    && registered' == registered - RemovedIn(calls)
  }

  /** The two counts add up to the number of tokens exactly if no cleanup raised; otherwise they
      exceed it by the length of one batch. */
  lemma CountsAddUp(log: seq<Sending>, log': seq<Sending>, registered: set<string>, registered': set<string>,
                    tokens: seq<string>, image: Option<string>, success: int, failed: int)
    requires tokens != [] && BroadcastDone(log, log', registered, registered', tokens, image, success, failed)
    ensures success + failed == |tokens| <==>
      forall k :: |log| <= k < |log'| ==> log'[k].Rejected? || !log'[k].cleanupFailed
    ensures |tokens| <= success + failed <= |tokens| + BATCH_SIZE
  {
    var calls, ms := log'[|log|..], Messages(tokens, image);
    var last := calls[|calls| - 1];
    assert last.message == ms[|calls| - 1];
    assert forall k :: |log| <= k < |log'| ==> log'[k] == calls[k - |log|];
  }

  lemma DoneOnce(log: seq<Sending>, s: Sending, registered: set<string>,
                 tokens: seq<string>, image: Option<string>, success: nat, failed: nat)
    requires s.message == Message(Batch(tokens), image) && Complete(s)
    requires Interrupts(s) || Remaining(tokens) == []
    requires success == if s.Answered? then CountDelivered(s.results) else 0
    requires failed == (if s.Answered? then |s.results| - success else 0)
                       + if Interrupts(s) then |Remaining(tokens)| + |Batch(tokens)| else 0
    ensures BroadcastDone(log, log + [s], registered, registered - RemovedBy(s), tokens, image, success, failed)
  {
    hide Follows, Messages, RemovedIn, RemovedBy, DeliveredIn, CountedTwice, Batch, Remaining, CountDelivered;
    FollowsOnce(s, tokens, image);
    assert (log + [s])[|log|..] == [s];
  }

  lemma DoneOn(log: seq<Sending>, s: Sending, log': seq<Sending>, registered: set<string>, registered': set<string>,
              tokens: seq<string>, image: Option<string>, restSuccess: nat, restFailed: nat, success: nat, failed: nat)
    requires s.message == Message(Batch(tokens), image) && Complete(s)
    requires !Interrupts(s) && Remaining(tokens) != []
    requires BroadcastDone(log + [s], log', registered - RemovedBy(s), registered',
                           Remaining(tokens), None, restSuccess, restFailed)
    requires success == CountDelivered(s.results) + restSuccess
    requires failed == |s.results| - CountDelivered(s.results) + restFailed
    ensures BroadcastDone(log, log', registered, registered', tokens, image, success, failed)
  {
    hide Follows, Messages, RemovedIn, RemovedBy, DeliveredIn, CountedTwice, Batch, Remaining, CountDelivered;
    var rest := log'[|log + [s]|..];
    FollowsOn(s, rest, tokens, image);
    FollowsComplete(rest, Messages(Remaining(tokens), None));
    TalliesOn(s, rest);
    assert log'[|log|..] == [s] + rest;
    assert log <= log';
  }

  class FirebaseMessaging {
    var initialized: bool
    /** The calls of the provider so far. */
    var log: seq<Sending>
    /** The tokens in the device table. */
    var registered: set<string>

    constructor (initialized: bool, registered: set<string>)
      ensures this.initialized == initialized && log == [] && this.registered == registered
    {
      this.initialized, this.registered, log := initialized, registered, [];
    }

    /** `handleSendResponse`; it raises when the table refuses the removal. */
    method HandleSendResponse(tokens: seq<string>, results: seq<SendResult>, refuses: bool)
      returns (raised: bool)
      requires |tokens| == |results|
      modifies `registered
      ensures raised <==> refuses && InvalidAmong(tokens, results) != {}
      ensures registered == if raised then old(registered) else old(registered) - InvalidAmong(tokens, results)
      ensures forall t :: t in registered <==>
        t in old(registered) && (raised || forall i :: 0 <= i < |tokens| && tokens[i] == t ==> !IsInvalid(results[i]))
    {
      var invalidTokens: seq<string> := [];
      for i := 0 to |results|
        invariant registered == old(registered)
        invariant forall t :: t in invalidTokens <==> t in InvalidAmong(tokens[..i], results[..i])
      {
        if IsInvalid(results[i]) { invalidTokens := invalidTokens + [tokens[i]]; }
        OneMore(tokens, results, i);
      }
      assert tokens[..|results|] == tokens && results[..|results|] == results;
      assert (set t | t in invalidTokens) == InvalidAmong(tokens, results);
      if |invalidTokens| > 0 {
        assert invalidTokens[0] in InvalidAmong(tokens, results);
        if refuses { return true; }
        registered := registered - set t | t in invalidTokens;
      } else {
        assert InvalidAmong(tokens, results) == {};
      }
      raised := false;
    }

    /** One batch: the call of the provider and, when it answered, the cleanup. */
    method Send(message: Message, attempt: Attempt) returns (call: Sending)
      modifies `log, `registered
      ensures log == old(log) + [call] && call.message == message && Complete(call)
      ensures call.Rejected? <==> attempt.Raises?
      ensures call.Answered? ==> forall i :: 0 <= i < |message.tokens| ==> call.results[i] == attempt.result(i)
      ensures call.Answered? ==>
        (call.cleanupFailed <==> attempt.cleanupRaises && InvalidAmong(message.tokens, call.results) != {})
      ensures registered == old(registered) - RemovedBy(call)
    {
      match attempt {
        case Raises =>
          call := Rejected(message);
        case Answers(result, cleanupRaises) =>
          var results := seq(|message.tokens|, i requires 0 <= i < |message.tokens| => result(i));
          var raised := HandleSendResponse(message.tokens, results, cleanupRaises);
          call := Answered(message, results, raised);
      }
      log := log + [call];
    }

    /** `sendBatchToTokens`.  Whatever goes wrong, no token is submitted twice, those submitted
        are whole batches from the front, and the two counts add up to the tokens, plus once more
        the batch whose cleanup raised. */
    method SendBatchToTokens(tokens: seq<string>, image: Option<string>, attempts: nat -> Attempt, level: nat)
      returns (success: nat, failed: nat)
      modifies this`log, this`registered
      ensures !initialized ==> success == 0 && failed == |tokens| && unchanged(this)
      ensures initialized ==> BroadcastDone(old(log), log, old(registered), registered, tokens, image, success, failed)
      decreases |tokens|
    {
      if !initialized { return 0, |tokens|; }
      hide BroadcastDone, Messages, RemovedBy, InvalidAmong, Batch, Remaining, CountDelivered;
      var batch, remaining := Batch(tokens), Remaining(tokens);
      success, failed := 0, 0;
      var call := Send(Message(batch, image), attempts(level));
      if call.Answered? {
        success := success + CountDelivered(call.results);
        failed := failed + |call.results| - CountDelivered(call.results);
      }
      if Interrupts(call) || |remaining| == 0 {
        if Interrupts(call) { failed := failed + |remaining| + |batch|; }
        DoneOnce(old(log), call, old(registered), tokens, image, success, failed);
        return;
      }
      var restSuccess, restFailed := SendBatchToTokens(remaining, None, attempts, level + 1);
      success, failed := success + restSuccess, failed + restFailed;
      DoneOn(old(log), call, log, old(registered), registered, tokens, image,
             restSuccess, restFailed, success, failed);
    }

    /** `broadcastNotification` from the device tokens that the query finds. */
    method BroadcastNotification(found: seq<string>, image: Option<string>, attempts: nat -> Attempt)
      returns (success: nat, failed: nat)
      modifies this`log, this`registered
      ensures !initialized || found == [] ==> success == 0 && log == old(log) && registered == old(registered)
      ensures initialized && found != [] ==>
        BroadcastDone(old(log), log, old(registered), registered, Distinct(found), image, success, failed)
    {
      if |found| == 0 { return 0, 0; }
      success, failed := SendBatchToTokens(Distinct(found), image, attempts, 0);
    }
  }

  lemma OneMore(tokens: seq<string>, results: seq<SendResult>, i: nat)
    requires |tokens| == |results| && i < |tokens|
    ensures InvalidAmong(tokens[..i + 1], results[..i + 1])
         == InvalidAmong(tokens[..i], results[..i]) + if IsInvalid(results[i]) then {tokens[i]} else {}
  {
    hide IsInvalid;
    var ts, rs := tokens[..i + 1], results[..i + 1];
    assert forall j :: 0 <= j < i ==> ts[j] == tokens[..i][j] && rs[j] == results[..i][j];
    assert ts[i] == tokens[i] && rs[i] == results[i];
  }

  // ---------------------------------------------------------------- each token once

  /** The first occurrence of each token, as `Array.from(new Set(...))` gives them. */
  function Distinct(s: seq<string>): (r: seq<string>)
    ensures forall t :: t in r <==> t in s
    ensures forall i, j :: 0 <= i < j < |r| ==> r[i] != r[j]
  {
    if s == [] then []
    else
      var r, last := Distinct(s[..|s| - 1]), s[|s| - 1];
      assert forall t :: t in s <==> t in s[..|s| - 1] || t == last;
      if last in r then r else r + [last]
  }

  /** Calls that follow the messages submit a prefix of the tokens, so each at most once; all of
      them exactly if no call before the last was interrupted. */
  lemma SubmittedOnce(log: seq<Sending>, tokens: seq<string>, image: Option<string>)
    requires tokens != [] && Follows(log, Messages(tokens, image))
    ensures var ms := Messages(tokens, image);
      && AllTokens(ms[..|log|]) <= tokens
      && (AllTokens(ms[..|log|]) == tokens <==> |log| == |ms|)
      && (AllTokens(ms[..|log|]) != tokens ==> var last := log[|log| - 1];
            last.Rejected? || (last.Answered? && last.cleanupFailed))
      && (|log| < |ms| ==> |AllTokens(ms[..|log|])| == 500 * |log|)
  {
    var ms := Messages(tokens, image);
    MessagesCover(tokens, image);
    AllTokensSplit(ms, |log|);
    if |log| < |ms| {
      FullBatches(tokens, image, |log|);
    } else {
      assert ms[..|log|] == ms;
    }
  }

  lemma {:induction false} AllTokensSplit(ms: seq<Message>, k: nat)
    requires k <= |ms|
    ensures AllTokens(ms) == AllTokens(ms[..k]) + AllTokens(ms[k..])
  {
    if k > 0 {
      AllTokensSplit(ms[1..], k - 1);
      assert ms[..k][0] == ms[0] && ms[..k][1..] == ms[1..][..k - 1] && ms[k..] == ms[1..][k - 1..];
    } else {
      assert ms[k..] == ms;
    }
  }

  lemma {:induction false} FullBatches(tokens: seq<string>, image: Option<string>, k: nat)
    requires tokens != [] && k < |Messages(tokens, image)|
    ensures |AllTokens(Messages(tokens, image)[..k])| == BATCH_SIZE * k < |tokens|
    decreases k
  {
    MoreMessages(tokens, image);
    hide *;
    if k > 0 {
      var ms, rest := Messages(tokens, image), Remaining(tokens);
      FullBatches(rest, None, k - 1);
      AllTokensCons(Message(Batch(tokens), image), Messages(rest, None)[..k - 1]);
      assert ms[..k] == [Message(Batch(tokens), image)] + Messages(rest, None)[..k - 1];
    } else {
      NoTokens();
      assert Messages(tokens, image)[..k] == [];
    }
  }

  lemma NoTokens()
    ensures AllTokens([]) == []
  {}

  lemma AllTokensCons(m: Message, ms: seq<Message>)
    ensures AllTokens([m] + ms) == m.tokens + AllTokens(ms)
  {
    assert ([m] + ms)[1..] == ms;
  }

  /** There is more than one message if and only if a whole batch does not take all tokens. */
  lemma MoreMessages(tokens: seq<string>, image: Option<string>)
    ensures |Messages(tokens, image)| > 1 <==> Remaining(tokens) != []
    ensures Remaining(tokens) != [] ==>
      && Messages(tokens, image) == [Message(Batch(tokens), image)] + Messages(Remaining(tokens), None)
      && |Batch(tokens)| == BATCH_SIZE && |tokens| == BATCH_SIZE + |Remaining(tokens)|
  {
    if Remaining(tokens) != [] { UnfoldMessages(tokens, image); }
  }
}
