/** The relayer: which logged events it forwards to the other chain, and with what amounts. */
module Relayer {
  import opened Numbers
  import opened HexCodec

  /** A deposit or withdrawal event as parsed from a line of a transaction's log, whichever program printed
      it; the token of a deposit is not used. */
  datatype Event = Event(nonce: u64, recipient: seq<byte>, amount: u64)

  /** An instruction submitted to the other chain, and whether one of its attempts was confirmed. */
  datatype Request = Request(nonce: u64, recipient: Key, amount: u64, confirmed: bool)

  datatype Direction = Deposits | Burns

  /** L1 amounts have three decimals fewer; one that does not fit after scaling is passed on unscaled. */
  function ToL2(amount: u64): u64 {
    if amount * 1_000 <= U64_MAX then amount * 1_000 else amount
  }

  function ToL1(amount: u64): u64 {
    amount / 1_000
  }

  function Converted(d: Direction, amount: u64): u64 {
    if d.Deposits? then ToL2(amount) else ToL1(amount)
  }

  // ---------- Retries ----------

  /** Milliseconds slept after failed attempt number `attempt`. */
  function Delay(attempt: nat): nat {
    if attempt == 0 then 1_000 else Min(Delay(attempt - 1) * 2, 60_000)
  }

  /** Tries until an attempt is confirmed, at most `maxRetries` times. */
  method RetryWithBackoff(outcomes: seq<bool>, maxRetries: nat) returns (confirmed: bool, slept: seq<nat>)
    requires |outcomes| == maxRetries
    ensures confirmed <==> true in outcomes
    ensures confirmed ==> |slept| < maxRetries && outcomes[|slept|] && forall i :: 0 <= i < |slept| ==> !outcomes[i]
    ensures !confirmed && maxRetries > 0 ==> |slept| == maxRetries - 1
    ensures forall i :: 0 <= i < |slept| ==> slept[i] == Delay(i)
  {
    var delay := 1_000;
    slept := [];
    for attempt := 0 to maxRetries
      invariant |slept| == attempt && delay == Delay(attempt) && (attempt < maxRetries || maxRetries == 0)
      invariant forall i :: 0 <= i < attempt ==> !outcomes[i] && slept[i] == Delay(i)
    {
      if outcomes[attempt] { return true, slept; }
      if attempt == maxRetries - 1 { return false, slept; }
      slept := slept + [delay];
      delay := Min(delay * 2, 60_000);
    }
    confirmed := false;
  }

  // ---------- Polling ----------

  /** A poll so far; `crashed` once a text could not even be cut into pairs. */
  datatype Poll = Poll(last: u64, requests: seq<Request>, relayed: nat, crashed: bool)

  function Handle(p: Poll, d: Direction, e: Event, confirmed: bool): Poll {
    if p.crashed || e.nonce <= p.last then p
    else
      match Decoded(e.recipient)
      case Err(Panic) => p.(crashed := true)
      case Err(Unreadable) => p
      case Ok(recipient) =>
        var request := Request(e.nonce, recipient, Converted(d, e.amount), confirmed);
        p.(last := if confirmed then e.nonce else p.last, requests := p.requests + [request],
           relayed := if confirmed then p.relayed + 1 else p.relayed)
  }

  /** One poll over the events in the order met; `confirms[i]` is the outcome of submitting event i, if it is. */
  function Polled(last: u64, d: Direction, events: seq<Event>, confirms: seq<bool>): Poll
    requires |events| == |confirms|
    decreases |events|
  {
    if events == [] then Poll(last, [], 0, false) else
      var n := |events| - 1;
      Handle(Polled(last, d, events[..n], confirms[..n]), d, events[n], confirms[n])
  }

  class State {
    var lastDepositNonce: u64
    var lastBurnNonce: u64

    constructor (deposit: u64, burn: u64)
      ensures lastDepositNonce == deposit && lastBurnNonce == burn
    {
      lastDepositNonce, lastBurnNonce := deposit, burn;
    }

    method PollL1Deposits(events: seq<Event>, confirms: seq<bool>)
      returns (requests: seq<Request>, relayed: nat, crashed: bool)
      requires |events| == |confirms|
      modifies this`lastDepositNonce
      ensures Poll(lastDepositNonce, requests, relayed, crashed)
              == Polled(old(lastDepositNonce), Deposits, events, confirms)
    {
      requests, relayed, crashed := [], 0, false;
      for i := 0 to |events|
        invariant Poll(lastDepositNonce, requests, relayed, crashed)
                  == Polled(old(lastDepositNonce), Deposits, events[..i], confirms[..i])
        invariant !crashed
      {
        assert events[..i + 1][..i] == events[..i] && confirms[..i + 1][..i] == confirms[..i];
        if events[i].nonce <= lastDepositNonce { continue; }
        var recipient := HexToPubkey(events[i].recipient);
        if recipient == Err(Panic) {
          CrashStays(old(lastDepositNonce), Deposits, events, confirms, i + 1);
          return requests, relayed, true;
        }
        if recipient.Err? { continue; }
        var amount: u64 := if events[i].amount * 1_000 <= U64_MAX then events[i].amount * 1_000 else events[i].amount;
        requests := requests + [Request(events[i].nonce, recipient.value, amount, confirms[i])];
        if confirms[i] {
          lastDepositNonce, relayed := events[i].nonce, relayed + 1;
        }
      }
      assert events[..|events|] == events && confirms[..|events|] == confirms;
    }

    method PollL2Burns(events: seq<Event>, confirms: seq<bool>)
      returns (requests: seq<Request>, relayed: nat, crashed: bool)
      requires |events| == |confirms|
      modifies this`lastBurnNonce
      ensures Poll(lastBurnNonce, requests, relayed, crashed) == Polled(old(lastBurnNonce), Burns, events, confirms)
    {
      requests, relayed, crashed := [], 0, false;
      for i := 0 to |events|
        invariant Poll(lastBurnNonce, requests, relayed, crashed)
                  == Polled(old(lastBurnNonce), Burns, events[..i], confirms[..i])
        invariant !crashed
      {
        assert events[..i + 1][..i] == events[..i] && confirms[..i + 1][..i] == confirms[..i];
        if events[i].nonce <= lastBurnNonce { continue; }
        var recipient := HexToPubkey(events[i].recipient);
        if recipient == Err(Panic) {
          CrashStays(old(lastBurnNonce), Burns, events, confirms, i + 1);
          return requests, relayed, true;
        }
        if recipient.Err? { continue; }
        requests := requests + [Request(events[i].nonce, recipient.value, events[i].amount / 1_000, confirms[i])];
        if confirms[i] {
          lastBurnNonce, relayed := events[i].nonce, relayed + 1;
        }
      }
      assert events[..|events|] == events && confirms[..|events|] == confirms;
    }
  }

  lemma {:induction false} CrashStays(last: u64, d: Direction, events: seq<Event>, confirms: seq<bool>, n: nat)
    requires |events| == |confirms| && n <= |events| && Polled(last, d, events[..n], confirms[..n]).crashed
    ensures Polled(last, d, events, confirms) == Polled(last, d, events[..n], confirms[..n])
    decreases |events|
  {
    if n == |events| {
      assert events[..n] == events && confirms[..n] == confirms;
    } else {
      var m := |events| - 1;
      assert events[..m][..n] == events[..n] && confirms[..m][..n] == confirms[..n];
      CrashStays(last, d, events[..m], confirms[..m], n);
    }
  }

  /** The nonce filter: nothing at or below the last relayed nonce is ever requested, so never nonce 0, and
      after a confirmed request only higher nonces are. */
  lemma {:induction false} RequestsClimb(last: u64, d: Direction, events: seq<Event>, confirms: seq<bool>)
    requires |events| == |confirms|
    ensures var p := Polled(last, d, events, confirms);
            && p.last >= last
            && (forall r | r in p.requests :: r.nonce > last && (r.confirmed ==> r.nonce <= p.last))
            && forall i, j | 0 <= i < j < |p.requests| && p.requests[i].confirmed ::
                 p.requests[i].nonce < p.requests[j].nonce
    decreases |events|
  {
    if events != [] {
      var n := |events| - 1;
      RequestsClimb(last, d, events[..n], confirms[..n]);
      var before := Polled(last, d, events[..n], confirms[..n]);
      var p := Polled(last, d, events, confirms);
      forall i, j | 0 <= i < j < |p.requests| && p.requests[i].confirmed
        ensures p.requests[i].nonce < p.requests[j].nonce
      {
        assert p.requests[i] in before.requests;
      }
    }
  }

  /** Which events of a poll were relayed. */
  function Relays(last: u64, d: Direction, events: seq<Event>, confirms: seq<bool>): (r: seq<nat>)
    requires |events| == |confirms|
    ensures forall i | i in r :: i < |events|
    decreases |events|
  {
    if events == [] then [] else
      var n := |events| - 1;
      Relays(last, d, events[..n], confirms[..n])
      + (if Polled(last, d, events, confirms).relayed > Polled(last, d, events[..n], confirms[..n]).relayed
         then [n] else [])
  }

  /** The relayed events are met in order, and the last nonce is that of the latest. */
  lemma {:induction false} LatestRelaySetsTheNonce(last: u64, d: Direction, events: seq<Event>, confirms: seq<bool>)
    requires |events| == |confirms|
    ensures var p, relays := Polled(last, d, events, confirms), Relays(last, d, events, confirms);
            && p.relayed == |relays|
            && (relays == [] ==> p.last == last)
            && (relays != [] ==> relays[|relays| - 1] in relays && p.last == events[relays[|relays| - 1]].nonce)
    decreases |events|
  {
    if events != [] {
      var n := |events| - 1;
      LatestRelaySetsTheNonce(last, d, events[..n], confirms[..n]);
      var before := Relays(last, d, events[..n], confirms[..n]);
      if before != [] {
        assert before[|before| - 1] in before && before[|before| - 1] < n;
      }
    }
  }

  ghost predicate OneTransaction(relays: seq<nat>, tx: seq<nat>) {
    && (forall i | i in relays :: i < |tx|)
    && (forall i, j | i in relays && j in relays :: tx[i] == tx[j])
  }

  /** The node lists transactions newest first, and `tx[i]` is the place of event i's transaction in that
      list: events of a later place have lower nonces. Then all events one poll relays are of one
      transaction; those of all older ones fall to the filter, whatever the order inside a transaction. */
  lemma {:induction false} NewestFirstRelaysOneTransaction(
      last: u64, d: Direction, events: seq<Event>, confirms: seq<bool>, tx: seq<nat>)
    requires |events| == |confirms| == |tx|
    requires forall i, j :: 0 <= i < j < |tx| ==> tx[i] <= tx[j]
    requires forall i, j :: 0 <= i < j < |tx| && tx[i] < tx[j] ==> events[i].nonce > events[j].nonce
    ensures OneTransaction(Relays(last, d, events, confirms), tx)
    decreases |events|
  {
    if events != [] {
      var n := |events| - 1;
      var before := Relays(last, d, events[..n], confirms[..n]);
      LatestRelaySetsTheNonce(last, d, events[..n], confirms[..n]);
      NewestFirstRelaysOneTransaction(last, d, events[..n], confirms[..n], tx[..n]);
      assert OneTransaction(before, tx) by {
        forall i, j | i in before && j in before
          ensures i < n && tx[i] == tx[j]
        {
          assert tx[..n][i] == tx[..n][j];
        }
      }
      if Relays(last, d, events, confirms) != before {
        RelayJoins(before, tx, n, events, Polled(last, d, events[..n], confirms[..n]).last);
      }
    }
  }

  /** An event that passes the filter after others of its poll shares their transaction. */
  lemma RelayJoins(before: seq<nat>, tx: seq<nat>, n: nat, events: seq<Event>, last: u64)
    requires |events| == |tx| == n + 1 && OneTransaction(before, tx) && (forall i | i in before :: i < n)
    requires forall i, j :: 0 <= i < j < |tx| ==> tx[i] <= tx[j]
    requires forall i, j :: 0 <= i < j < |tx| && tx[i] < tx[j] ==> events[i].nonce > events[j].nonce
    requires before != [] ==> before[|before| - 1] < n && last == events[before[|before| - 1]].nonce
    requires events[n].nonce > last
    ensures OneTransaction(before + [n], tx)
  {
    if before != [] {
      var latest := before[|before| - 1];
      assert latest in before && tx[latest] == tx[n];
    }
  }

  // ---------- What is requested ----------

  /** What an amount becomes on the other chain: a thousand times as much, unless that does not fit, or a thousandth,
      rounded down. */
  predicate IsConverted(d: Direction, amount: u64, converted: u64) {
    match d
    case Deposits => if 1_000 * amount <= U64_MAX then converted == 1_000 * amount else converted == amount
    case Burns => 1_000 * converted <= amount < 1_000 * converted + 1_000
  }

  /** A request says of one event what it said: its nonce, the key its text reads as, and its amount, converted. */
  ghost predicate Reports(d: Direction, e: Event, confirmed: bool, r: Request) {
    && r.nonce == e.nonce && Reads(e.recipient, r.recipient) && IsConverted(d, e.amount, r.amount)
    && r.confirmed == confirmed
  }

  /** The events requested in a poll, in the order of their requests. */
  function Requested(last: u64, d: Direction, events: seq<Event>, confirms: seq<bool>): (r: seq<nat>)
    requires |events| == |confirms|
    ensures forall i | i in r :: i < |events|
    decreases |events|
  {
    if events == [] then [] else
      var n := |events| - 1;
      Requested(last, d, events[..n], confirms[..n])
      + (if |Polled(last, d, events, confirms).requests| > |Polled(last, d, events[..n], confirms[..n]).requests|
         then [n] else [])
  }

  lemma HandledExactly(p: Poll, d: Direction, e: Event, confirmed: bool, key: Key)
    ensures var p' := Handle(p, d, e, confirmed);
            && p'.last == (if p'.relayed > p.relayed then e.nonce else p.last)
            && (p'.relayed > p.relayed <==> p'.requests != p.requests && confirmed) && p'.relayed <= p.relayed + 1
            && (p'.requests == p.requests
                || (|p'.requests| == |p.requests| + 1 && p'.requests[..|p.requests|] == p.requests
                    && Reports(d, e, confirmed, p'.requests[|p.requests|])))
            && (!p.crashed && e.nonce > p.last && Reads(e.recipient, key) ==> |p'.requests| > |p.requests|)
            && (p'.crashed <==> p.crashed || (e.nonce > p.last && Decoded(e.recipient) == Err(Panic)))
  {
    DecodedExactlyWhen(e.recipient, key);
    if Decoded(e.recipient).Ok? {
      DecodedExactlyWhen(e.recipient, Decoded(e.recipient).value);
    }
    DivBounds(e.amount, 1_000);
  }

  /** Every request of a poll reports one of its events, no two the same one and all in the order met. */
  lemma {:induction false} RequestsReportEvents(last: u64, d: Direction, events: seq<Event>, confirms: seq<bool>)
    requires |events| == |confirms|
    ensures var requests, sources := Polled(last, d, events, confirms).requests, Requested(last, d, events, confirms);
            && |requests| == |sources|
            && (forall i, j | 0 <= i < j < |sources| :: sources[i] < sources[j])
            && forall k | 0 <= k < |requests| ::
                 0 <= sources[k] < |events| && Reports(d, events[sources[k]], confirms[sources[k]], requests[k])
    decreases |events|
  {
    if events != [] {
      var n := |events| - 1;
      RequestsReportEvents(last, d, events[..n], confirms[..n]);
      HandledExactly(Polled(last, d, events[..n], confirms[..n]), d, events[n], confirms[n], ZERO);
    }
  }

  const ZERO: Key := seq(32, _ => 0)

  /** An event is requested exactly if, when it is met, the relayer has not been stopped, the event's nonce is above
      the last one relayed and its text reads as a key. */
  lemma {:induction false} RequestedExactlyWhen(
      last: u64, d: Direction, events: seq<Event>, confirms: seq<bool>, i: nat)
    requires |events| == |confirms| && i < |events|
    ensures var before := Polled(last, d, events[..i], confirms[..i]);
            i in Requested(last, d, events, confirms)
            <==> !before.crashed && events[i].nonce > before.last && exists key: Key :: Reads(events[i].recipient, key)
    decreases |events|
  {
    var n := |events| - 1;
    if i < n {
      assert events[..n][..i] == events[..i] && confirms[..n][..i] == confirms[..i];
      RequestedExactlyWhen(last, d, events[..n], confirms[..n], i);
    } else if key: Key :| Reads(events[n].recipient, key) {
      HandledExactly(Polled(last, d, events[..n], confirms[..n]), d, events[n], confirms[n], key);
    } else {
      HandledExactly(Polled(last, d, events[..n], confirms[..n]), d, events[n], confirms[n], ZERO);
    }
  }

  ghost predicate StopsAt(last: u64, d: Direction, events: seq<Event>, confirms: seq<bool>, i: nat)
    requires |events| == |confirms| && i < |events|
  {
    events[i].nonce > Polled(last, d, events[..i], confirms[..i]).last && Decoded(events[i].recipient) == Err(Panic)
  }

  /** A poll stops the relayer exactly if it meets an event above the last nonce whose text cannot even be cut. */
  lemma {:induction false} StoppedExactlyWhen(last: u64, d: Direction, events: seq<Event>, confirms: seq<bool>)
    requires |events| == |confirms|
    ensures Polled(last, d, events, confirms).crashed
            <==> exists i | 0 <= i < |events| :: StopsAt(last, d, events, confirms, i)
    decreases |events|
  {
    if events != [] {
      var n := |events| - 1;
      StoppedExactlyWhen(last, d, events[..n], confirms[..n]);
      forall i | 0 <= i < n
        ensures StopsAt(last, d, events, confirms, i) <==> StopsAt(last, d, events[..n], confirms[..n], i)
      {
        assert events[..n][..i] == events[..i] && confirms[..n][..i] == confirms[..i];
      }
      HandledExactly(Polled(last, d, events[..n], confirms[..n]), d, events[n], confirms[n], ZERO);
      assert StopsAt(last, d, events, confirms, n)
             <==> events[n].nonce > Polled(last, d, events[..n], confirms[..n]).last
                  && Decoded(events[n].recipient) == Err(Panic);
    }
  }

  /** The delays double from one second and stay at one minute. */
  lemma {:induction false} DelaysDoubleUpToAMinute(attempt: nat)
    ensures attempt < 6 ==> Delay(attempt) == [1_000, 2_000, 4_000, 8_000, 16_000, 32_000][attempt]
    ensures attempt >= 6 ==> Delay(attempt) == 60_000
  {
    if attempt > 0 {
      DelaysDoubleUpToAMinute(attempt - 1);
    }
  }
}
