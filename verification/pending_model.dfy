/**
 JSON-RPC messages as the bridge sees them, the decimal ids it gives to outgoing
 requests, and every interleaving of the calls that share one subprocess.
 */
module PendingModel {
  import opened Options

  /** Raw members; an absent member is empty. */
  datatype Message = Message(jsonrpc: string, id: string, verb: string, params: string, result: string, error: string)

  predicate IsResponse(m: Message) {
    |m.id| > 0 && |m.verb| == 0
  }

  // ------------------------------------------------------------------ decimal ids

  function Digit(n: nat): char
    requires n < 10
  {
    '0' + n as char
  }

  /** An integer as it is marshalled. */
  function Decimal(n: nat): (text: string)
    ensures |text| > 0
  {
    if n < 10 then [Digit(n)] else Decimal(n / 10) + [Digit(n % 10)]
  }

  function Last(s: string): char
    requires |s| > 0
  {
    s[|s| - 1]
  }

  /** The number a string of digits stands for, the last digit counting one. */
  function ValueOf(text: string): nat {
    if text == "" then 0
    else 10 * ValueOf(text[..|text| - 1]) + (if '0' <= Last(text) <= '9' then (Last(text) - '0') as nat else 0)
  }

  /** Decimal notation: digits only, the most significant first, no leading zero but for zero itself. */
  lemma {:induction false} DecimalExactly(n: nat)
    ensures ValueOf(Decimal(n)) == n
    ensures forall i :: 0 <= i < |Decimal(n)| ==> '0' <= Decimal(n)[i] <= '9'
    ensures n > 0 ==> Decimal(n)[0] != '0'
    ensures n == 0 ==> Decimal(n) == "0"
  {
    if n >= 10 {
      DecimalExactly(n / 10);
      assert Decimal(n)[..|Decimal(n)| - 1] == Decimal(n / 10);
      assert Last(Decimal(n)) == Digit(n % 10);
    } else {
      assert Decimal(n)[..0] == "";
    }
  }

  lemma {:induction false} DecimalInjective(m: nat, n: nat)
    requires Decimal(m) == Decimal(n)
    ensures m == n
    decreases m
  {
    assert Last(Decimal(m)) == Digit(m % 10) && Last(Decimal(n)) == Digit(n % 10);
    assert m % 10 == n % 10;
    if m >= 10 && n >= 10 {
      assert Decimal(m)[..|Decimal(m)| - 1] == Decimal(m / 10);
      assert Decimal(n)[..|Decimal(n)| - 1] == Decimal(n / 10);
      DecimalInjective(m / 10, n / 10);
    }
  }

  // ------------------------------------------------------------------ the sections

  /** A message is for a pending request exactly if it has that request's id and no method. */
  lemma ClaimantExactly(entries: map<string, nat>, m: Message)
    ensures Claimant(entries, m).Some? <==> |m.id| > 0 && |m.verb| == 0 && m.id in entries
    ensures Claimant(entries, m).Some? ==> Claimant(entries, m).value == entries[m.id]
    ensures Claim(entries, m) == if Claimant(entries, m).Some? then entries - {m.id} else entries
  {
    if m.id !in entries {
      assert entries - {m.id} == entries;
    }
  }

  /** Adding an entry under its internal id. */
  function Insert(entries: map<string, nat>, key: string, entry: nat): map<string, nat> {
    entries[key := entry]
  }

  /** What the timer of an entry removes: the entry if it is still the one at its key. */
  function Expire(entries: map<string, nat>, key: string, entry: nat): map<string, nat> {
    if key in entries && entries[key] == entry then entries - {key} else entries
  }

  /** Who a message from the subprocess is for. */
  function Claimant(entries: map<string, nat>, m: Message): Option<nat> {
    if IsResponse(m) && m.id in entries then Some(entries[m.id]) else None
  }

  function Claim(entries: map<string, nat>, m: Message): map<string, nat> {
    if IsResponse(m) then entries - {m.id} else entries
  }

  // --------------------------------------------------------------------- a system

  /**
   Where a registered request has got to.  `at` is the position of the answering
   message in what the subprocess wrote.
   */
  datatype Phase = Allocated | Pending | Claimed(at: nat) | Delivered(at: nat) | Closed

  /** The channel of a request: capacity one, closed at most once. */
  datatype Channel = Channel(buffer: seq<Message>, closed: bool, sends: nat, closes: nat)

  /**
   `since` is how much the subprocess had written when the request was entered.
   */
  datatype Slot = Slot(original: string, phase: Phase, channel: Channel, since: nat, armed: bool)

  datatype Caller =
    | Registering(slot: nat)
    | Awaiting(slot: nat)
    | Got(slot: nat, answer: Message)
    | Failed(slot: nat)

  /**
   `broken` is set by a send on a closed channel, a close of a closed channel or a
   send that would block.
   */
  datatype Sys = Sys(
    entries: map<string, nat>,
    nextID: nat,
    slots: seq<Slot>,
    callers: map<nat, Caller>,
    output: seq<Message>,
    broken: bool)

  const INITIAL := Sys(map[], 1, [], map[], [], false)

  const FRESH_CHANNEL := Channel([], false, 0, 0)

  datatype Action =
    | Allocate(caller: nat, original: string)
    | Enter(caller: nat)
    | WriteFails(caller: nat)
    | Read(message: Message)
    | Deliver(slot: nat)
    | Timeout(slot: nat)
    | CloseAll
    | Take(caller: nat)
    | GiveUp(caller: nat)

  /** Slot i was given the i-th id after the initial one. */
  function KeyOf(slot: nat): string {
    Decimal(slot + 2)
  }

  predicate Enabled(s: Sys, a: Action) {
    match a
    case Allocate(c, _) => c in s.callers ==> s.callers[c].Got? || s.callers[c].Failed?
    case Enter(c) => c in s.callers && s.callers[c].Registering? && s.callers[c].slot < |s.slots|
    case WriteFails(c) => c in s.callers && s.callers[c].Awaiting?
    case Read(_) => true
    case Deliver(i) => i < |s.slots| && s.slots[i].phase.Claimed? && s.slots[i].phase.at < |s.output|
    case Timeout(i) => i < |s.slots| && s.slots[i].armed
    case CloseAll => true
    case Take(c) =>
      c in s.callers && s.callers[c].Awaiting? && s.callers[c].slot < |s.slots|
      && (s.slots[s.callers[c].slot].channel.buffer != [] || s.slots[s.callers[c].slot].channel.closed)
    case GiveUp(c) => c in s.callers && s.callers[c].Awaiting?
  }

  function Send(c: Channel, m: Message): Channel {
    c.(buffer := c.buffer + [m], sends := c.sends + 1)
  }

  predicate SendBreaks(c: Channel) {
    c.closed || |c.buffer| >= 1
  }

  function Shut(c: Channel): Channel {
    c.(closed := true, closes := c.closes + 1)
  }

  function Expired(slot: Slot): Slot {
    slot.(phase := Closed, channel := Shut(slot.channel))
  }

  predicate IsEntered(s: Sys, i: nat) {
    KeyOf(i) in s.entries && s.entries[KeyOf(i)] == i
  }

  /** The pending slots, closed. */
  function ShutPending(s: Sys): seq<Slot> {
    seq(|s.slots|, i requires 0 <= i < |s.slots| =>
      if IsEntered(s, i) then Expired(s.slots[i]) else s.slots[i])
  }

  /** The subprocess wrote a message and the read loop looked its id up. */
  function ApplyRead(s: Sys, m: Message): Sys {
    var claimant := Claimant(s.entries, m);
    var t := s.(output := s.output + [m], entries := Claim(s.entries, m));
    if claimant.Some? && claimant.value < |s.slots|
    then t.(slots := s.slots[claimant.value := s.slots[claimant.value].(phase := Claimed(|s.output|))])
    else t
  }

  function Apply(s: Sys, a: Action): Sys
    requires Enabled(s, a)
  {
    match a
    case Allocate(c, original) =>
      s.(nextID := s.nextID + 1,
         slots := s.slots + [Slot(original, Allocated, FRESH_CHANNEL, 0, false)],
         callers := s.callers[c := Registering(|s.slots|)])
    case Enter(c) =>
      var i := s.callers[c].slot;
      s.(entries := Insert(s.entries, KeyOf(i), i),
         slots := s.slots[i := s.slots[i].(phase := Pending, since := |s.output|, armed := true)],
         callers := s.callers[c := Awaiting(i)])
    case WriteFails(c) =>
      s.(callers := s.callers[c := Failed(s.callers[c].slot)])
    case Read(m) =>
      ApplyRead(s, m)
    case Deliver(i) =>
      var slot := s.slots[i];
      var m := s.output[slot.phase.at].(id := slot.original);
      s.(slots := s.slots[i := slot.(phase := Delivered(slot.phase.at), channel := Send(slot.channel, m))],
         broken := s.broken || SendBreaks(slot.channel))
    case Timeout(i) =>
      var key := KeyOf(i);
      if key in s.entries && s.entries[key] == i then
        s.(entries := Expire(s.entries, key, i),
           slots := s.slots[i := Expired(s.slots[i]).(armed := false)],
           broken := s.broken || s.slots[i].channel.closed)
      else
        s.(slots := s.slots[i := s.slots[i].(armed := false)])
    case CloseAll =>
      s.(entries := map[],
         slots := ShutPending(s),
         broken := s.broken || exists i :: 0 <= i < |s.slots| && IsEntered(s, i) && s.slots[i].channel.closed)
    case Take(c) =>
      var i := s.callers[c].slot;
      var channel := s.slots[i].channel;
      if channel.buffer != [] then
        s.(slots := s.slots[i := s.slots[i].(channel := channel.(buffer := channel.buffer[1..]))],
           callers := s.callers[c := Got(i, channel.buffer[0])])
      else
        s.(callers := s.callers[c := Failed(i)])
    case GiveUp(c) =>
      s.(callers := s.callers[c := Failed(s.callers[c].slot)])
  }

  ghost predicate IsRun(states: seq<Sys>, actions: seq<Action>) {
    && |states| == |actions| + 1
    && states[0] == INITIAL
    && forall i | 0 <= i < |actions| :: Enabled(states[i], actions[i]) && states[i + 1] == Apply(states[i], actions[i])
  }
}
