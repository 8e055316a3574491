/**
 Requests that share one subprocess: each is resolved at most once, no channel is
 misused, and an answer goes to the caller who asked for it.
 */
module PendingTheorems {
  import opened Sizes
  import opened PendingModel

  lemma KeysDistinct(i: nat, j: nat)
    ensures KeyOf(i) == KeyOf(j) ==> i == j
  {
    if KeyOf(i) == KeyOf(j) {
      DecimalInjective(i + 2, j + 2);
    }
  }

  /** The table holds exactly the pending slots, each under its own id. */
  ghost predicate EntriesMatch(s: Sys) {
    && (forall k :: k in s.entries ==>
          s.entries[k] < |s.slots| && s.slots[s.entries[k]].phase.Pending? && KeyOf(s.entries[k]) == k)
    && (forall i: nat :: i < |s.slots| && s.slots[i].phase.Pending? ==> IsEntered(s, i))
  }

  /** A message that answers slot i. */
  predicate Answers(m: Message, i: nat) {
    IsResponse(m) && m.id == KeyOf(i)
  }

  /** No answer to slot i among the messages from `from` up to `to`. */
  ghost predicate NoAnswer(output: seq<Message>, i: nat, from: nat, to: nat) {
    forall k: nat :: from <= k < to && k < |output| ==> !Answers(output[k], i)
  }

  /** at is the first answer to slot i since it was entered. */
  ghost predicate FirstAnswer(output: seq<Message>, i: nat, since: nat, at: nat) {
    since <= at < |output| && Answers(output[at], i) && NoAnswer(output, i, since, at)
  }

  /** What the channel went through, by phase. */
  ghost predicate ChannelOk(slot: Slot) {
    && slot.channel.closed == (slot.channel.closes > 0)
    && (match slot.phase
        case Allocated => slot.channel == FRESH_CHANNEL
        case Pending => slot.channel == FRESH_CHANNEL
        case Claimed(_) => slot.channel == FRESH_CHANNEL
        case Delivered(_) => slot.channel.sends == 1 && slot.channel.closes == 0 && |slot.channel.buffer| <= 1
        case Closed => slot.channel.sends == 0 && slot.channel.closes == 1 && slot.channel.buffer == [])
  }

  /** The answer a delivered slot's channel carries. */
  ghost predicate ContentOk(output: seq<Message>, slot: Slot) {
    slot.phase.Delivered? && slot.channel.buffer != [] ==>
      slot.phase.at < |output| && slot.channel.buffer == [output[slot.phase.at].(id := slot.original)]
  }

  ghost predicate RoutingOk(output: seq<Message>, slot: Slot, i: nat) {
    match slot.phase
    case Pending => slot.since <= |output| && NoAnswer(output, i, slot.since, |output|)
    case Claimed(at) => FirstAnswer(output, i, slot.since, at)
    case Delivered(at) => FirstAnswer(output, i, slot.since, at)
    case _ => true
  }

  ghost predicate SlotOk(s: Sys, i: nat)
    requires i < |s.slots|
  {
    ChannelOk(s.slots[i]) && ContentOk(s.output, s.slots[i]) && RoutingOk(s.output, s.slots[i], i)
  }

  /** A caller that was answered got its own slot's answer. */
  ghost predicate CallerOk(s: Sys, caller: Caller) {
    && caller.slot < |s.slots|
    && (caller.Registering? ==> s.slots[caller.slot].phase.Allocated?)
    && (caller.Got? ==>
          && s.slots[caller.slot].phase.Delivered?
          && s.slots[caller.slot].phase.at < |s.output|
          && caller.answer == s.output[s.slots[caller.slot].phase.at].(id := s.slots[caller.slot].original))
  }

  /** No two callers use one slot. */
  ghost predicate CallersApart(s: Sys) {
    forall c, d :: c in s.callers && d in s.callers && s.callers[c].slot == s.callers[d].slot ==> c == d
  }

  ghost predicate Inv(s: Sys) {
    && s.nextID == |s.slots| + 1
    && EntriesMatch(s)
    && (forall i: nat :: i < |s.slots| ==> SlotOk(s, i))
    && (forall c :: c in s.callers ==> CallerOk(s, s.callers[c]))
    && CallersApart(s)
    && !s.broken
  }

  // -------------------------------------------------------------- one slot at a time

  /** A slot that stays the same stays right when the subprocess writes more. */
  lemma SlotKept(s: Sys, t: Sys, i: nat)
    requires i < |s.slots| && i < |t.slots| && SlotOk(s, i) && t.slots[i] == s.slots[i]
    requires s.output <= t.output
    requires s.slots[i].phase.Pending? ==> forall k: nat :: |s.output| <= k < |t.output| ==> !Answers(t.output[k], i)
    ensures SlotOk(t, i)
  {
    assert forall k: nat :: k < |s.output| ==> t.output[k] == s.output[k];
  }

  /** A caller stays right if its slot keeps what it was asked for and what it got. */
  lemma CallerKept(s: Sys, t: Sys, caller: Caller)
    requires CallerOk(s, caller) && |s.slots| <= |t.slots| && s.output <= t.output
    requires var x, y := s.slots[caller.slot], t.slots[caller.slot];
      && y.original == x.original
      && (x.phase.Allocated? ==> y.phase.Allocated?)
      && (x.phase.Delivered? ==> y.phase == x.phase)
    ensures CallerOk(t, caller)
  {
    assert forall k: nat :: k < |s.output| ==> t.output[k] == s.output[k];
  }

  // ------------------------------------------------------------------ each action

  lemma AllocateStep(s: Sys, c: nat, original: string)
    requires Inv(s) && Enabled(s, Allocate(c, original))
    ensures Inv(Apply(s, Allocate(c, original)))
  {
    var t := Apply(s, Allocate(c, original));
    forall i: nat | i < |t.slots|
      ensures SlotOk(t, i)
    {
      if i < |s.slots| {
        SlotKept(s, t, i);
      }
    }
    forall d | d in t.callers
      ensures CallerOk(t, t.callers[d])
    {
      if d != c {
        CallerKept(s, t, s.callers[d]);
      }
    }
  }

  lemma EnterStep(s: Sys, c: nat)
    requires Inv(s) && Enabled(s, Enter(c))
    ensures Inv(Apply(s, Enter(c)))
  {
    var t := Apply(s, Enter(c));
    var n := s.callers[c].slot;
    assert CallerOk(s, s.callers[c]);
    forall i: nat | i < |t.slots|
      ensures SlotOk(t, i)
    {
      if i != n {
        SlotKept(s, t, i);
      } else {
        assert SlotOk(s, i);
      }
    }
    forall d | d in t.callers
      ensures CallerOk(t, t.callers[d])
    {
      if d != c {
        CallerKept(s, t, s.callers[d]);
      }
    }
    forall i: nat | i < |t.slots| && i != n
      ensures KeyOf(i) != KeyOf(n)
    {
      KeysDistinct(i, n);
    }
  }

  lemma ReadEntries(s: Sys, m: Message)
    requires Inv(s)
    ensures EntriesMatch(ApplyRead(s, m))
  {
    var t := ApplyRead(s, m);
    forall i: nat | i < |t.slots| && t.slots[i].phase.Pending?
      ensures IsEntered(t, i)
    {
      assert s.slots[i].phase.Pending?;
      assert IsEntered(s, i);
    }
  }

  lemma ReadStep(s: Sys, m: Message)
    requires Inv(s)
    ensures Inv(ApplyRead(s, m))
  {
    var t := ApplyRead(s, m);
    ReadEntries(s, m);
    forall i: nat | i < |t.slots|
      ensures SlotOk(t, i)
    {
      assert SlotOk(s, i);
      if t.slots[i] == s.slots[i] {
        if s.slots[i].phase.Pending? {
          assert IsEntered(s, i);
          assert !Answers(m, i);
        }
        SlotKept(s, t, i);
      } else {
        assert s.slots[i].phase.Pending? && Answers(m, i);
        assert forall k: nat :: k < |s.output| ==> t.output[k] == s.output[k];
        assert FirstAnswer(t.output, i, s.slots[i].since, |s.output|);
      }
    }
    forall d | d in t.callers
      ensures CallerOk(t, t.callers[d])
    {
      CallerKept(s, t, s.callers[d]);
    }
  }

  lemma DeliverStep(s: Sys, n: nat)
    requires Inv(s) && Enabled(s, Deliver(n))
    ensures Inv(Apply(s, Deliver(n)))
  {
    var t := Apply(s, Deliver(n));
    assert SlotOk(s, n);
    forall i: nat | i < |t.slots|
      ensures SlotOk(t, i)
    {
      assert SlotOk(s, i);
      if i != n {
        SlotKept(s, t, i);
      }
    }
    forall d | d in t.callers
      ensures CallerOk(t, t.callers[d])
    {
      CallerKept(s, t, s.callers[d]);
    }
  }

  lemma TimeoutStep(s: Sys, n: nat)
    requires Inv(s) && Enabled(s, Timeout(n))
    ensures Inv(Apply(s, Timeout(n)))
  {
    var t := Apply(s, Timeout(n));
    assert SlotOk(s, n);
    forall i: nat | i < |t.slots|
      ensures SlotOk(t, i)
    {
      assert SlotOk(s, i);
      if i != n {
        SlotKept(s, t, i);
        KeysDistinct(i, n);
      }
    }
    forall i: nat | i < |t.slots| && t.slots[i].phase.Pending?
      ensures IsEntered(t, i)
    {
      assert IsEntered(s, i);
      KeysDistinct(i, n);
    }
    forall d | d in t.callers
      ensures CallerOk(t, t.callers[d])
    {
      CallerKept(s, t, s.callers[d]);
    }
  }

  lemma CloseAllStep(s: Sys)
    requires Inv(s)
    ensures Inv(Apply(s, CloseAll))
  {
    var t := Apply(s, CloseAll);
    forall i: nat | i < |s.slots| && IsEntered(s, i)
      ensures !s.slots[i].channel.closed
    {
      assert SlotOk(s, i);
    }
    forall i: nat | i < |s.slots|
      ensures t.slots[i] == if s.slots[i].phase.Pending? then Expired(s.slots[i]) else s.slots[i]
      ensures SlotOk(t, i)
    {
      assert SlotOk(s, i);
      assert IsEntered(s, i) <==> s.slots[i].phase.Pending?;
      if !IsEntered(s, i) {
        SlotKept(s, t, i);
      }
    }
    forall d | d in t.callers
      ensures CallerOk(t, t.callers[d])
    {
      CallerKept(s, t, s.callers[d]);
    }
  }

  lemma TakeStep(s: Sys, c: nat)
    requires Inv(s) && Enabled(s, Take(c))
    ensures Inv(Apply(s, Take(c)))
  {
    var t := Apply(s, Take(c));
    var n := s.callers[c].slot;
    assert SlotOk(s, n);
    forall i: nat | i < |t.slots|
      ensures SlotOk(t, i)
    {
      assert SlotOk(s, i);
      if i != n {
        SlotKept(s, t, i);
      }
    }
    forall d | d in t.callers
      ensures CallerOk(t, t.callers[d])
    {
      if d != c {
        CallerKept(s, t, s.callers[d]);
      }
    }
  }

  lemma FailStep(s: Sys, t: Sys, c: nat)
    requires Inv(s) && c in s.callers && s.callers[c].Awaiting?
    requires t == s.(callers := s.callers[c := Failed(s.callers[c].slot)])
    ensures Inv(t)
  {
    forall i: nat | i < |t.slots|
      ensures SlotOk(t, i)
    {
      assert SlotOk(s, i);
    }
    forall d | d in t.callers
      ensures CallerOk(t, t.callers[d])
    {
      assert CallerOk(s, s.callers[d]);
    }
  }

  lemma InvStep(s: Sys, a: Action)
    requires Inv(s) && Enabled(s, a)
    ensures Inv(Apply(s, a))
  {
    match a
    case Allocate(c, original) => AllocateStep(s, c, original);
    case Enter(c) => EnterStep(s, c);
    case WriteFails(c) => FailStep(s, Apply(s, a), c);
    case Read(m) => ReadStep(s, m);
    case Deliver(i) => DeliverStep(s, i);
    case Timeout(i) => TimeoutStep(s, i);
    case CloseAll => CloseAllStep(s);
    case Take(c) => TakeStep(s, c);
    case GiveUp(c) => FailStep(s, Apply(s, a), c);
  }

  lemma {:induction false} InvRun(states: seq<Sys>, actions: seq<Action>, i: nat)
    requires IsRun(states, actions) && i < |states|
    ensures Inv(states[i])
  {
    if i > 0 {
      InvRun(states, actions, i - 1);
      InvStep(states[i - 1], actions[i - 1]);
    }
  }

  // --------------------------------------------------------------------- theorems

  ghost function InPhase(slots: seq<Slot>, p: Phase -> bool): set<nat> {
    set i: nat | i < |slots| && p(slots[i].phase)
  }

  ghost predicate IsAllocated(p: Phase) {
    p.Allocated?
  }

  ghost predicate IsPending(p: Phase) {
    p.Pending?
  }

  ghost predicate IsClaimed(p: Phase) {
    p.Claimed?
  }

  ghost predicate IsDelivered(p: Phase) {
    p.Delivered?
  }

  ghost predicate IsClosed(p: Phase) {
    p.Closed?
  }

  /**
   In every run: no send hits a closed or a full channel and no channel is closed
   twice; a request gets one message or one close or neither yet, never both.
   */
  lemma ChannelDiscipline(states: seq<Sys>, actions: seq<Action>, i: nat, slot: nat)
    requires IsRun(states, actions) && i < |states| && slot < |states[i].slots|
    ensures !states[i].broken
    ensures var c := states[i].slots[slot].channel;
      && c.sends + c.closes <= 1
      && (c.sends == 1 <==> states[i].slots[slot].phase.Delivered?)
      && (c.closes == 1 <==> states[i].slots[slot].phase.Closed?)
  {
    InvRun(states, actions, i);
    assert SlotOk(states[i], slot);
  }

  lemma EntriesSize(s: Sys)
    requires EntriesMatch(s)
    ensures |s.entries| == |InPhase(s.slots, IsPending)|
  {
    forall i | i in InPhase(s.slots, IsPending)
      ensures i in s.entries.Values
    {
      assert IsEntered(s, i);
    }
    assert s.entries.Values == InPhase(s.slots, IsPending);
    InjectiveSize(s.entries);
  }

  lemma PhaseAppend(slots: seq<Slot>, slot: Slot, p: Phase -> bool)
    ensures |InPhase(slots + [slot], p)| == |InPhase(slots, p)| + (if p(slot.phase) then 1 else 0)
  {
    assert InPhase(slots + [slot], p) ==
      if p(slot.phase) then InPhase(slots, p) + {|slots|} else InPhase(slots, p);
  }

  lemma {:induction false} PhasesPartition(slots: seq<Slot>)
    ensures |slots| == |InPhase(slots, IsAllocated)| + |InPhase(slots, IsPending)| + |InPhase(slots, IsClaimed)|
      + |InPhase(slots, IsDelivered)| + |InPhase(slots, IsClosed)|
  {
    if slots == [] {
      assert forall p :: InPhase(slots, p) == {};
    } else {
      var front, last := slots[..|slots| - 1], slots[|slots| - 1];
      assert slots == front + [last];
      PhasesPartition(front);
      PhaseAppend(front, last, IsAllocated);
      PhaseAppend(front, last, IsPending);
      PhaseAppend(front, last, IsClaimed);
      PhaseAppend(front, last, IsDelivered);
      PhaseAppend(front, last, IsClosed);
    }
  }

  /** Every id handed out is accounted for exactly once. */
  lemma RequestsAreConserved(states: seq<Sys>, actions: seq<Action>, i: nat)
    requires IsRun(states, actions) && i < |states|
    ensures var s := states[i];
      s.nextID - 1 == |InPhase(s.slots, IsAllocated)| + |s.entries| + |InPhase(s.slots, IsClaimed)|
        + |InPhase(s.slots, IsDelivered)| + |InPhase(s.slots, IsClosed)|
  {
    InvRun(states, actions, i);
    EntriesSize(states[i]);
    PhasesPartition(states[i].slots);
  }

  /**
   A call that returns a message returns the first message carrying its own
   internal id that the subprocess wrote since the request was entered, with the
   caller's id put back.
   */
  lemma ResponseRouting(states: seq<Sys>, actions: seq<Action>, i: nat, c: nat)
    requires IsRun(states, actions) && i < |states|
    requires c in states[i].callers && states[i].callers[c].Got?
    ensures var s := states[i];
      var n := s.callers[c].slot;
      && n < |s.slots| && s.slots[n].phase.Delivered?
      && FirstAnswer(s.output, n, s.slots[n].since, s.slots[n].phase.at)
      && s.callers[c].answer == s.output[s.slots[n].phase.at].(id := s.slots[n].original)
  {
    InvRun(states, actions, i);
    assert CallerOk(states[i], states[i].callers[c]);
    assert SlotOk(states[i], states[i].callers[c].slot);
  }

  /** Two callers are never given the same message. */
  lemma AnswersAreNotShared(states: seq<Sys>, actions: seq<Action>, i: nat, c: nat, d: nat)
    requires IsRun(states, actions) && i < |states| && c != d
    requires c in states[i].callers && states[i].callers[c].Got?
    requires d in states[i].callers && states[i].callers[d].Got?
    ensures states[i].callers[c].slot < |states[i].slots| && states[i].callers[d].slot < |states[i].slots|
    ensures states[i].slots[states[i].callers[c].slot].phase != states[i].slots[states[i].callers[d].slot].phase
  {
    InvRun(states, actions, i);
    var s := states[i];
    var m, n := s.callers[c].slot, s.callers[d].slot;
    assert CallerOk(s, s.callers[c]) && CallerOk(s, s.callers[d]);
    assert SlotOk(s, m) && SlotOk(s, n);
    KeysDistinct(m, n);
  }

  /** An answer once given and a close once made are final. */
  lemma ResolutionIsFinal(s: Sys, a: Action, slot: nat)
    requires Inv(s) && Enabled(s, a) && slot < |s.slots|
    requires s.slots[slot].phase.Delivered? || s.slots[slot].phase.Closed?
    ensures slot < |Apply(s, a).slots|
    ensures Apply(s, a).slots[slot].phase == s.slots[slot].phase
    ensures Apply(s, a).slots[slot].original == s.slots[slot].original
  {
    if a.Enter? {
      assert CallerOk(s, s.callers[a.caller]);
    }
  }

  /** What is put back in an answer is the id its own caller asked with. */
  lemma {:induction false} OwnRequest(states: seq<Sys>, actions: seq<Action>, i: nat, c: nat)
    requires IsRun(states, actions) && i < |states| && c in states[i].callers
    ensures states[i].callers[c].slot < |states[i].slots|
    ensures exists j: nat :: j < i && AskedAt(states[j], actions[j], states[i], c)
  {
    InvRun(states, actions, i);
    assert CallerOk(states[i], states[i].callers[c]);
    if i > 0 {
      var s, a := states[i - 1], actions[i - 1];
      InvRun(states, actions, i - 1);
      if a.Allocate? && a.caller == c {
        assert AskedAt(s, a, states[i], c);
      } else {
        CallerSlotKept(s, a, c);
        OwnRequest(states, actions, i - 1, c);
        var j: nat :| j < i - 1 && AskedAt(states[j], actions[j], s, c);
        assert CallerOk(s, s.callers[c]);
        OriginalKept(s, a, s.callers[c].slot);
        assert AskedAt(states[j], actions[j], states[i], c);
      }
    }
  }

  /** In state s the action allocates the slot that caller c holds in state t. */
  ghost predicate AskedAt(s: Sys, a: Action, t: Sys, c: nat) {
    && c in t.callers && t.callers[c].slot < |t.slots|
    && a.Allocate? && a.caller == c && |s.slots| == t.callers[c].slot
    && a.original == t.slots[t.callers[c].slot].original
  }

  lemma CallerSlotKept(s: Sys, a: Action, c: nat)
    requires Enabled(s, a) && !(a.Allocate? && a.caller == c) && c in Apply(s, a).callers
    ensures c in s.callers && Apply(s, a).callers[c].slot == s.callers[c].slot
  {
  }

  lemma OriginalKept(s: Sys, a: Action, slot: nat)
    requires Enabled(s, a) && slot < |s.slots|
    ensures slot < |Apply(s, a).slots| && Apply(s, a).slots[slot].original == s.slots[slot].original
  {
  }

  /** What a call returns came from the subprocess as a message with an id and without a method. */
  lemma OnlyResponsesAnswer(states: seq<Sys>, actions: seq<Action>, i: nat, c: nat)
    requires IsRun(states, actions) && i < |states|
    requires c in states[i].callers && states[i].callers[c].Got?
    ensures |states[i].callers[c].answer.verb| == 0
    ensures var s := states[i];
      && s.callers[c].slot < |s.slots| && s.slots[s.callers[c].slot].phase.Delivered?
      && s.slots[s.callers[c].slot].phase.at < |s.output|
      && s.output[s.slots[s.callers[c].slot].phase.at].id == KeyOf(s.callers[c].slot)
      && |s.output[s.slots[s.callers[c].slot].phase.at].verb| == 0
  {
    ResponseRouting(states, actions, i, c);
  }

  /** Requests and notifications of the subprocess touch no request, no channel and no caller. */
  lemma OthersAreIgnored(s: Sys, m: Message)
    requires |m.id| == 0 || |m.verb| > 0
    ensures Apply(s, Read(m)) == s.(output := s.output + [m])
  {
  }

  /** A response to a pending request claims it, and nothing else happens; any other response is dropped. */
  lemma ResponseExactly(s: Sys, m: Message)
    requires Inv(s) && |m.id| > 0 && |m.verb| == 0
    ensures var t := Apply(s, Read(m));
      if m.id in s.entries then
        && s.entries[m.id] < |s.slots| && t.entries == s.entries - {m.id} && |t.slots| == |s.slots|
        && t.slots[s.entries[m.id]] == s.slots[s.entries[m.id]].(phase := Claimed(|s.output|))
        && (forall i :: 0 <= i < |s.slots| && i != s.entries[m.id] ==> t.slots[i] == s.slots[i])
        && t.callers == s.callers
      else t == s.(output := s.output + [m])
  {
    ClaimantExactly(s.entries, m);
  }

  /** When its time is up a pending request is taken out and its channel closed; any other is left as it is. */
  lemma TimeoutExactly(s: Sys, n: nat)
    requires Inv(s) && Enabled(s, Timeout(n))
    ensures var t := Apply(s, Timeout(n));
      && |t.slots| == |s.slots| && t.callers == s.callers
      && (forall i :: 0 <= i < |s.slots| && i != n ==> t.slots[i] == s.slots[i])
      && if s.slots[n].phase.Pending?
         then t.entries == s.entries - {KeyOf(n)} && t.slots[n].phase.Closed? && t.slots[n].channel.closed
         else t.entries == s.entries && t.slots[n] == s.slots[n].(armed := false)
  {
    assert SlotOk(s, n);
  }

  /** Closing all takes every pending request out and closes its channel; the others are left as they are. */
  lemma CloseAllExactly(s: Sys)
    requires Inv(s)
    ensures var t := Apply(s, CloseAll);
      && t.entries == map[] && t.callers == s.callers && |t.slots| == |s.slots|
      && forall i :: 0 <= i < |s.slots| ==>
           if s.slots[i].phase.Pending? then t.slots[i].phase.Closed? && t.slots[i].channel.closed
           else t.slots[i] == s.slots[i]
  {
    forall i: nat | i < |s.slots|
      ensures IsEntered(s, i) <==> s.slots[i].phase.Pending?
    {
      assert SlotOk(s, i);
    }
  }

  /** A claimed request is delivered: its channel holds the message with the caller's own id. */
  lemma DeliverExactly(s: Sys, n: nat)
    requires Inv(s) && Enabled(s, Deliver(n))
    ensures var t, at := Apply(s, Deliver(n)), s.slots[n].phase.at;
      && t == s.(slots := t.slots) && |t.slots| == |s.slots|
      && (forall i :: 0 <= i < |s.slots| && i != n ==> t.slots[i] == s.slots[i])
      && t.slots[n].phase == Delivered(at)
      && t.slots[n].channel.buffer == [s.output[at].(id := s.slots[n].original)]
  {
    assert SlotOk(s, n);
  }

  /** A waiting caller gets the message in its channel, or fails if the channel was closed. */
  lemma TakeExactly(s: Sys, c: nat)
    requires Inv(s) && Enabled(s, Take(c))
    ensures var t, slot := Apply(s, Take(c)), s.slots[s.callers[c].slot];
      && t.callers.Keys == s.callers.Keys && t.entries == s.entries
      && (forall d :: d in s.callers && d != c ==> t.callers[d] == s.callers[d])
      && t.callers[c] ==
           (if slot.channel.buffer != [] then Got(s.callers[c].slot, slot.channel.buffer[0])
            else Failed(s.callers[c].slot))
      && (slot.channel.buffer != [] <==> slot.phase.Delivered?)
      && (slot.channel.buffer == [] <==> slot.phase.Closed? && slot.channel.closed)
  {
    assert SlotOk(s, s.callers[c].slot) && CallerOk(s, s.callers[c]);
  }
}
