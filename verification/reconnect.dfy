/**
 Keeping one control session alive: the first login, the reconnect loop, and the
 hooks an application gets to see.

 What the environment does is given by two scripts, read one entry at a time: how
 each login attempt comes out, and how each turn of the reconnect loop finds the
 current session.  A run that has used up a script is still going on.
 */
module Reconnect {
  import opened Options

  /** `ContextError` is any error that wraps a cancelled or expired context. */
  datatype Login =
    | LoggedIn(session: string)
    | ContextError
    | PermanentError(message: string)
    | OtherError(message: string)

  /** One attempt; the flags say whether the service's context is seen dead afterwards. */
  datatype Try = Try(result: Login, deadBeforeHook: bool, deadInWait: bool)

  /** How a turn of the loop goes up to the point where it would reconnect. */
  datatype End =
    | DeadAtTop
    | NoControl
    | DeadWhileConnected
    | Permanent(reason: string)
    | DeadAfterwards
    | Dropped

  /** What happens, in order: the two kinds of observation and the three hooks. */
  datatype Event =
    | Tried(try: Try)
    | Ended(end: End)
    | Connected(session: string)
    | Reconnecting(attempt: nat, reason: string)
    | Disconnected(reason: string, permanent: bool)

  datatype Error = Context | Permanently(reason: string)

  const CLOSED := "control connection closed"

  // ------------------------------------------------------------- what a trace means

  /** A lost session, or a login that may be repeated: something to announce. */
  predicate Counts(e: Event) {
    e == Ended(Dropped) || (e.Tried? && e.try.result.OtherError? && !e.try.deadBeforeHook)
  }

  /** Logins go on after this event. */
  predicate Retries(e: Event) {
    e == Ended(Dropped) || (e.Tried? && e.try.result.OtherError? && !e.try.deadInWait)
  }

  /**
   What has happened so far, as far as it matters for what comes next: the newest
   event, whether logins go on, how many setbacks there were since the last
   connection, and whether there ever was a connection.
   */
  datatype View = View(last: Option<Event>, retries: bool, setbacks: nat, connected: bool)

  function Next(v: View, e: Event): View {
    View(Some(e),
         if e.Reconnecting? then v.retries else Retries(e),
         if e.Connected? then 0 else v.setbacks + (if Counts(e) then 1 else 0),
         v.connected || e.Connected?)
  }

  /** The newest event is a setback that an announcement has to follow. */
  predicate OwesAnnouncement(v: View) {
    v.last.Some? && Counts(v.last.value) && (v.connected || v.setbacks > 1)
  }

  /** The newest event is the definite end of a service that was connected. */
  predicate OwesDisconnect(v: View) {
    v.last.Some? && v.connected && Farewell(v.last.value).Some?
  }

  function Farewell(e: Event): Option<string> {
    match e
    case Ended(Permanent(reason)) => Some(reason)
    case Tried(Try(PermanentError(message), _, _)) => Some(message)
    case _ => None
  }

  /** The newest event is a login attempt that worked. */
  predicate OwesConnected(v: View) {
    v.last.Some? && v.last.value.Tried? && v.last.value.try.result.LoggedIn?
  }

  predicate Owes(v: View) {
    OwesAnnouncement(v) || OwesDisconnect(v) || OwesConnected(v)
  }

  predicate JustConnected(v: View) {
    v.last.Some? && v.last.value.Connected?
  }

  function ReasonOf(e: Event): string {
    if e.Tried? && e.try.result.OtherError? then e.try.result.message else CLOSED
  }

  /** Whether an event may come next. */
  predicate Fits(v: View, e: Event) {
    match e
    case Tried(_) => !Owes(v) && v.retries
    case Ended(_) => JustConnected(v)
    case Connected(session) => OwesConnected(v) && session == v.last.value.try.result.session
    case Reconnecting(n, reason) => OwesAnnouncement(v) && n == v.setbacks && reason == ReasonOf(v.last.value)
    case Disconnected(reason, permanent) => OwesDisconnect(v) && permanent && Some(reason) == Farewell(v.last.value)
  }

  /** What a trace amounts to: whether every event fitted, where it stands, and what it has read. */
  datatype Summary = Summary(proper: bool, view: View, tries: seq<Try>, ends: seq<End>)

  function Grow(sum: Summary, e: Event): Summary {
    Summary(sum.proper && Fits(sum.view, e),
            Next(sum.view, e),
            sum.tries + (if e.Tried? then [e.try] else []),
            sum.ends + (if e.Ended? then [e.end] else []))
  }

  function Sum(trace: seq<Event>): Summary {
    if trace == [] then Summary(true, View(None, true, 0, false), [], [])
    else Grow(Sum(trace[..|trace| - 1]), trace[|trace| - 1])
  }

  predicate Proper(trace: seq<Event>) {
    Sum(trace).proper
  }

  function ViewOf(trace: seq<Event>): View {
    Sum(trace).view
  }

  function Tries(trace: seq<Event>): seq<Try> {
    Sum(trace).tries
  }

  function Ends(trace: seq<Event>): seq<End> {
    Sum(trace).ends
  }

  /** How many setbacks were announced since the last connection. */
  function Announced(trace: seq<Event>): (n: nat) {
    if trace == [] || trace[|trace| - 1].Connected? then 0
    else Announced(trace[..|trace| - 1]) + (if trace[|trace| - 1].Reconnecting? then 1 else 0)
  }

  /** The newest event is one after which nothing is tried any more. */
  predicate Over(v: View) {
    v.last.Some? && !v.last.value.Connected? && !v.retries
  }

  /** How the login loop leaves things, by what it returns. */
  predicate Finished(out: Option<Login>, v: View) {
    match out
    case None => !Owes(v) && v.retries
    case Some(LoggedIn(session)) => v.last == Some(Connected(session)) && v.setbacks == 0
    case Some(ContextError) => Over(v) && !Owes(v) && Verdict(v) == Some(Context)
    case Some(PermanentError(message)) => Over(v) && v.last.Some? && Farewell(v.last.value) == Some(message)
    case Some(OtherError(_)) => false
  }

  /** What `Err` returns once a service that was connected is done. */
  function Verdict(v: View): Option<Error> {
    match v.last
    case Some(Disconnected(reason, _)) => Some(Permanently(reason))
    case Some(Ended(NoControl)) => None
    case _ => Some(Context)
  }

  lemma Extended(trace: seq<Event>, e: Event)
    ensures Sum(trace + [e]) == Grow(Sum(trace), e)
  {
    assert (trace + [e])[..|trace|] == trace;
  }

  predicate AtMostOneHook(said: seq<Event>) {
    |said| <= 1 && forall e :: e in said ==> !e.Tried? && !e.Ended?
  }

  /** What a step has read when it has recorded an observation and at most one hook. */
  lemma ReadOne(trace: seq<Event>, e: Event, said: seq<Event>)
    requires AtMostOneHook(said)
    ensures Tries(trace + [e] + said) == Tries(trace) + (if e.Tried? then [e.try] else [])
    ensures Ends(trace + [e] + said) == Ends(trace) + (if e.Ended? then [e.end] else [])
  {
    Extended(trace, e);
    if said == [] {
      assert trace + [e] + said == trace + [e];
    } else {
      assert said == [said[0]] && said[0] in said;
      Extended(trace + [e], said[0]);
    }
  }

  lemma ReadNothing(trace: seq<Event>, said: seq<Event>)
    requires AtMostOneHook(said)
    ensures Tries(trace + said) == Tries(trace) && Ends(trace + said) == Ends(trace)
  {
    if said == [] {
      assert trace + said == trace;
    } else {
      assert said == [said[0]] && said[0] in said;
      Extended(trace, said[0]);
    }
  }

  // --------------------------------------------------------------------- the code

  class Service {
    var trace: seq<Event>
    var err: Option<Error>
    var done: bool

    constructor ()
      ensures trace == [] && err == None && !done
    {
      trace, err, done := [], None, false;
    }

    ghost function Now(): View
      reads this
    {
      ViewOf(trace)
    }

    method Record(e: Event)
      requires Proper(trace) && Fits(Now(), e)
      modifies `trace
      ensures trace == old(trace) + [e] && Proper(trace)
      ensures Now() == Next(old(Now()), e)
    {
      Extended(trace, e);
      trace := trace + [e];
    }

    /** Only the first error is kept. */
    method SetErr(e: Error)
      modifies `err
      ensures err == if old(err) == None then Some(e) else old(err)
    {
      if err == None {
        err := Some(e);
      }
    }

    /** One attempt, and what is done about a failed one before the next. */
    method TryOnce(t: Try, reconnectAttempt: nat, attempt: nat)
      returns (attempt': nat, out: Option<Login>, ghost said: seq<Event>)
      requires Proper(trace) && Now().retries && !Owes(Now())
      requires Now().setbacks == attempt && (reconnectAttempt > 0 <==> Now().connected)
      modifies `trace
      ensures Proper(trace) && Finished(out, Now())
      ensures trace == old(trace) + [Tried(t)] + said && AtMostOneHook(said)
      ensures out.None? ==> Now().retries && Now().setbacks == attempt'
      ensures Now().connected <==> old(Now()).connected || (out.Some? && out.value.LoggedIn?)
    {
      attempt', said := attempt, [];
      Record(Tried(t));
      match t.result {
        case LoggedIn(session) =>
          Record(Connected(session));
          out, said := Some(t.result), [Connected(session)];
        case ContextError =>
          out := Some(t.result);
        case PermanentError(_) =>
          out := Some(t.result);
        case OtherError(message) =>
          attempt', said := OnError(t, reconnectAttempt, attempt);
          out := if t.deadInWait then Some(ContextError) else None;
      }
    }

    /** Between two attempts: count and announce, unless the context is dead. */
    method OnError(t: Try, reconnectAttempt: nat, attempt: nat) returns (attempt': nat, ghost said: seq<Event>)
      requires Proper(trace) && t.result.OtherError? && Now().last == Some(Tried(t)) && Now().retries == !t.deadInWait
      requires Now().setbacks == attempt + (if t.deadBeforeHook then 0 else 1)
      requires reconnectAttempt > 0 <==> Now().connected
      modifies `trace
      ensures Proper(trace) && !Owes(Now()) && Verdict(Now()) == Some(Context)
      ensures trace == old(trace) + said && AtMostOneHook(said)
      ensures Now().retries == !t.deadInWait && Now().setbacks == attempt' && Now().connected == old(Now()).connected
    {
      attempt', said := attempt, [];
      if !t.deadBeforeHook {
        attempt' := attempt + 1;
        if reconnectAttempt > 0 || attempt' > 1 {
          Record(Reconnecting(attempt', t.result.message));
          said := [Reconnecting(attempt', t.result.message)];
        }
      }
    }

    /** The login loop is at work, or has ended with an outcome. */
    ghost predicate Trying(out: Option<Login>, attempt: nat, connected: bool)
      reads this
    {
      && Proper(trace) && Finished(out, Now())
      && (out.None? ==> Now().setbacks == attempt)
      && (Now().connected <==> connected || (out.Some? && out.value.LoggedIn?))
    }

    ghost predicate HasRead(tries: seq<Try>, ends: seq<End>)
      reads this
    {
      Tries(trace) == tries && Ends(trace) == ends
    }

    /** The same, with what has been read instead of what has been said. */
    method NextTry(t: Try, reconnectAttempt: nat, attempt: nat, ghost read: seq<Try>, ghost seen: seq<End>)
      returns (attempt': nat, out: Option<Login>)
      requires Trying(None, attempt, reconnectAttempt > 0) && HasRead(read, seen)
      modifies `trace
      ensures Trying(out, attempt', reconnectAttempt > 0) && HasRead(read + [t], seen)
    {
      ghost var before, said := trace, [];
      attempt', out, said := TryOnce(t, reconnectAttempt, attempt);
      ReadOne(before, Tried(t), said);
    }

    /**
     Logs in until it works, the context is dead, or the error is permanent.
     `None` means that the script ended before that.
     */
    method LoginWithBackoff(tries: seq<Try>, reconnectAttempt: nat) returns (out: Option<Login>, rest: seq<Try>)
      requires Proper(trace) && Now().retries && !Owes(Now())
      requires Now().setbacks == reconnectAttempt && (reconnectAttempt > 0 <==> Now().connected)
      modifies `trace
      ensures Proper(trace) && Finished(out, Now()) && (out.None? ==> rest == [])
      ensures Tries(trace) + rest == Tries(old(trace)) + tries && Ends(trace) == Ends(old(trace))
      ensures Now().connected <==> old(Now()).connected || (out.Some? && out.value.LoggedIn?)
    {
      var attempt, n := reconnectAttempt, 0;
      ghost var read, seen := Tries(trace), Ends(trace);
      out := None;
      while n < |tries| && out.None?
        invariant n <= |tries|
        invariant Trying(out, attempt, reconnectAttempt > 0) && HasRead(read + tries[..n], seen)
      {
        attempt, out := NextTry(tries[n], reconnectAttempt, attempt, read + tries[..n], seen);
        assert read + tries[..n + 1] == read + tries[..n] + [tries[n]];
        n := n + 1;
      }
      rest := tries[n..];
      assert read + tries[..n] + rest == read + tries;
    }

    /** The session was lost: the outage begins. */
    method AnnounceLoss(attempt: nat) returns (attempt': nat, ghost said: seq<Event>)
      requires Proper(trace) && Now().last == Some(Ended(Dropped)) && Now().connected
      requires Now().retries && Now().setbacks == attempt + 1
      modifies `trace
      ensures Proper(trace) && !Owes(Now()) && Now().connected
      ensures trace == old(trace) + said && AtMostOneHook(said)
      ensures Now().retries && Now().setbacks == attempt' && attempt' > 0
    {
      attempt' := attempt + 1;
      Record(Reconnecting(attempt', CLOSED));
      said := [Reconnecting(attempt', CLOSED)];
    }

    /** A turn of the loop up to where it would log in; `gone` if it ends before. */
    method AwaitEnd(end: End, attempt: nat) returns (attempt': nat, gone: bool, ghost said: seq<Event>)
      requires Proper(trace) && JustConnected(Now()) && Now().setbacks == attempt && err == None && !done
      modifies this
      ensures Proper(trace) && !Owes(Now()) && Now().connected
      ensures trace == old(trace) + [Ended(end)] + said && AtMostOneHook(said)
      ensures done == gone && err == if gone then Verdict(Now()) else None
      ensures gone ==> Over(Now())
      ensures !gone ==> Now().retries && Now().setbacks == attempt' && attempt' > 0
    {
      attempt', said, gone := attempt, [], true;
      Record(Ended(end));
      match end {
        case DeadAtTop | DeadWhileConnected | DeadAfterwards =>
          SetErr(Context);
        case NoControl =>
        case Permanent(reason) =>
          Record(Disconnected(reason, true));
          said := [Disconnected(reason, true)];
          SetErr(Permanently(reason));
        case Dropped =>
          attempt', said := AnnounceLoss(attempt);
          gone := false;
      }
      done := gone;
    }

    /** What the loop does with a login that has come to an end. */
    method AfterLogin(out: Login) returns (gone: bool, ghost said: seq<Event>)
      requires Proper(trace) && Finished(Some(out), Now()) && Now().connected && err == None && !done
      modifies this
      ensures Proper(trace) && !Owes(Now()) && Now().connected
      ensures trace == old(trace) + said && AtMostOneHook(said)
      ensures done == gone && err == if gone then Verdict(Now()) else None
      ensures gone ==> Over(Now())
      ensures !gone ==> JustConnected(Now()) && Now().setbacks == 0
    {
      said, gone := [], true;
      match out {
        case LoggedIn(_) =>
          gone := false;
        case ContextError =>
          SetErr(Context);
        case PermanentError(message) =>
          Record(Disconnected(message, true));
          said := [Disconnected(message, true)];
          SetErr(Permanently(message));
        case OtherError(_) =>
          assert false;
      }
      done := gone;
    }

    /** One turn of the reconnect loop; `stuck` if the script ended within it. */
    method Turn(end: End, tries: seq<Try>) returns (gone: bool, stuck: bool, rest: seq<Try>)
      requires Proper(trace) && JustConnected(Now()) && Now().connected && Now().setbacks == 0 && err == None && !done
      modifies this
      ensures Proper(trace) && !Owes(Now()) && Now().connected
      ensures Tries(trace) + rest == Tries(old(trace)) + tries && Ends(trace) == Ends(old(trace)) + [end]
      ensures done == gone && err == if gone then Verdict(Now()) else None
      ensures gone ==> Over(Now())
      ensures stuck ==> !gone && rest == [] && Now().retries
      ensures !gone && !stuck ==> JustConnected(Now()) && Now().setbacks == 0
    {
      var attempt := 0;
      ghost var before, said := trace, [];
      attempt, gone, said := AwaitEnd(end, attempt);
      ReadOne(before, Ended(end), said);
      stuck, rest := false, tries;
      if gone {
        return;
      }
      var out: Option<Login>;
      out, rest := LoginWithBackoff(rest, attempt);
      if out.None? {
        stuck := true;
        return;
      }
      before := trace;
      gone, said := AfterLogin(out.value);
      ReadNothing(before, said);
    }

    /** The reconnect loop; `running` if a script ended first. */
    method KeepGatewayConnectionAlive(ends: seq<End>, tries: seq<Try>) returns (running: bool)
      requires Proper(trace) && JustConnected(Now()) && Now().connected && Now().setbacks == 0 && err == None && !done
      modifies this
      ensures Proper(trace) && !Owes(Now()) && Now().connected
      ensures done == !running && err == if running then None else Verdict(Now())
      ensures !running ==> Over(Now())
      ensures Tries(trace) <= Tries(old(trace)) + tries && Ends(trace) <= Ends(old(trace)) + ends
      ensures running ==>
        if Now().retries then Tries(trace) == Tries(old(trace)) + tries
        else JustConnected(Now()) && Ends(trace) == Ends(old(trace)) + ends
    {
      var rest, gone, stuck := tries, false, false;
      for i := 0 to |ends|
        invariant Proper(trace) && JustConnected(Now()) && Now().connected && Now().setbacks == 0
        invariant Tries(trace) + rest == Tries(old(trace)) + tries
        invariant Ends(trace) == Ends(old(trace)) + ends[..i]
        invariant err == None && !done
      {
        assert ends[..i + 1] == ends[..i] + [ends[i]];
        gone, stuck, rest := Turn(ends[i], rest);
        if gone || stuck {
          return stuck;
        }
      }
      assert ends[..|ends|] == ends;
      running := true;
    }

    /** The first login, then the reconnect loop.  A first login that fails ends in silence. */
    method Run(ends: seq<End>, tries: seq<Try>) returns (started: bool, running: bool)
      requires trace == [] && err == None && !done
      modifies this
      ensures Proper(trace) && (running ==> !Owes(Now()))
      ensures Tries(trace) <= tries && Ends(trace) <= ends
      ensures started <==> Now().connected
      ensures started ==> !Owes(Now()) && done == !running && err == if running then None else Verdict(Now())
      ensures !started ==> !done && err == None
      ensures running && Now().retries ==> Tries(trace) == tries
      ensures running && !Now().retries ==> started && JustConnected(Now()) && Ends(trace) == ends
      ensures !running ==> Over(Now())
    {
      var out, rest := LoginWithBackoff(tries, 0);
      assert Tries(trace) + rest == tries;
      if out.None? {
        return false, true;
      }
      if !out.value.LoggedIn? {
        return false, false;
      }
      running := KeepGatewayConnectionAlive(ends, rest);
      started := true;
    }
  }

  // ------------------------------------------------------------- what follows

  /** Every event of a proper trace fits what was before it. */
  lemma {:induction false} FitsAt(trace: seq<Event>, i: nat)
    requires Proper(trace) && i < |trace|
    ensures Proper(trace[..i]) && Fits(ViewOf(trace[..i]), trace[i])
    ensures ViewOf(trace[..i + 1]) == Next(ViewOf(trace[..i]), trace[i])
  {
    assert trace[..i + 1][..i] == trace[..i];
    if i < |trace| - 1 {
      FitsAt(trace[..|trace| - 1], i);
      assert trace[..|trace| - 1][..i] == trace[..i];
    }
  }

  /** Setbacks and announcements balance, but for the first one of the first login. */
  lemma {:induction false} Balanced(trace: seq<Event>)
    requires Proper(trace)
    ensures ViewOf(trace).setbacks == Announced(trace)
      + (if OwesAnnouncement(ViewOf(trace)) then 1 else 0)
      + (if !ViewOf(trace).connected && ViewOf(trace).setbacks > 0 then 1 else 0)
  {
    if trace != [] {
      Balanced(trace[..|trace| - 1]);
    }
  }

  /**
   An application sees each outage as attempts 1, 2, 3, ... without gaps until it
   is connected again.  Before the first connection the numbers start at 2.
   */
  lemma AttemptsHaveNoGaps(trace: seq<Event>, i: nat)
    requires Proper(trace) && i < |trace| && trace[i].Reconnecting?
    ensures trace[i].attempt == Announced(trace[..i]) + 1 + (if ViewOf(trace[..i]).connected then 0 else 1)
  {
    FitsAt(trace, i);
    Balanced(trace[..i]);
  }

  lemma {:induction false} ConnectedIsInTrace(trace: seq<Event>)
    ensures ViewOf(trace).connected <==> exists i :: 0 <= i < |trace| && trace[i].Connected?
  {
    if trace != [] {
      ConnectedIsInTrace(trace[..|trace| - 1]);
    }
  }

  lemma FitsNext(trace: seq<Event>, i: nat)
    requires Proper(trace) && i < |trace|
    ensures i + 1 < |trace| ==> Fits(ViewOf(trace[..i + 1]), trace[i + 1])
    ensures i + 1 == |trace| ==> trace[..i + 1] == trace
  {
    if i + 1 < |trace| {
      FitsAt(trace, i + 1);
    }
  }

  /** Whatever is owed is paid by the very next event. */
  lemma PaidNext(trace: seq<Event>, i: nat)
    requires Proper(trace) && !Owes(ViewOf(trace)) && i < |trace| && Owes(ViewOf(trace[..i + 1]))
    ensures i + 1 < |trace| && Fits(ViewOf(trace[..i + 1]), trace[i + 1])
  {
    FitsNext(trace, i);
  }

  /** Every outage is announced as attempt 1 before any login is tried. */
  lemma OutageStartsWithOne(trace: seq<Event>, i: nat)
    requires Proper(trace) && !Owes(ViewOf(trace)) && i < |trace| && trace[i] == Ended(Dropped)
    ensures i + 1 < |trace| && trace[i + 1] == Reconnecting(1, "control connection closed")
  {
    FitsAt(trace, i);
    FitsAt(trace, i - 1);
    PaidNext(trace, i);
  }

  /** `OnDisconnected` is the last thing that happens, and always says permanent. */
  lemma DisconnectedIsLast(trace: seq<Event>, i: nat)
    requires Proper(trace) && i < |trace| && trace[i].Disconnected?
    ensures i == |trace| - 1 && trace[i].permanent
  {
    FitsAt(trace, i);
    FitsNext(trace, i);
  }

  /**
   After a permanent end is observed nothing else is tried: a service that was
   connected reports the reason and stops, one that never was just stops.
   */
  lemma PermanentIsFinal(trace: seq<Event>, i: nat, reason: string)
    requires Proper(trace) && !Owes(ViewOf(trace)) && i < |trace|
    requires trace[i] == Ended(Permanent(reason)) || (trace[i].Tried? && trace[i].try.result == PermanentError(reason))
    ensures trace[i + 1..] == if ViewOf(trace[..i]).connected then [Disconnected(reason, true)] else []
  {
    FitsAt(trace, i);
    if ViewOf(trace[..i]).connected {
      PaidNext(trace, i);
      DisconnectedIsLast(trace, i + 1);
    } else {
      FitsNext(trace, i);
    }
  }

  /** An error that wraps a cancelled or expired context ends the run at once, without any hook. */
  lemma ContextErrorEndsInSilence(trace: seq<Event>, i: nat)
    requires Proper(trace) && i < |trace| && trace[i].Tried? && trace[i].try.result == ContextError
    ensures i == |trace| - 1 && Verdict(ViewOf(trace)) == Some(Context)
  {
    FitsAt(trace, i);
    FitsNext(trace, i);
  }

  /**
   Who stops reconnecting is told so exactly when the reason is permanent: `Err`
   reports a permanent disconnection if and only if `OnDisconnected` was called,
   with the same reason.
   */
  lemma DisconnectedMatchesErr(trace: seq<Event>, reason: string)
    requires Proper(trace)
    ensures Verdict(ViewOf(trace)) == Some(Permanently(reason)) <==> Disconnected(reason, true) in trace
  {
    if Disconnected(reason, true) in trace {
      var i :| 0 <= i < |trace| && trace[i] == Disconnected(reason, true);
      DisconnectedIsLast(trace, i);
    }
    if Verdict(ViewOf(trace)) == Some(Permanently(reason)) {
      FitsAt(trace, |trace| - 1);
    }
  }

  /** Giving up is not always announced: a login error that wraps a cancelled or expired context ends the run. */
  lemma GivesUpInSilence(session: string) returns (trace: seq<Event>)
    ensures trace == [Tried(Try(LoggedIn(session), false, false)), Connected(session), Ended(Dropped),
                      Reconnecting(1, CLOSED), Tried(Try(ContextError, false, false))]
    ensures Proper(trace) && !Owes(ViewOf(trace)) && Verdict(ViewOf(trace)) == Some(Context)
  {
    trace := [];
    var e := Tried(Try(LoggedIn(session), false, false));
    Extended(trace, e);
    trace, e := trace + [e], Connected(session);
    Extended(trace, e);
    trace, e := trace + [e], Ended(Dropped);
    Extended(trace, e);
    trace, e := trace + [e], Reconnecting(1, CLOSED);
    Extended(trace, e);
    trace, e := trace + [e], Tried(Try(ContextError, false, false));
    Extended(trace, e);
    trace := trace + [e];
  }

  /** What is announced is what just happened: the lost connection, or the login error with its message. */
  lemma AnnouncementSays(trace: seq<Event>, i: nat)
    requires Proper(trace) && i < |trace| && trace[i].Reconnecting?
    ensures i > 0
    ensures
      || (trace[i - 1] == Ended(Dropped) && trace[i].reason == "control connection closed")
      || (LiveFailure(trace[i - 1]) && trace[i - 1].try.result.message == trace[i].reason)
  {
    FitsAt(trace, i);
    if i > 0 {
      FitsAt(trace, i - 1);
    }
  }

  /** A login that failed with the context alive and an error that is neither permanent nor the context's. */
  predicate LiveFailure(e: Event) {
    e.Tried? && e.try.result.OtherError? && !e.try.deadBeforeHook
  }

  /** Before the first connection the only setbacks are such failures. */
  lemma {:induction false} EarlySetbacks(trace: seq<Event>)
    requires Proper(trace) && !ViewOf(trace).connected
    ensures ViewOf(trace).setbacks > 0 <==> exists j :: 0 <= j < |trace| && LiveFailure(trace[j])
  {
    if trace != [] {
      var front := trace[..|trace| - 1];
      EarlySetbacks(front);
      NeverJustConnected(front);
      if j :| 0 <= j < |front| && LiveFailure(front[j]) {
        assert LiveFailure(trace[j]);
      }
    }
  }

  lemma NeverJustConnected(trace: seq<Event>)
    requires !ViewOf(trace).connected
    ensures !JustConnected(ViewOf(trace))
  {
  }

  /**
   Which failures are announced, exactly: every such failure once there was a
   connection, and before that all but the first.  The announcement comes next.
   */
  lemma FailureIsAnnounced(trace: seq<Event>, i: nat)
    requires Proper(trace) && !Owes(ViewOf(trace)) && i < |trace| && LiveFailure(trace[i])
    ensures (i + 1 < |trace| && trace[i + 1].Reconnecting?) <==>
      ViewOf(trace[..i]).connected || exists j :: 0 <= j < i && LiveFailure(trace[j])
    ensures i + 1 < |trace| && trace[i + 1].Reconnecting? ==> trace[i + 1].reason == trace[i].try.result.message
  {
    FitsAt(trace, i);
    FitsNext(trace, i);
    if !ViewOf(trace[..i]).connected {
      EarlySetbacks(trace[..i]);
      assert forall j :: 0 <= j < i ==> trace[..i][j] == trace[j];
      if j :| 0 <= j < i && LiveFailure(trace[j]) {
        assert LiveFailure(trace[..i][j]);
      }
    }
  }

  /** A failure after which the context is dead is the last attempt; at most its announcement follows. */
  lemma DeadContextStops(trace: seq<Event>, i: nat)
    requires Proper(trace) && i < |trace|
    requires trace[i].Tried? && trace[i].try.result.OtherError? && trace[i].try.deadInWait
    ensures |trace| <= i + 2 && (i + 1 < |trace| ==> trace[i + 1].Reconnecting?)
  {
    FitsAt(trace, i);
    FitsNext(trace, i);
    if i + 1 < |trace| {
      FitsAt(trace, i + 1);
      FitsNext(trace, i + 1);
    }
  }

  /** Logins are tried at the start, after a lost connection, and after a failure with the context alive. */
  lemma TriedOnlyWhenDue(trace: seq<Event>, i: nat)
    requires Proper(trace) && 0 < i < |trace| && trace[i].Tried?
    ensures var last := if trace[i - 1].Reconnecting? && i > 1 then trace[i - 2] else trace[i - 1];
      last == Ended(Dropped) || (last.Tried? && last.try.result.OtherError? && !last.try.deadInWait)
  {
    FitsAt(trace, i);
    FitsAt(trace, i - 1);
    if i > 1 {
      FitsAt(trace, i - 2);
    }
  }

  /** `OnConnected` follows every login that worked, at once and with its session, and nothing else. */
  lemma SuccessIsReported(trace: seq<Event>, i: nat)
    requires Proper(trace) && !Owes(ViewOf(trace)) && i < |trace|
    ensures trace[i].Tried? && trace[i].try.result.LoggedIn? ==>
      i + 1 < |trace| && trace[i + 1] == Connected(trace[i].try.result.session)
    ensures trace[i].Connected? ==>
      i > 0 && trace[i - 1].Tried? && trace[i - 1].try.result == LoggedIn(trace[i].session)
  {
    FitsAt(trace, i);
    FitsNext(trace, i);
    if i > 0 {
      FitsAt(trace, i - 1);
    }
  }

  /** `OnDisconnected` follows only a permanent end, with its reason. */
  lemma DisconnectedSays(trace: seq<Event>, i: nat)
    requires Proper(trace) && i < |trace| && trace[i].Disconnected?
    ensures i > 0
    ensures
      || trace[i - 1] == Ended(Permanent(trace[i].reason))
      || (trace[i - 1].Tried? && trace[i - 1].try.result == PermanentError(trace[i].reason))
  {
    FitsAt(trace, i);
    if i > 0 {
      FitsAt(trace, i - 1);
    }
  }

  /** An observation after which nothing is tried any more. */
  predicate IsFinal(e: Event) {
    match e
    case Tried(t) =>
      t.result.ContextError? || t.result.PermanentError? || (t.result.OtherError? && t.deadInWait)
    case Ended(end) => end != Dropped
    case _ => false
  }

  /** A run that is over has seen such an observation, last but for the hook that follows it. */
  lemma OverMeans(trace: seq<Event>)
    requires Proper(trace) && Over(ViewOf(trace)) && !Owes(ViewOf(trace))
    ensures trace != []
    ensures var last := trace[|trace| - 1];
      if last.Reconnecting? || last.Disconnected? then |trace| > 1 && IsFinal(trace[|trace| - 2]) else IsFinal(last)
  {
    FitsAt(trace, |trace| - 1);
    if |trace| > 1 {
      FitsAt(trace, |trace| - 2);
    }
  }

  /** `Err` of a run that is over, by how it ended. */
  lemma ErrExactly(trace: seq<Event>)
    requires Proper(trace) && Over(ViewOf(trace)) && !Owes(ViewOf(trace))
    ensures trace != []
    ensures var last, err := trace[|trace| - 1], Verdict(ViewOf(trace));
      && (err == None <==> last == Ended(NoControl))
      && (err == Some(Context) <==> !last.Disconnected? && last != Ended(NoControl))
      && (last.Disconnected? ==> err == Some(Permanently(last.reason)))
  {
  }
}
