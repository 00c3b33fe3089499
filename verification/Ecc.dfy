/** The GANIL ECC service on top of run control: every sequence of calls keeps the two in step. */
module Ecc {
  import opened RunControl
  import opened Cluster

  datatype EccState = ECC_OFF | ECC_IDLE | ECC_DESCRIBED | ECC_PREPARED | ECC_READY | ECC_RUNNING | ECC_PAUSED

  datatype Call = Describe | Prepare | ConfigureCall | StartCall | StopCall | Pause | Resume | Breakup | Undo

  /** An arc of the service: the call it answers, the state it leads to and the event it sends. */
  datatype Arc = Arc(call: Call, target: EccState, event: string)

  /** The arcs that leave a state. */
  function Arcs(s: EccState): seq<Arc> {
    match s
    case ECC_OFF => []
    case ECC_IDLE => [Arc(Describe, ECC_DESCRIBED, "reset")]
    case ECC_DESCRIBED => [Arc(Prepare, ECC_PREPARED, "reset"), Arc(Undo, ECC_IDLE, "reset")]
    case ECC_PREPARED => [Arc(ConfigureCall, ECC_READY, "configure"), Arc(Undo, ECC_DESCRIBED, "reset")]
    case ECC_READY => [Arc(StartCall, ECC_RUNNING, "start"), Arc(Breakup, ECC_PREPARED, "reset")]
    case ECC_RUNNING => [Arc(StopCall, ECC_READY, "stop"), Arc(Pause, ECC_PAUSED, "stop")]
    case ECC_PAUSED => [Arc(StopCall, ECC_READY, "configure"), Arc(Resume, ECC_RUNNING, "start")]
  }

  /** The state after a call, and the run control event it sends, if any: a call without an arc
      does nothing. */
  function CallEffect(s: EccState, c: Call): (EccState, seq<string>) {
    var arcs := Arcs(s);
    if |arcs| > 0 && arcs[0].call == c then (arcs[0].target, [arcs[0].event])
    else if |arcs| > 1 && arcs[1].call == c then (arcs[1].target, [arcs[1].event])
    else (s, [])
  }

  class EccService {
    var eccState: EccState
    /** The events sent to the controller. */
    var sent: seq<string>

    constructor ()
      ensures eccState == ECC_IDLE && sent == []
    {
      eccState, sent := ECC_IDLE, [];
    }

    method SetStatus(status: string)
      modifies `sent
      ensures sent == old(sent) + [status]
    {
      sent := sent + [status];
    }

    method SoapDescribe()
      modifies this
      ensures (eccState, sent) == Done(old(eccState), old(sent), Describe)
    {
      assert sent + [] == sent;
      if eccState == ECC_IDLE {
        eccState := ECC_DESCRIBED;
        SetStatus("reset");
      }
    }

    method SoapPrepare()
      modifies this
      ensures (eccState, sent) == Done(old(eccState), old(sent), Prepare)
    {
      assert sent + [] == sent;
      if eccState == ECC_DESCRIBED {
        eccState := ECC_PREPARED;
        SetStatus("reset");
      }
    }

    method SoapConfigure()
      modifies this
      ensures (eccState, sent) == Done(old(eccState), old(sent), ConfigureCall)
    {
      assert sent + [] == sent;
      if eccState == ECC_PREPARED {
        eccState := ECC_READY;
        SetStatus("configure");
      }
    }

    method SoapStart()
      modifies this
      ensures (eccState, sent) == Done(old(eccState), old(sent), StartCall)
    {
      assert sent + [] == sent;
      if eccState == ECC_READY {
        eccState := ECC_RUNNING;
        SetStatus("start");
      }
    }

    method SoapStop()
      modifies this
      ensures (eccState, sent) == Done(old(eccState), old(sent), StopCall)
    {
      assert sent + [] == sent;
      if eccState == ECC_RUNNING {
        eccState := ECC_READY;
        SetStatus("stop");
      } else if eccState == ECC_PAUSED {
        eccState := ECC_READY;
        SetStatus("configure");
      }
    }

    method SoapPause()
      modifies this
      ensures (eccState, sent) == Done(old(eccState), old(sent), Pause)
    {
      assert sent + [] == sent;
      if eccState == ECC_RUNNING {
        eccState := ECC_PAUSED;
        SetStatus("stop");
      }
    }

    method SoapResume()
      modifies this
      ensures (eccState, sent) == Done(old(eccState), old(sent), Resume)
    {
      assert sent + [] == sent;
      if eccState == ECC_PAUSED {
        eccState := ECC_RUNNING;
        SetStatus("start");
      }
    }

    method SoapBreakup()
      modifies this
      ensures (eccState, sent) == Done(old(eccState), old(sent), Breakup)
    {
      assert sent + [] == sent;
      if eccState == ECC_READY {
        eccState := ECC_PREPARED;
        SetStatus("reset");
      }
    }

    method SoapUndo()
      modifies this
      ensures (eccState, sent) == Done(old(eccState), old(sent), Undo)
    {
      assert sent + [] == sent;
      if eccState == ECC_PREPARED {
        eccState := ECC_DESCRIBED;
        SetStatus("reset");
      } else if eccState == ECC_DESCRIBED {
        eccState := ECC_IDLE;
        SetStatus("reset");
      }
    }
  }

  /** The service after a call: its state and everything sent. */
  function Done(s: EccState, sent: seq<string>, c: Call): (EccState, seq<string>) {
    var e := CallEffect(s, c);
    (e.0, sent + e.1)
  }

  /** The calls that have an effect, each in the states listed; all others are ignored. */
  lemma CallsExact(s: EccState, c: Call)
    ensures CallEffect(s, c) == (s, []) <==> !match c
              case Describe => s == ECC_IDLE
              case Prepare => s == ECC_DESCRIBED
              case ConfigureCall => s == ECC_PREPARED
              case StartCall => s == ECC_READY
              case StopCall => s == ECC_RUNNING || s == ECC_PAUSED
              case Pause => s == ECC_RUNNING
              case Resume => s == ECC_PAUSED
              case Breakup => s == ECC_READY
              case Undo => s == ECC_PREPARED || s == ECC_DESCRIBED
  {}

  /** The service after a sequence of calls: its state and everything sent. */
  function DoneAll(s: EccState, sent: seq<string>, calls: seq<Call>): (EccState, seq<string>)
    decreases |calls|
  {
    if calls == [] then (s, sent) else var r := Done(s, sent, calls[0]); DoneAll(r.0, r.1, calls[1..])
  }

  lemma DoneFirst(s: EccState, sent: seq<string>, c: Call, t: EccState, event: string, calls: seq<Call>, all: seq<Call>)
    requires CallEffect(s, c) == (t, [event]) && all == [c] + calls
    ensures DoneAll(s, sent, all) == DoneAll(t, sent + [event], calls)
  {
    hide CallEffect;
    assert all[1..] == calls;
  }

  /** Every call is undone by another: a whole cycle leads back to the idle service, and these are
      the events it sends. */
  lemma WholeCycle(sent: seq<string>)
    ensures var calls := [Describe, Prepare, ConfigureCall, StartCall, Pause, Resume, StopCall, Breakup, Undo, Undo];
            var events := ["reset", "reset", "configure", "start", "stop", "start", "stop", "reset", "reset", "reset"];
            DoneAll(ECC_IDLE, sent, calls) == (ECC_IDLE, sent + events)
  {
    hide DoneAll, CallEffect;
    CycleUp(sent, [Pause, Resume, StopCall, Breakup, Undo, Undo]);
    var up := sent + ["reset", "reset", "configure", "start"];
    CycleDown(up);
    assert [Describe, Prepare, ConfigureCall, StartCall] + [Pause, Resume, StopCall, Breakup, Undo, Undo]
        == [Describe, Prepare, ConfigureCall, StartCall, Pause, Resume, StopCall, Breakup, Undo, Undo];
    assert up + ["stop", "start", "stop", "reset", "reset", "reset"]
        == sent + ["reset", "reset", "configure", "start", "stop", "start", "stop", "reset", "reset", "reset"];
  }

  lemma CycleUp(sent: seq<string>, calls: seq<Call>)
    ensures DoneAll(ECC_IDLE, sent, [Describe, Prepare, ConfigureCall, StartCall] + calls)
         == DoneAll(ECC_RUNNING, sent + ["reset", "reset", "configure", "start"], calls)
  {
    hide DoneAll;
    var c1 := [StartCall] + calls;
    var c2 := [ConfigureCall] + c1;
    var c3 := [Prepare] + c2;
    var all := [Describe, Prepare, ConfigureCall, StartCall] + calls;
    DoneFirst(ECC_IDLE, sent, Describe, ECC_DESCRIBED, "reset", c3, all);
    DoneFirst(ECC_DESCRIBED, sent + ["reset"], Prepare, ECC_PREPARED, "reset", c2, c3);
    DoneFirst(ECC_PREPARED, sent + ["reset"] + ["reset"], ConfigureCall, ECC_READY, "configure", c1, c2);
    DoneFirst(ECC_READY, sent + ["reset"] + ["reset"] + ["configure"], StartCall, ECC_RUNNING, "start", calls, c1);
    assert sent + ["reset"] + ["reset"] + ["configure"] + ["start"] == sent + ["reset", "reset", "configure", "start"];
  }

  lemma CycleDown(sent: seq<string>)
    ensures DoneAll(ECC_RUNNING, sent, [Pause, Resume, StopCall, Breakup, Undo, Undo])
         == (ECC_IDLE, sent + ["stop", "start", "stop", "reset", "reset", "reset"])
  {
    hide DoneAll;
    var u: seq<Call> := [Undo];
    var a := sent + ["stop"] + ["start"] + ["stop"];
    var b := a + ["reset"] + ["reset"] + ["reset"];
    var c1 := [Breakup] + u + u;
    var c2 := [StopCall] + c1;
    var c3 := [Resume] + c2;
    var all := [Pause] + c3;
    DoneFirst(ECC_RUNNING, sent, Pause, ECC_PAUSED, "stop", c3, all);
    DoneFirst(ECC_PAUSED, sent + ["stop"], Resume, ECC_RUNNING, "start", c2, c3);
    DoneFirst(ECC_RUNNING, sent + ["stop"] + ["start"], StopCall, ECC_READY, "stop", c1, c2);
    DoneFirst(ECC_READY, a, Breakup, ECC_PREPARED, "reset", u + u, c1);
    DoneFirst(ECC_PREPARED, a + ["reset"], Undo, ECC_DESCRIBED, "reset", u, u + u);
    DoneFirst(ECC_DESCRIBED, a + ["reset"] + ["reset"], Undo, ECC_IDLE, "reset", [], u);
    DoneNothing(ECC_IDLE, b);
    assert all == [Pause, Resume, StopCall, Breakup, Undo, Undo];
    assert b == sent + ["stop", "start", "stop", "reset", "reset", "reset"];
  }

  /** A stop while paused asks for a configure, and breaking up leads back to the prepared service. */
  lemma StopWhilePaused(sent: seq<string>)
    ensures DoneAll(ECC_PAUSED, sent, [StopCall, Breakup]) == (ECC_PREPARED, sent + ["configure", "reset"])
  {
    hide DoneAll;
    DoneFirst(ECC_PAUSED, sent, StopCall, ECC_READY, "configure", [Breakup], [StopCall, Breakup]);
    DoneFirst(ECC_READY, sent + ["configure"], Breakup, ECC_PREPARED, "reset", [], [Breakup]);
    DoneNothing(ECC_PREPARED, sent + ["configure"] + ["reset"]);
    assert sent + ["configure"] + ["reset"] == sent + ["configure", "reset"];
  }

  lemma DoneNothing(s: EccState, sent: seq<string>)
    ensures DoneAll(s, sent, []) == (s, sent)
  {}

  // ----- simulation -----

  /** Which run control states go with a service state. */
  predicate InStep(e: EccState, s: RCstate) {
    match e
    case ECC_OFF => false
    case ECC_IDLE => s == IDLE
    case ECC_DESCRIBED => s == IDLE
    case ECC_PREPARED => s == IDLE
    case ECC_READY => s == READY || s == PAUSED
    case ECC_RUNNING => s == RUNNING
    case ECC_PAUSED => s == PAUSED
  }

  /** The controller after the events of one call, all of them delivered. */
  function Controlled(s: RCstate, events: seq<string>): RCstate {
    if events == [] then s else EventEffect(Controlled(s, events[..|events| - 1]), events[|events| - 1]).0
  }

  /** Both machines after a sequence of calls. */
  function AfterCalls(e: EccState, s: RCstate, calls: seq<Call>): (EccState, RCstate) {
    if calls == [] then (e, s)
    else
      var (e', s') := AfterCalls(e, s, calls[..|calls| - 1]);
      var f := CallEffect(e', calls[|calls| - 1]);
      (f.0, Controlled(s', f.1))
  }

  /** The event a call sends is a command that the table accepts. */
  predicate Legal(e: EccState, s: RCstate, c: Call) {
    var f := CallEffect(e, c);
    f.1 == [] || (CommandNamed(f.1[0]) != [] && Accepted(CommandNamed(f.1[0])[0], s))
  }

  lemma CallInStep(e: EccState, s: RCstate, c: Call)
    requires InStep(e, s)
    ensures Legal(e, s, c) && InStep(CallEffect(e, c).0, Controlled(s, CallEffect(e, c).1))
  {
    hide CommandNamed;
    NamedCommands();
    var f := CallEffect(e, c);
    if f.1 != [] {
      assert |f.1| == 1 && f.1[..0] == [];
      assert Controlled(s, f.1[..0]) == s;
    }
  }

  /** Starting both idle, every sequence of calls keeps the service and run control in step and
      never sends a command that run control rejects. */
  lemma {:induction false} CallsStayInStep(calls: seq<Call>)
    ensures var (e, s) := AfterCalls(ECC_IDLE, IDLE, calls);
            InStep(e, s) && forall c: Call :: Legal(e, s, c)
    decreases |calls|
  {
    hide CallEffect, Controlled, Legal;
    if calls != [] {
      CallsStayInStep(calls[..|calls| - 1]);
      var (e, s) := AfterCalls(ECC_IDLE, IDLE, calls[..|calls| - 1]);
      CallInStep(e, s, calls[|calls| - 1]);
    }
    var (e, s) := AfterCalls(ECC_IDLE, IDLE, calls);
    forall c: Call
      ensures Legal(e, s, c)
    {
      CallInStep(e, s, c);
    }
  }

  // ----- lost commands -----

  /** A call and whether its command reaches the controller. */
  datatype Attempt = Attempt(call: Call, delivered: bool)

  function AfterAttempt(e: EccState, s: RCstate, a: Attempt): (EccState, RCstate) {
    var f := CallEffect(e, a.call);
    (f.0, if a.delivered then Controlled(s, f.1) else s)
  }

  /** Both machines after a sequence of attempts: the service moves whether or not its command arrives. */
  function AfterAttempts(e: EccState, s: RCstate, attempts: seq<Attempt>): (EccState, RCstate) {
    if attempts == [] then (e, s)
    else
      var r := AfterAttempts(e, s, attempts[..|attempts| - 1]);
      AfterAttempt(r.0, r.1, attempts[|attempts| - 1])
  }

  /** The state of the service alone, which no loss changes. */
  function ServiceAfter(e: EccState, attempts: seq<Attempt>): EccState {
    if attempts == [] then e
    else CallEffect(ServiceAfter(e, attempts[..|attempts| - 1]), attempts[|attempts| - 1].call).0
  }

  /** A lost command that breaks step: any but the resets of preparing and undoing, and the
      configure of a stop while paused. */
  predicate HarmfulLoss(e: EccState, a: Attempt) {
    && !a.delivered && CallEffect(e, a.call).1 != []
    && a.call !in {Describe, Prepare, Undo} && !(a.call == StopCall && e == ECC_PAUSED)
  }

  /** From machines in step a call leads to machines in step exactly when its loss is not harmful. */
  lemma AttemptInStep(e: EccState, s: RCstate, a: Attempt)
    requires InStep(e, s)
    ensures var r := AfterAttempt(e, s, a); InStep(r.0, r.1) <==> !HarmfulLoss(e, a)
  {
    hide Controlled;
    CallInStep(e, s, a.call);
  }

  lemma {:induction false} ServiceAlone(e: EccState, s: RCstate, attempts: seq<Attempt>)
    ensures AfterAttempts(e, s, attempts).0 == ServiceAfter(e, attempts)
    decreases |attempts|
  {
    hide CallEffect, Controlled;
    if attempts != [] {
      ServiceAlone(e, s, attempts[..|attempts| - 1]);
    }
  }

  predicate InStepAfter(attempts: seq<Attempt>) {
    var r := AfterAttempts(ECC_IDLE, IDLE, attempts);
    InStep(r.0, r.1)
  }

  predicate HarmfulAt(attempts: seq<Attempt>, k: nat)
    requires k < |attempts|
  {
    HarmfulLoss(ServiceAfter(ECC_IDLE, attempts[..k]), attempts[k])
  }

  /** Starting both idle, the machines are in step at every point of a run, and every command
      sent is then accepted, exactly when no lost command of the run is harmful. */
  lemma {:induction false} InStepUnlessHarmful(attempts: seq<Attempt>)
    ensures (forall k :: 0 <= k <= |attempts| ==> InStepAfter(attempts[..k])) <==>
            (forall k :: 0 <= k < |attempts| ==> !HarmfulAt(attempts, k))
    ensures InStepAfter(attempts) ==>
      var r := AfterAttempts(ECC_IDLE, IDLE, attempts); forall c: Call :: Legal(r.0, r.1, c)
    decreases |attempts|
  {
    hide HarmfulLoss, InStep, Legal, AfterAttempt, CallEffect;
    if InStepAfter(attempts) {
      var r := AfterAttempts(ECC_IDLE, IDLE, attempts);
      forall c: Call
        ensures Legal(r.0, r.1, c)
      {
        CallInStep(r.0, r.1, c);
      }
    }
    if attempts == [] {
      IdleInStep();
    } else {
      var n := |attempts| - 1;
      var before := attempts[..n];
      InStepUnlessHarmful(before);
      assert attempts[..n + 1] == attempts;
      forall k | 0 <= k <= n
        ensures attempts[..k] == before[..k]
      {
      }
      forall k | 0 <= k < n
        ensures HarmfulAt(attempts, k) == HarmfulAt(before, k)
      {
        assert attempts[..k] == before[..k] && attempts[k] == before[k];
      }
      assert before[..n] == before;
      var r := AfterAttempts(ECC_IDLE, IDLE, before);
      ServiceAlone(ECC_IDLE, IDLE, before);
      if InStepAfter(before) {
        AttemptInStep(r.0, r.1, attempts[n]);
        assert InStepAfter(attempts) <==> !HarmfulAt(attempts, n);
      }
      assert (forall k :: 0 <= k <= n + 1 ==> InStepAfter(attempts[..k])) <==>
             (forall k :: 0 <= k <= n ==> InStepAfter(before[..k])) && InStepAfter(attempts);
    }
  }

  lemma IdleInStep()
    ensures InStep(ECC_IDLE, IDLE) && InStepAfter([])
  {}

  /** After a lost configure the service believes itself ready, and run control rejects its start. */
  lemma LostCommandBreaksStep()
    ensures var attempts := [Attempt(Describe, true), Attempt(Prepare, true), Attempt(ConfigureCall, false)];
            var r := AfterAttempts(ECC_IDLE, IDLE, attempts);
            r == (ECC_READY, IDLE) && HarmfulAt(attempts, 2) && !InStep(r.0, r.1) && !Legal(r.0, r.1, StartCall)
  {
    hide CommandNamed;
    NamedCommands();
    var a, b, c := Attempt(Describe, true), Attempt(Prepare, true), Attempt(ConfigureCall, false);
    assert [a, b, c][..2] == [a, b] && [a, b][..1] == [a] && [a][..0] == [];
    assert ServiceAfter(ECC_IDLE, [a]) == ECC_DESCRIBED && ServiceAfter(ECC_IDLE, [a, b]) == ECC_PREPARED;
    assert AfterAttempts(ECC_IDLE, IDLE, [a]) == AfterAttempt(ECC_IDLE, IDLE, a);
    ResetAtIdle();
    assert AfterAttempts(ECC_IDLE, IDLE, [a]) == (ECC_DESCRIBED, IDLE);
    assert AfterAttempts(ECC_IDLE, IDLE, [a, b]) == (ECC_PREPARED, IDLE);
  }

  lemma ResetAtIdle()
    ensures Controlled(IDLE, ["reset"]) == IDLE
  {
    NamedCommands();
    assert ["reset"][..0] == [];
  }
}
