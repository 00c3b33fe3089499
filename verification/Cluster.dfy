/** Distributed run control: the controller turns events into states and broadcasts them; the
    broadcasts reach the nodes in any order, or never. */
module Cluster {
  import opened RunControl
  import opened NodeManager

  // ----- the controller -----

  function CommandNamed(v: string): (c: seq<RCcommand>)
    ensures |c| <= 1
  {
    if v == "reset" then [Reset]
    else if v == "configure" then [Configure]
    else if v == "start" then [Start]
    else if v == "stop" then [Stop]
    else []
  }

  /** What an event does to the controller's state, and the state it broadcasts, if any. A
      rejected command broadcasts nothing; an unknown value broadcasts the state as it is. */
  function EventEffect(s: RCstate, value: string): (RCstate, seq<RCstate>) {
    var c := CommandNamed(value);
    if c == [] then (s, [s])
    else if Accepted(c[0], s) then (After(c[0], s), [After(c[0], s)])
    else (s, [])
  }

  /** The request that carries a state to a node. */
  function StatusRequest(s: RCstate): Request { Request(NM, RC, WRITE, "status", StateName(s)) }

  /** One copy of a request for every host, in their order. */
  function Broadcast(hosts: seq<string>, req: Request): (r: seq<(string, Request)>)
    ensures |r| == |hosts| && forall k :: 0 <= k < |r| ==> r[k] == (hosts[k], req)
  {
    if hosts == [] then [] else Broadcast(hosts[..|hosts| - 1], req) + [(hosts[|hosts| - 1], req)]
  }

  class FzController {
    const rc: RCFSM
    /** The registered nodes, in the order of the map. */
    var hosts: seq<string>
    var outbox: seq<(string, Request)>

    constructor ()
      ensures fresh(rc) && rc.curstate == IDLE && hosts == [] && outbox == []
    {
      rc := new RCFSM();
      hosts, outbox := [], [];
    }

    method PushBroadcast(req: Request)
      modifies `outbox
      ensures outbox == old(outbox) + Broadcast(hosts, req)
    {
      assert outbox + [] == outbox;
      for i := 0 to |hosts|
        invariant outbox == old(outbox) + Broadcast(hosts[..i], req)
      {
        assert hosts[..i + 1][..i] == hosts[..i];
        outbox := outbox + [(hosts[i], req)];
      }
      assert hosts[..|hosts|] == hosts;
    }

    /** The controller went to state `s`, answered OK and sent every node that state's name. */
    ghost predicate Announced(res: Response, before: seq<(string, Request)>, s: RCstate, name: string)
      reads this, rc
    {
      && rc.curstate == s && res.code == OK
      && outbox == before + Broadcast(hosts, Request(NM, RC, WRITE, "status", name))
    }

    /** The controller stayed in state `s`, answered ERR and sent nothing. */
    ghost predicate Refused(res: Response, before: seq<(string, Request)>, s: RCstate)
      reads this, rc
    {
      rc.curstate == s && res.code == ERR && outbox == before
    }

    /** A run control request to the controller: its state is read, or an event is written. With
        registered nodes a reset always leads to IDLE and is broadcast; the other events are, in the
        states where their transition exists, and are answered with an error elsewhere. */
    method HandleRequest(req: Request) returns (res: Response)
      requires req.mod == CNT && req.channel == RC
      modifies rc, `outbox
      ensures var e := EventEffect(old(rc.curstate), req.value);
              if req.operation == WRITE && req.variable == "event" && hosts != [] then
                && rc.curstate == e.0
                && outbox == old(outbox) + (if e.1 == [] then [] else Broadcast(hosts, StatusRequest(e.1[0])))
                && (res.code == OK <==> e.1 != [])
              else rc.curstate == old(rc.curstate) && outbox == old(outbox)
      ensures req.operation == WRITE && req.variable == "event" && hosts != [] ==>
        var s := old(rc.curstate);
        if req.value == "reset" then Announced(res, old(outbox), IDLE, "idle")
        else if req.value == "configure" then
          if s == IDLE || s == PAUSED then Announced(res, old(outbox), READY, "ready") else Refused(res, old(outbox), s)
        else if req.value == "start" then
          if s == READY || s == PAUSED then Announced(res, old(outbox), RUNNING, "running")
          else Refused(res, old(outbox), s)
        else if req.value == "stop" then
          if s == RUNNING then Announced(res, old(outbox), PAUSED, "paused") else Refused(res, old(outbox), s)
        else rc.curstate == s && res.code == OK
      ensures req.operation == READ && req.variable == "status" ==>
        res == Response(OK, "OK", match rc.curstate
          case IDLE => "IDLE" case READY => "READY" case RUNNING => "RUNNING" case PAUSED => "PAUSED")
    {
      res := Response(ERR, "request format error", "");
      assert outbox + [] == outbox;
      if req.operation == READ {
        if req.variable == "status" {
          res := Response(OK, "OK", StateLabel(rc.curstate));
        } else if req.variable == "nodestatus" || req.variable == "perfdata" {
          res := Response(OK, "OK", "");  // the node reports are not part of this model
        } else {
          res := Response(ERR, "variable not found", "");
        }
      } else if req.variable == "event" {
        if |hosts| == 0 {
          res := Response(ERR, "no DAQ node available", "");
        } else {
          var rct := RCOK;
          if req.value == "reset" {
            rct := rc.Process(Reset);
          } else if req.value == "configure" {
            rct := rc.Process(Configure);
          } else if req.value == "start" {
            rct := rc.Process(Start);
          } else if req.value == "stop" {
            rct := rc.Process(Stop);
          } else {
            res := Response(ERR, "event value not correct", "");
          }
          if rct == RCERROR {
            res := Response(ERR, "wrong requested RC transition", "");
          } else {
            PushBroadcast(StatusRequest(rc.curstate));
            res := Response(OK, "RC transition ok", "");
          }
        }
      } else {
        res := Response(ERR, "variable not found", "");
      }
    }
  }

  // ----- the protocol -----

  /** A remotely controlled node: its state, and which broadcast it took last. */
  datatype Node = Node(state: RCstate, last: seq<nat>)

  /** A broadcast on its way: destination, request, and its number. */
  datatype Mail = Mail(host: string, req: Request, k: nat)

  /** The controller's state, everything it broadcast, the nodes, and the mail on its way. */
  datatype System = System(ctl: RCstate, casts: seq<RCstate>, nodes: map<string, Node>, mail: set<Mail>)

  datatype Step =
    | Event(value: string, hosts: set<string>)  // hosts: the nodes registered at this moment
    | Deliver(m: Mail)
    | Lose(m: Mail)

  predicate Enabled(s: System, step: Step) {
    match step
    case Event(_, hosts) => hosts <= s.nodes.Keys
    case Deliver(m) => m in s.mail
    case Lose(m) => m in s.mail
  }

  function TakeMail(n: Node, m: Mail): Node {
    var asked := StateAsked(REMOTE, m.req);
    if asked == [] then n else Node(asked[0], [m.k])
  }

  function Next(s: System, step: Step): System
    requires Enabled(s, step)
  {
    match step
    case Event(value, hosts) =>
      if hosts == {} then s
      else
        var e := EventEffect(s.ctl, value);
        if e.1 == [] then s.(ctl := e.0)
        else s.(ctl := e.0, casts := s.casts + e.1,
                mail := s.mail + set h | h in hosts :: Mail(h, StatusRequest(e.1[0]), |s.casts|))
    case Deliver(m) =>
      if m.host in s.nodes then s.(nodes := s.nodes[m.host := TakeMail(s.nodes[m.host], m)], mail := s.mail - {m})
      else s.(mail := s.mail - {m})
    case Lose(m) => s.(mail := s.mail - {m})
  }

  predicate Initial(s: System) {
    s.ctl == IDLE && s.casts == [] && s.mail == {} && forall h :: h in s.nodes ==> s.nodes[h] == Node(IDLE, [])
  }

  /** The steps are enabled one after another. */
  predicate Run(s: System, steps: seq<Step>)
    decreases |steps|
  {
    steps == [] || (Enabled(s, steps[0]) && Run(Next(s, steps[0]), steps[1..]))
  }

  function RunTo(s: System, steps: seq<Step>): System
    requires Run(s, steps)
    decreases |steps|
  {
    if steps == [] then s else RunTo(Next(s, steps[0]), steps[1..])
  }

  /** The controller is where its last broadcast says, mail carries the broadcast of its number,
      and a node is in the state of the broadcast it took last. */
  predicate Consistent(s: System) {
    && (s.ctl == if s.casts == [] then IDLE else s.casts[|s.casts| - 1])
    && (forall m :: m in s.mail ==> m.k < |s.casts| && m.req == StatusRequest(s.casts[m.k]))
    && (forall h :: h in s.nodes ==>
      var n := s.nodes[h];
      && |n.last| <= 1
      && n.state == if n.last == [] then IDLE else if n.last[0] < |s.casts| then s.casts[n.last[0]] else n.state)
    && (forall h :: h in s.nodes && s.nodes[h].last != [] ==> s.nodes[h].last[0] < |s.casts|)
  }

  lemma StepConsistent(s: System, step: Step)
    requires Consistent(s) && Enabled(s, step)
    ensures Consistent(Next(s, step))
    ensures s.casts <= Next(s, step).casts && Next(s, step).nodes.Keys == s.nodes.Keys
  {
    hide StateNamed, StateName, EventEffect;
    match step
    case Event(value, hosts) =>
      EffectIsState(s.ctl, value);
      var s' := Next(s, step);
      assert forall k :: 0 <= k < |s.casts| ==> s'.casts[k] == s.casts[k];
    case Deliver(m) =>
      NameRoundTrip(s.casts[m.k]);
    case Lose(m) =>
  }

  lemma EffectIsState(s: RCstate, value: string)
    ensures var e := EventEffect(s, value); |e.1| <= 1 && (e.1 == [] ==> e.0 == s) && (e.1 != [] ==> e.1 == [e.0])
  {}

  lemma {:induction false} RunConsistent(s: System, steps: seq<Step>)
    requires Consistent(s) && Run(s, steps)
    ensures Consistent(RunTo(s, steps)) && s.casts <= RunTo(s, steps).casts
    ensures RunTo(s, steps).nodes.Keys == s.nodes.Keys
    decreases |steps|
  {
    hide Next, Consistent, Enabled;
    if steps != [] {
      StepConsistent(s, steps[0]);
      RunConsistent(Next(s, steps[0]), steps[1..]);
    }
  }

  /** The state of the latest broadcast, or the initial one. */
  function LatestState(s: System): RCstate { if s.casts == [] then IDLE else s.casts[|s.casts| - 1] }

  /** The state of the broadcast a node took last, or the initial one. */
  function HeardState(s: System, n: Node): RCstate
    requires n.last != [] ==> n.last[0] < |s.casts|
  {
    if n.last == [] then IDLE else s.casts[n.last[0]]
  }

  /** For every run, whatever is lost, delayed or reordered: the controller is in the state of its
      latest broadcast and every node in the state of the broadcast it took last, idle before the
      first. So they agree exactly when these two states are the same, and in particular when the
      node took the latest broadcast last. */
  lemma NodesFollow(s: System, steps: seq<Step>, h: string)
    requires Initial(s) && Run(s, steps) && h in s.nodes
    ensures var t := RunTo(s, steps);
            && h in t.nodes && (t.nodes[h].last != [] ==> t.nodes[h].last[0] < |t.casts|)
            && t.ctl == LatestState(t) && t.nodes[h].state == HeardState(t, t.nodes[h])
            && (t.nodes[h].state == t.ctl <==> HeardState(t, t.nodes[h]) == LatestState(t))
            && (t.nodes[h].last == (if t.casts == [] then [] else [|t.casts| - 1]) ==> t.nodes[h].state == t.ctl)
  {
    hide Next, Enabled, StatusRequest, StateName;
    RunConsistent(s, steps);
  }

  function ReadyMail(h: string): Mail { Mail(h, StatusRequest(READY), 0) }

  function RunningMail(h: string): Mail { Mail(h, StatusRequest(RUNNING), 1) }

  lemma Broadcasts(h: string)
    ensures var s0 := System(IDLE, [], map[h := Node(IDLE, [])], {});
            var s1 := System(READY, [READY], map[h := Node(IDLE, [])], {ReadyMail(h)});
            var s2 := System(RUNNING, [READY, RUNNING], map[h := Node(IDLE, [])], {ReadyMail(h), RunningMail(h)});
            && Enabled(s0, Event("configure", {h})) && Next(s0, Event("configure", {h})) == s1
            && Enabled(s1, Event("start", {h})) && Next(s1, Event("start", {h})) == s2
  {
    hide StateNamed, StateName, CommandNamed;
    NamedCommands();
    assert EventEffect(IDLE, "configure") == (READY, [READY]);
    assert EventEffect(READY, "start") == (RUNNING, [RUNNING]);
  }

  lemma Overtaken(h: string)
    ensures var s2 := System(RUNNING, [READY, RUNNING], map[h := Node(IDLE, [])], {ReadyMail(h), RunningMail(h)});
            var s3 := System(RUNNING, [READY, RUNNING], map[h := Node(RUNNING, [1])], {ReadyMail(h)});
            var s4 := System(RUNNING, [READY, RUNNING], map[h := Node(READY, [0])], {});
            && Enabled(s2, Deliver(RunningMail(h))) && Next(s2, Deliver(RunningMail(h))) == s3
            && Enabled(s3, Deliver(ReadyMail(h))) && Next(s3, Deliver(ReadyMail(h))) == s4
  {
    hide StateNamed, StateName;
    NameRoundTrip(READY);
    NameRoundTrip(RUNNING);
    assert TakeMail(Node(IDLE, []), RunningMail(h)) == Node(RUNNING, [1]);
    assert TakeMail(Node(RUNNING, [1]), ReadyMail(h)) == Node(READY, [0]);
    assert {ReadyMail(h), RunningMail(h)} - {RunningMail(h)} == {ReadyMail(h)};
  }

  lemma RunFour(s: System, a: Step, b: Step, c: Step, d: Step)
    requires Enabled(s, a) && Enabled(Next(s, a), b) && Enabled(Next(Next(s, a), b), c)
    requires Enabled(Next(Next(Next(s, a), b), c), d)
    ensures Run(s, [a, b, c, d]) && RunTo(s, [a, b, c, d]) == Next(Next(Next(Next(s, a), b), c), d)
  {
    hide Next, Enabled;
    var steps := [a, b, c, d];
    assert steps[1..] == [b, c, d] && [b, c, d][1..] == [c, d] && [c, d][1..] == [d] && [d][1..] == [];
    assert Run(Next(Next(Next(s, a), b), c), [d]);
    assert Run(Next(Next(s, a), b), [c, d]);
    assert Run(Next(s, a), [b, c, d]);
    var s1 := Next(s, a);
    var s2 := Next(s1, b);
    var s3 := Next(s2, c);
    assert RunTo(s3, [d]) == Next(s3, d);
    assert RunTo(s2, [c, d]) == Next(s3, d);
    assert RunTo(s1, [b, c, d]) == Next(s3, d);
  }

  /** Two broadcasts that overtake each other leave a node behind although no mail is missing:
      each broadcast travels on its own. */
  lemma OvertakingDisagrees(h: string)
    ensures var s := System(IDLE, [], map[h := Node(IDLE, [])], {});
            var steps := [Event("configure", {h}), Event("start", {h}), Deliver(RunningMail(h)), Deliver(ReadyMail(h))];
            && Initial(s) && Run(s, steps)
            && RunTo(s, steps) == System(RUNNING, [READY, RUNNING], map[h := Node(READY, [0])], {})
  {
    hide Next, Enabled, Run, RunTo, ReadyMail, RunningMail;
    Broadcasts(h);
    Overtaken(h);
    RunFour(System(IDLE, [], map[h := Node(IDLE, [])], {}),
            Event("configure", {h}), Event("start", {h}), Deliver(RunningMail(h)), Deliver(ReadyMail(h)));
  }

  lemma NamedCommands()
    ensures CommandNamed("configure") == [Configure] && CommandNamed("start") == [Start]
    ensures CommandNamed("reset") == [Reset] && CommandNamed("stop") == [Stop]
  {
    assert "configure"[0] == 'c' && "start"[1] == 't' && "reset"[0] == 'r' && "stop"[2] == 'o' && "start"[2] == 'a';
  }
}
