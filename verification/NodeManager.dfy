/** The node manager: it answers run control requests and keeps the reader, the parsers and the
    writer of its node in one state. */
module NodeManager {
  import opened RunControl
  import opened Framing
  import opened Writer

  datatype Mode = LOCAL | REMOTE

  datatype Profile = COMPUTE | STORAGE | ALL

  predicate HasCompute(p: Profile) { p == COMPUTE || p == ALL }

  predicate HasStorage(p: Profile) { p == STORAGE || p == ALL }

  // ----- requests -----

  datatype Module = CNT | NM

  datatype Channel = RC | SETUP

  datatype Operation = READ | WRITE

  datatype Request = Request(mod: Module, channel: Channel, operation: Operation, variable: string, value: string)

  datatype ErrorCode = OK | ERR | DENY

  datatype Response = Response(code: ErrorCode, reason: string, value: string)

  function StateLabel(s: RCstate): string {
    match s case IDLE => "IDLE" case READY => "READY" case RUNNING => "RUNNING" case PAUSED => "PAUSED"
  }

  /** The lower-case label, in which states travel between nodes. */
  function StateName(s: RCstate): string {
    match s case IDLE => "idle" case READY => "ready" case RUNNING => "running" case PAUSED => "paused"
  }

  function StateNamed(v: string): (r: seq<RCstate>)
    ensures |r| <= 1
  {
    if v == "idle" then [IDLE]
    else if v == "ready" then [READY]
    else if v == "running" then [RUNNING]
    else if v == "paused" then [PAUSED]
    else []
  }

  lemma NameRoundTrip(s: RCstate)
    ensures StateNamed(StateName(s)) == [s]
  {
    assert StateName(s)[0] == if s == IDLE then 'i' else if s == READY then 'r' else if s == RUNNING then 'r' else 'p';
    assert s == READY ==> StateName(s)[1] == 'e';
    assert s == RUNNING ==> StateName(s)[1] == 'u';
  }

  /** The state a request asks a remotely controlled node to take. */
  function StateAsked(mode: Mode, req: Request): (r: seq<RCstate>)
    ensures |r| <= 1
  {
    if req.mod == NM && req.channel == RC && req.operation == WRITE && mode == REMOTE && req.variable == "status"
    then StateNamed(req.value) else []
  }

  /** A request that switches storing on or off. */
  predicate StoringAsked(profile: Profile, req: Request) {
    && req.mod == NM && req.channel == SETUP && req.operation == WRITE && profile != COMPUTE
    && (req.variable == "store" || req.variable == "nostore")
  }

  class FzNodeManager {
    const mode: Mode
    const profile: Profile
    const rc: RCFSM
    const wr: FzWriter
    var state: RCstate
    var reader: RCstate
    var parsers: seq<RCstate>

    constructor (mode: Mode, profile: Profile, parserNum: nat, wr: FzWriter)
      requires wr.Valid() && wr.rcstate == IDLE
      ensures this.mode == mode && this.profile == profile && this.wr == wr && fresh(rc)
      ensures rc.curstate == IDLE && state == IDLE && Agree()
    {
      this.mode, this.profile, this.wr := mode, profile, wr;
      rc := new RCFSM();
      state, reader := IDLE, IDLE;
      parsers := seq(parserNum, _ => IDLE);
    }

    /** The state the node reports. */
    function RcState(): RCstate
      reads this, rc
    {
      if mode == REMOTE then state else rc.curstate
    }

    /** Every worker of the node's profile is in that state. */
    ghost predicate Agree()
      reads this, rc, wr
    {
      && wr.Valid()
      && (profile != STORAGE ==> reader == RcState() && forall p :: p in parsers ==> p == RcState())
      && (profile != COMPUTE ==> wr.rcstate == RcState())
    }

    /** Brings the reader and every parser into the state. */
    method ComputeStateDo(s: RCstate)
      modifies `reader, `parsers
      ensures reader == s && forall p :: p in parsers ==> p == s
    {
      reader := s;
      var i := 0;
      while i < |parsers|
        invariant 0 <= i <= |parsers| && reader == s && forall k :: 0 <= k < i ==> parsers[k] == s
      {
        parsers := parsers[i := s];
        i := i + 1;
      }
    }

    /** Brings every worker of the profile into the state. */
    method RcStateDo(s: RCstate)
      requires wr.Valid()
      modifies `reader, `parsers, wr
      ensures wr.Valid()
      ensures if profile != STORAGE then reader == s && forall p :: p in parsers ==> p == s
              else reader == old(reader) && parsers == old(parsers)
      ensures wr.store == old(wr.store) && wr.rcstate == if profile == COMPUTE then old(wr.rcstate) else s
      ensures Flatten(wr.stored) == Flatten(old(wr.stored))
      ensures wr.startNewdir == (old(wr.startNewdir) && !(profile != COMPUTE && Starts(old(wr.rcstate), s)))
      ensures wr.dirs == old(wr.dirs)
        + if profile != COMPUTE && Starts(old(wr.rcstate), s) && !old(wr.startNewdir) && old(wr.store)
          then [old(wr.dirid)] else []
    {
      hide FzWriter.Valid, Flatten;
      if HasCompute(profile) {
        ComputeStateDo(s);
      }
      if HasStorage(profile) {
        wr.SetRcstate(s);
      } else {
        assert wr.dirs + [] == wr.dirs;
      }
    }

    /** A local command: workers follow when the state changed, and always after a reset. */
    method RcProcess(cmd: RCcommand) returns (r: RCtransition)
      requires Agree()
      modifies `reader, `parsers, rc, wr
      ensures Agree() && rc.curstate == After(cmd, old(rc.curstate)) && (r == RCOK <==> Accepted(cmd, old(rc.curstate)))
      ensures Flatten(wr.stored) == Flatten(old(wr.stored)) && (mode == LOCAL ==> RcState() == rc.curstate)
      ensures var starts := mode == LOCAL && profile != COMPUTE && cmd == Start && r == RCOK;
              && wr.store == old(wr.store) && wr.startNewdir == (old(wr.startNewdir) && !starts)
              && wr.dirs == old(wr.dirs)
                 + if starts && !old(wr.startNewdir) && old(wr.store) then [old(wr.dirid)] else []
    {
      hide FzWriter.Valid, Flatten;
      var prev := rc.curstate;
      r := rc.Process(cmd);
      assert wr.dirs + [] == wr.dirs;
      if cmd == Reset || (r == RCOK && rc.curstate != prev) {
        if mode == LOCAL {
          RcStateDo(rc.curstate);
        }
      }
    }

    /** A request from the controller or from a client: only a remotely controlled node takes
        states, only a storage node takes storing modes, and reading changes nothing. */
    method HandleRequest(req: Request) returns (res: Response)
      requires Agree()
      modifies this, wr
      ensures Agree() && Flatten(wr.stored) == Flatten(old(wr.stored))
      ensures state == if StateAsked(mode, req) != [] then StateAsked(mode, req)[0] else old(state)
      ensures mode == LOCAL ==> state == old(state)
      ensures mode == REMOTE && req == Request(NM, RC, WRITE, "status", req.value) ==>
        if req.value == "idle" then res.code == OK && state == IDLE
        else if req.value == "ready" then res.code == OK && state == READY
        else if req.value == "running" then res.code == OK && state == RUNNING
        else if req.value == "paused" then res.code == OK && state == PAUSED
        else res.code == ERR && state == old(state)
      ensures res.code == OK && req.channel == RC && req.operation == WRITE ==> StateAsked(mode, req) == [state]
      ensures req.mod == NM && req.channel == RC && req.operation == WRITE && mode == LOCAL ==> res.code == DENY
      ensures req.mod == NM && req.channel == RC && req.operation == READ && req.variable == "status" ==>
        res.code == OK && res.value == match RcState()
          case IDLE => "IDLE" case READY => "READY" case RUNNING => "RUNNING" case PAUSED => "PAUSED"
      ensures req.mod == NM && req.channel == RC && req.operation == READ && req.variable == "mode" ==>
        res.code == OK && res.value == if mode == REMOTE then "remote" else "local"
      ensures wr.store == if StoringAsked(profile, req) then req.variable == "store" else old(wr.store)
      ensures var asked := StateAsked(mode, req);
              var starts := asked != [] && profile != COMPUTE && Starts(old(wr.rcstate), asked[0]);
              && wr.startNewdir == (old(wr.startNewdir) && !starts)
              && wr.dirs == old(wr.dirs)
                 + if starts && !old(wr.startNewdir) && old(wr.store) then [old(wr.dirid)] else []
    {
      hide FzWriter.Valid, Flatten;
      res := Response(ERR, "request format error", "");
      if req.mod != NM {
        return Response(ERR, "module destination error", "");
      }
      if req.channel == RC {
        if req.operation == READ {
          if req.variable == "status" {
            res := Response(OK, "OK", StateLabel(RcState()));
          } else if req.variable == "mode" {
            res := Response(OK, "OK", if mode == REMOTE then "remote" else "local");
          } else if req.variable == "perfdata" {
            res := Response(OK, "OK", "");  // the node report itself is not part of this model
          } else {
            res := Response(ERR, "variable not found", "");
          }
        } else if mode == REMOTE {
          if req.variable == "status" {
            var asked := StateNamed(req.value);
            if asked != [] {
              state := asked[0];
              RcStateDo(state);
              res := Response(OK, "OK", "");
            } else {
              res := Response(ERR, "status value not correct", "");
            }
          } else {
            res := Response(ERR, "variable not found", "");
          }
        } else {
          res := Response(DENY, "FzDAQ Run Control set to local mode", "");
        }
      } else if req.operation == WRITE && HasStorage(profile) {
        if req.variable == "store" || req.variable == "nostore" {
          wr.SetStore(req.variable == "store");
          res := Response(OK, "OK", "");
        }
      }
    }

    /** A whole session of local commands on a node that stores: every successful start after the
        first takes exactly one new run directory, and all other commands take none. */
    method Session(cmds: seq<RCcommand>)
      requires Agree() && mode == LOCAL && profile != COMPUTE && wr.startNewdir && wr.store
      modifies `reader, `parsers, rc, wr
      ensures Agree() && rc.curstate == AfterAll(old(rc.curstate), cmds)
      ensures |wr.dirs| == |old(wr.dirs)| + NewDirectories(old(rc.curstate), cmds)
      ensures old(wr.dirs) <= wr.dirs && forall i, j :: 0 <= i < j < |wr.dirs| ==> wr.dirs[i] < wr.dirs[j]
    {
      hide FzWriter.Stored, FzWriter.Numbered, FzWriter.Valid, Flatten, After, Accepted;
      for n := 0 to |cmds|
        invariant Agree() && wr.store && rc.curstate == AfterAll(old(rc.curstate), cmds[..n])
        invariant wr.startNewdir == (StartCount(old(rc.curstate), cmds[..n]) == 0)
        invariant old(wr.dirs) <= wr.dirs
        invariant |wr.dirs| == |old(wr.dirs)| + NewDirectories(old(rc.curstate), cmds[..n])
      {
        assert cmds[..n + 1][..n] == cmds[..n];
        var r := RcProcess(cmds[n]);
      }
      assert cmds[..|cmds|] == cmds;
      DirectoriesAscend(wr);
    }
  }

  lemma DirectoriesAscend(wr: FzWriter)
    requires wr.Valid()
    ensures forall i, j :: 0 <= i < j < |wr.dirs| ==> wr.dirs[i] < wr.dirs[j]
  {
    hide FzWriter.Stored;
  }

  predicate Starts(s: RCstate, s': RCstate) { (s == PAUSED || s == READY) && s' == RUNNING }

  /** How many starts of the session are accepted. */
  function StartCount(s: RCstate, cmds: seq<RCcommand>): nat {
    if cmds == [] then 0
    else
      var n := |cmds| - 1;
      StartCount(s, cmds[..n]) + if cmds[n] == Start && Accepted(Start, AfterAll(s, cmds[..n])) then 1 else 0
  }

  function NewDirectories(s: RCstate, cmds: seq<RCcommand>): nat {
    if StartCount(s, cmds) == 0 then 0 else StartCount(s, cmds) - 1
  }
}
