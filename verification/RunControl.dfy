/** The run control state machine that the controller and a local node run. */
module RunControl {

  datatype RCstate = IDLE | READY | RUNNING | PAUSED

  datatype RCcommand = Configure | Start | Stop | Reset

  datatype RCtransition = RCERROR | RCOK

  /** The transition table: row by command, column by state; 0 is no transition. */
  function RcTable(cmd: RCcommand, s: RCstate): nat {
    match cmd
    case Configure => (match s case IDLE => 1 case READY => 0 case RUNNING => 0 case PAUSED => 7)
    case Start => (match s case IDLE => 0 case READY => 3 case RUNNING => 0 case PAUSED => 8)
    case Stop => (match s case IDLE => 0 case READY => 0 case RUNNING => 5 case PAUSED => 0)
    case Reset => (match s case IDLE => 2 case READY => 4 case RUNNING => 6 case PAUSED => 9)
  }

  predicate Accepted(cmd: RCcommand, s: RCstate) { RcTable(cmd, s) != 0 }

  /** The state after a command: a rejected command changes nothing. */
  function After(cmd: RCcommand, s: RCstate): RCstate {
    if !Accepted(cmd, s) then s
    else match cmd
      case Configure => READY
      case Start => RUNNING
      case Stop => PAUSED
      case Reset => IDLE
  }

  class RCFSM {
    var curstate: RCstate
    var lasterr: RCtransition

    constructor ()
      ensures curstate == IDLE && lasterr == RCOK
    {
      curstate, lasterr := IDLE, RCOK;
    }

    /** The answer that the command would get; the machine stays as it is. */
    method TryProcess(cmd: RCcommand) returns (r: RCtransition)
      ensures r == RCOK <==> Accepted(cmd, curstate)
      ensures match cmd
              case Reset => r == RCOK
              case Configure => r == (if curstate == IDLE || curstate == PAUSED then RCOK else RCERROR)
              case Start => r == (if curstate == READY || curstate == PAUSED then RCOK else RCERROR)
              case Stop => r == (if curstate == RUNNING then RCOK else RCERROR)
    {
      var transId := RcTable(cmd, curstate);
      r := if transId == 0 then RCERROR else RCOK;
    }

    /** A reset succeeds in every state; the other commands succeed in the states listed, and
        change nothing elsewhere. */
    method Process(cmd: RCcommand) returns (r: RCtransition)
      modifies this
      ensures curstate == After(cmd, old(curstate))
      ensures r == RCOK <==> Accepted(cmd, old(curstate))
      ensures lasterr == r
      ensures var s := old(curstate);
              (curstate, r) == match cmd
                case Reset => (IDLE, RCOK)
                case Configure => if s == IDLE || s == PAUSED then (READY, RCOK) else (s, RCERROR)
                case Start => if s == READY || s == PAUSED then (RUNNING, RCOK) else (s, RCERROR)
                case Stop => if s == RUNNING then (PAUSED, RCOK) else (s, RCERROR)
    {
      r := RCOK;
      match RcTable(cmd, curstate) {
        case 0 => r := RCERROR;
        case 1 => curstate := READY;
        case 2 => curstate := IDLE;
        case 3 => curstate := RUNNING;
        case 4 => curstate := IDLE;
        case 5 => curstate := PAUSED;
        case 6 => curstate := IDLE;
        case 7 => curstate := READY;
        case 8 => curstate := RUNNING;
        case 9 => curstate := IDLE;
        case _ =>
      }
      lasterr := r;
    }
  }

  /** The state after a whole sequence of commands. */
  function AfterAll(s: RCstate, cmds: seq<RCcommand>): RCstate {
    if cmds == [] then s else After(cmds[|cmds| - 1], AfterAll(s, cmds[..|cmds| - 1]))
  }

  /** A run is going on exactly when the last accepted command was a start. */
  function LastAccepted(s: RCstate, cmds: seq<RCcommand>): (c: seq<RCcommand>)
    ensures |c| <= 1
  {
    if cmds == [] then []
    else
      var n := |cmds| - 1;
      if Accepted(cmds[n], AfterAll(s, cmds[..n])) then [cmds[n]] else LastAccepted(s, cmds[..n])
  }

  /** From idle the state is determined by the last accepted command alone. */
  lemma {:induction false} StateIsLastAccepted(cmds: seq<RCcommand>)
    ensures var c := LastAccepted(IDLE, cmds);
            var s := AfterAll(IDLE, cmds);
            && (s == RUNNING <==> c == [Start]) && (s == PAUSED <==> c == [Stop]) && (s == READY <==> c == [Configure])
            && (s == IDLE <==> c == [] || c == [Reset])
    decreases |cmds|
  {
    if cmds != [] {
      StateIsLastAccepted(cmds[..|cmds| - 1]);
    }
  }

  /** Whatever was accepted or refused before, a reset gets every machine back into service, and
      a run that goes on can be stopped and started again without it. */
  lemma ResetRecovers(s: RCstate, cmds: seq<RCcommand>)
    ensures AfterAll(s, cmds + [Reset]) == IDLE
    ensures AfterAll(s, cmds + [Reset, Configure, Start]) == RUNNING
    ensures AfterAll(s, cmds + [Reset, Configure, Start, Stop, Start]) == RUNNING
    ensures AfterAll(s, cmds + [Reset, Configure, Start, Stop, Configure]) == READY
  {
    var r := cmds + [Reset];
    var c := r + [Configure];
    var t := c + [Start];
    var p := t + [Stop];
    AfterOne(s, cmds, Reset);
    AfterOne(s, r, Configure);
    AfterOne(s, c, Start);
    AfterOne(s, t, Stop);
    AfterOne(s, p, Start);
    AfterOne(s, p, Configure);
    assert t == cmds + [Reset, Configure, Start];
    assert p + [Start] == cmds + [Reset, Configure, Start, Stop, Start];
    assert p + [Configure] == cmds + [Reset, Configure, Start, Stop, Configure];
  }

  lemma AfterOne(s: RCstate, cmds: seq<RCcommand>, cmd: RCcommand)
    ensures AfterAll(s, cmds + [cmd]) == After(cmd, AfterAll(s, cmds))
  {
    assert (cmds + [cmd])[..|cmds|] == cmds;
  }
}
