/** The parser around the event machine: what it forwards and what it counts. */
module Parser {
  import opened Words
  import opened EventTree
  import opened EventMachine
  import opened Acceptance
  import opened Verdict
  import opened FzFSM

  datatype ParserReport = ParserReport(inEvents: nat, inBytes: nat, outEvents: nat)

  /** The machine when a chunk is attached and counted in. */
  function Attached(m: Machine, size: nat): Machine {
    Attach(m).(report := m.report.(inEvents := m.report.inEvents + 1, inBytes := m.report.inBytes + 2 * size))
  }

  /** One chunk through the machine: the machine after it, and the event forwarded, if any. */
  function ParseChunk(m: Machine, mem: Memory, size: nat, scale: Scale): (Machine, Option<Event>) {
    var (m', ok) := Run(Attached(m, size), mem, 0, size, false, scale);
    (CountOut(m', size), if ok && !m'.flags.empty then Some(Tree(m'.zip)) else None)
  }

  lemma TurnTraffic(m: Machine, mem: Memory, i: nat, scale: Scale)
    requires Typed(m.ctl, m.zip.open)
    ensures SameTraffic(m.report, Turn(m, mem, i, scale).0.report)
  {
    hide Classify, Transition, NextZip, NextAcc, NextFlags, NextControl;
  }

  predicate SameTraffic(r: Report, r': Report) {
    r'.inEvents == r.inEvents && r'.inBytes == r.inBytes && r'.outEvents == r.outEvents && r'.outBytes == r.outBytes
  }

  lemma {:induction false} RunTraffic(m: Machine, mem: Memory, i: nat, size: nat, ok: bool, scale: Scale)
    requires Typed(m.ctl, m.zip.open)
    ensures SameTraffic(m.report, Run(m, mem, i, size, ok, scale).0.report)
    decreases if i < size then size - i else 0, Pending(m.ctl)
  {
    hide Turn, Classify;
    if i < size {
      TurnTraffic(m, mem, i, scale);
      var r := Turn(m, mem, i, scale);
      RunTraffic(r.0, mem, r.1, size, ok || Completes(m, mem, i), scale);
    }
  }

  /** Conservation over one reader-framed chunk: it is counted in and out once; a parsed event is
      exactly one of good, bad and empty, and is forwarded exactly when it is good or bad. */
  lemma ChunkConserved(m: Machine, mem: Memory, size: nat, scale: Scale)
    requires OnlyLastRegid(mem, size)
    ensures var (m', out) := ParseChunk(m, mem, size, scale);
            var (_, ok) := Run(Attached(m, size), mem, 0, size, false, scale);
            var r, r' := m.report, m'.report;
            && r'.inEvents == r.inEvents + 1 && r'.outEvents == r.outEvents + 1
            && r'.inBytes == r.inBytes + 2 * size && r'.outBytes == r.outBytes + 2 * size
            && r'.eventsGood + r'.eventsBad + r'.eventsEmpty
               == r.eventsGood + r.eventsBad + r.eventsEmpty + (if ok then 1 else 0)
            && r'.eventsGood + r'.eventsBad == r.eventsGood + r.eventsBad + (if out.Some? then 1 else 0)
            && (out.Some? ==> !EmptyEvent(out.value) && CompleteEvent(out.value))
            && (r'.eventsGood > r.eventsGood ==> out.Some? && CleanEvent(out.value))
  {
    hide Run, Classify, Tree;
    var m0 := Attached(m, size);
    var (m', ok) := Run(m0, mem, 0, size, false, scale);
    assert Sound(m0);
    RunVerdict(m0, mem, 0, size, scale);
    RunTraffic(m0, mem, 0, size, false, scale);
  }

  class FzParser {
    const sm: FSM
    var report: ParserReport
    var sent: seq<Event>
    /** How many chunks the machine did not parse. */
    ghost var failed: nat

    constructor (scale: Scale)
      ensures fresh(sm) && sm.Valid() && sm.scale == scale && sent == [] && Conserved()
    {
      sm := new FSM(scale);
      report := ParserReport(0, 0, 0);
      sent := [];
      failed := 0;
    }

    /** Every counter agrees with every other one. */
    ghost predicate Conserved()
      reads this, sm
    {
      var r := sm.fsmReport;
      && r.inEvents == r.outEvents == report.inEvents
      && r.inBytes == r.outBytes == report.inBytes
      && r.eventsGood + r.eventsBad == report.outEvents == |sent|
      && r.eventsGood + r.eventsBad + r.eventsEmpty + failed == report.inEvents
      && forall e :: e in sent ==> !EmptyEvent(e) && CompleteEvent(e)
    }

    /** One message from the reader. */
    method Receive(mem: Memory, size: nat)
      requires sm.Valid()
      modifies this, sm
      ensures sm.Valid()
      ensures var (m, out) := ParseChunk(old(sm.Abs()), mem, size, sm.scale);
              sm.Abs() == m && sent == old(sent) + if out.Some? then [out.value] else []
      ensures old(Conserved()) && OnlyLastRegid(mem, size) ==> Conserved()
    {
      hide Run, Classify, Tree;
      ghost var m0 := sm.Abs();
      report := report.(inBytes := report.inBytes + 2 * size, inEvents := report.inEvents + 1);
      sm.Import(mem, size);
      var retval := sm.Process();
      assert sm.ev == Tree(sm.zip);
      if retval && !sm.flags.empty {
        sent := sent + [sm.ev];
        report := report.(outEvents := report.outEvents + 1);
      } else {
        assert sent + [] == sent;
        if !retval {
          failed := failed + 1;
        }
      }
      if OnlyLastRegid(mem, size) {
        ChunkConserved(m0, mem, size, sm.scale);
      }
    }
  }
}
