/** The event machine in tag format, as a function from states to states.

    A state is split into four parts that evolve almost independently: the control part
    decides how many words are consumed, the accumulators count and check them, the zip
    holds the tree, and the report counts outcomes. */
module EventMachine {
  import opened Words
  import opened EventTree

  datatype State = Idle | S1 | S2 | S3 | S4 | S5 | S6 | S7 | S8 | S9 | S10

  const TAG_VOID: Word := 0x3030
  const TAG_SLOW: Word := 0x7001
  const TAG_FAST: Word := 0x7002
  const TAG_BASELINE: Word := 0x7003
  const TAG_PRETRIGGER: Word := 0x7004
  const TAG_WAVEFORM: Word := 0x7005
  const TAG_RB_COUNTERS: Word := 0x7100
  const TAG_RB_TIME: Word := 0x7101
  const TAG_RB_GTTAG: Word := 0x7110
  const TAG_RB_EC: Word := 0x7111
  const TAG_RB_TRIGPAT: Word := 0x7112
  const TAG_RB_TEMP: Word := 0x7113
  const TAG_RB_CENTRUM: Word := 0x7200

  /** The transition table: row by word class, column by state. */
  function Transition(c: Class, s: State): nat {
    match c
    case DATA => (match s case Idle => 1 case S2 => 4 case S3 => 5 case S4 => 7 case S5 => 8 case _ => 0)
    case EMPTY => 0
    case TELID => (match s case Idle => 1 case S1 => 3 case S5 => 10 case _ => 0)
    case LENGTH => (match s case Idle => 1 case S5 => 11 case S8 => 15 case _ => 0)
    case CRCFE => (match s case Idle => 1 case S6 => 12 case _ => 0)
    case REGID => (match s case Idle => 1 case S10 => 18 case _ => 0)
    case CRCBL => (match s case Idle => 1 case S9 => 16 case _ => 0)
    case EC => (match s case Idle => 2 case S7 => 13 case S10 => 17 case _ => 0)
    case EOE => (match s case Idle => 1 case _ => 0)
    case DETID => (match s case Idle => 1 case S3 => 6 case S5 => 9 case _ => 0)
    case BLKID => (match s case Idle => 1 case S1 => 14 case _ => 0)
  }

  /** The state a transition leads to. */
  function Target(t: nat): State {
    if t == 2 || t == 13 || t == 17 then S1
    else if t == 3 || t == 10 then S2
    else if t == 4 || t == 5 then S3
    else if t == 6 || t == 9 then S4
    else if t == 7 || t == 8 then S5
    else if t == 11 then S6
    else if t == 12 then S7
    else if t == 14 then S8
    else if t == 15 then S9
    else if t == 16 then S10
    else Idle
  }

  /** Each transition has one source state and one word class. */
  lemma TransitionSource(c: Class, s: State)
    ensures var t := Transition(c, s);
            && t <= 18
            && (t == 2 <==> s == Idle && c == EC) && (t == 3 <==> s == S1 && c == TELID)
            && (t == 4 <==> s == S2 && c == DATA) && (t == 5 <==> s == S3 && c == DATA)
            && (t == 6 <==> s == S3 && c == DETID) && (t == 7 <==> s == S4 && c == DATA)
            && (t == 8 <==> s == S5 && c == DATA) && (t == 9 <==> s == S5 && c == DETID)
            && (t == 10 <==> s == S5 && c == TELID) && (t == 11 <==> s == S5 && c == LENGTH)
            && (t == 12 <==> s == S6 && c == CRCFE) && (t == 13 <==> s == S7 && c == EC)
            && (t == 14 <==> s == S1 && c == BLKID) && (t == 15 <==> s == S8 && c == LENGTH)
            && (t == 16 <==> s == S9 && c == CRCBL) && (t == 17 <==> s == S10 && c == EC)
            && (t == 18 <==> s == S10 && c == REGID)
            && (t == 1 <==> s == Idle && c != EC && c != EMPTY)
  {}

  function NextState(s: State, c: Class): State { Target(Transition(c, s)) }

  // ----- control -----

  datatype Control = Control(state: State, tag: Word, tagDone: bool, wflenDone: bool, rdWflen: Word)

  /** A tag and its length have been read; the next data word opens the payload. */
  predicate Pending(c: Control) { c.state == S5 && c.tagDone && c.wflenDone }

  function Trans(c: Control, w: Word): nat { Transition(Classify(w), c.state) }

  predicate OpensPayload(c: Control, w: Word) { Pending(c) && Classify(w) == DATA }

  /** A waveform announced with length zero: nothing is read and the word is seen again. */
  predicate ZeroWave(c: Control, w: Word) {
    OpensPayload(c, w) && c.tag == TAG_WAVEFORM && c.rdWflen == 0
  }

  /** Payload words of a record: its tag and its announced length decide. */
  function PayloadLength(tag: Word, n: Word): nat {
    if tag == TAG_WAVEFORM || tag == TAG_RB_COUNTERS then (if n == 0 then 1 else n)
    else if tag == TAG_SLOW || tag == TAG_FAST then 3
    else if tag == TAG_BASELINE || tag == TAG_RB_TIME || tag == TAG_RB_GTTAG || tag == TAG_RB_EC then 2
    else if tag == TAG_RB_CENTRUM then 7
    else 1
  }

  /** How many words the dispatch of `w` consumes, `w` included. */
  function Need(c: Control, w: Word): (n: nat)
    ensures n >= 1
  {
    if OpensPayload(c, w) then PayloadLength(c.tag, c.rdWflen) else 1
  }

  function NextControl(c: Control, w: Word): Control {
    var t := Trans(c, w);
    if t == 7 then Control(S5, w, w != TAG_VOID, false, 0)
    else if t == 8 then
      if !c.tagDone then c.(tag := w, tagDone := w != TAG_VOID)
      else if !c.wflenDone then c.(rdWflen := w, wflenDone := true)
      else c.(tagDone := false, wflenDone := false, rdWflen := 0)
    else c.(state := Target(t))
  }

  // ----- accumulators -----

  datatype Acc = Acc(blklen: nat, blkcrc: Word, feelen: nat, feecrc: Word, saveBlkcrc: Word, saveFeecrc: Word,
                     rdBlklen: nat, rdFeelen: nat, rawec: Word)

  function AddBlk(a: Acc, ws: seq<Word>): Acc {
    a.(blklen := a.blklen + |ws|, blkcrc := XorFrom(a.blkcrc, ws))
  }

  function AddFee(a: Acc, ws: seq<Word>): Acc {
    a.(feelen := a.feelen + |ws|, feecrc := XorFrom(a.feecrc, ws))
  }

  /** Words that count both in the card and in the block. */
  function Feed(a: Acc, ws: seq<Word>): Acc { AddFee(AddBlk(a, ws), ws) }

  function Save(a: Acc): Acc { a.(saveBlkcrc := a.blkcrc, saveFeecrc := a.feecrc) }

  function NextAcc(c: Control, a: Acc, ws: seq<Word>): Acc
    requires ws != []
  {
    var w := ws[0];
    var t := Trans(c, w);
    if t == 2 || t == 17 then a.(blklen := 1, blkcrc := w, rawec := w)
    else if t == 3 then AddBlk(a, ws).(feelen := 2, feecrc := Xor(a.rawec, w))
    else if t == 8 && OpensPayload(c, w) && c.tag == TAG_WAVEFORM then Save(Feed(a, ws))
    else if 4 <= t <= 10 then Feed(a, ws)
    else if t == 11 then AddBlk(a, ws).(rdFeelen := Low12(w))
    else if t == 12 || t == 14 then AddBlk(a, ws)
    else if t == 13 then AddBlk(a, ws).(rawec := w)
    else if t == 15 then a.(rdBlklen := Low12(w), blkcrc := Xor(a.blkcrc, w))
    else a
  }

  lemma FeedConcat(a: Acc, u: seq<Word>, v: seq<Word>)
    ensures Feed(Feed(a, u), v) == Feed(a, u + v)
  {
    XorFromConcat(a.blkcrc, u, v);
    XorFromConcat(a.feecrc, u, v);
  }

  lemma FeedNothing(a: Acc)
    ensures Feed(a, []) == a
  {}

  predicate FeeLenError(a: Acc) { a.feelen % 4096 != a.rdFeelen }

  predicate FeeCrcError(a: Acc, w: Word) { CheckByte(w) != Fold8(a.feecrc) }

  predicate BlkLenError(a: Acc) { a.blklen % 4096 + 2 != a.rdBlklen }

  predicate BlkCrcError(a: Acc, w: Word) { CheckByte(w) != Fold8(a.blkcrc) }

  // ----- data -----

  /** The rise-time division of the energies, a floating-point operation that is left open. */
  type Scale = (nat, Word) -> nat

  /** The front-end card number, with the source's range check. */
  function CheckedFec(f: nat): nat { if f > 15 then 16 else f }

  function DetectedType(w: Word): DataType {
    var detid := DetectorField(w);
    var dtype := DataTypeField(w);
    if FecField(w) == 15 then ADC
    else if detid == 0 && dtype == 0 then QH1
    else if detid == 0 && dtype == 1 then I1
    else if detid == 0 && dtype == 2 then QL1
    else if detid == 1 && dtype == 0 then Q2
    else if detid == 1 && dtype == 1 then I2
    else if detid == 2 && dtype == 0 then Q3
    else UNKDT
  }

  function NewData(w: Word): Data { Data(DetectedType(w), None, None, None) }

  function NewHit(ec: nat, w: Word): Hit {
    Hit(ec, TelescopeField(w), CheckedFec(FecField(w)), 0, 0, 0, 0, [])
  }

  /** The hit opened by a second detector header: tags are copied, identifiers come from the word. */
  function NextHit(ec: nat, h: Hit, w: Word): Hit {
    Hit(ec, TelescopeField(w), CheckedFec(FecField(w)), h.gttag, h.dettag, h.trigpat, DetectorField(w), [])
  }

  /** Reading a tag creates the node its payload will fill. */
  function OpenTag(d: Data, tag: Word): Data {
    if tag == TAG_PRETRIGGER || tag == TAG_WAVEFORM then
      if d.waveform.None? then d.(waveform := Some(Waveform(None, [], true))) else d
    else if tag == TAG_SLOW || tag == TAG_FAST then
      d.(energy := Some(Energy(if d.energy.None? then [] else d.energy.value.values, false)))
    else d
  }

  /** The nodes that the payload of the pending tag fills exist. */
  predicate TagOpen(d: Data, tag: Word) {
    && (tag == TAG_PRETRIGGER || tag == TAG_WAVEFORM ==> d.waveform.Some?)
    && (tag == TAG_SLOW || tag == TAG_FAST ==> d.energy.Some?)
  }

  /** A 32-bit value shifted up by one 15-bit word. */
  function Shift15(v: nat, w: Word): nat { (v * 32768 + w) % 0x1_0000_0000 }

  lemma Shift15Fits(hi: Word, lo: Word)
    ensures Shift15(hi, lo) == hi * 32768 + lo
  {}

  /** Storing at an index that does not exist has no defined effect in the source; here it has none. */
  function SetValue(vs: seq<nat>, i: nat, x: nat): seq<nat> { if i < |vs| then vs[i := x] else vs }

  function ValueAt(vs: seq<nat>, i: nat): nat { if i < |vs| then vs[i] else 0 }

  /** An energy record: the high word is appended, then entry `i` takes the low word and is scaled. */
  function AddEnergy(vs: seq<nat>, i: nat, ws: seq<Word>, scale: Scale): seq<nat>
    requires |ws| == 3
  {
    var vs := vs + [ws[1]];
    SetValue(vs, i, scale(Shift15(ValueAt(vs, i), ws[2]), ws[0]))
  }

  function Baseline(hi: Word, lo: Word): int {
    var b := hi * 32768 + lo;
    if b > 536870911 then b - 1073741824 else b
  }

  function AddSamples(wf: Waveform, ws: seq<Word>, announced: Word): Waveform {
    var samples := wf.samples + ws;
    Waveform(wf.pretrig, samples, |samples| != announced)
  }

  /** What a payload does to the current data node. */
  function FillData(d: Data, tag: Word, announced: Word, ws: seq<Word>, scale: Scale): Data
    requires TagOpen(d, tag)
    requires |ws| == PayloadLength(tag, announced)
  {
    if tag == TAG_PRETRIGGER then d.(waveform := Some(d.waveform.value.(pretrig := Some(ws[0]))))
    else if tag == TAG_WAVEFORM then d.(waveform := Some(AddSamples(d.waveform.value, ws, announced)))
    else if tag == TAG_SLOW then
      d.(energy := Some(d.energy.value.(values := AddEnergy(d.energy.value.values, 0, ws, scale))))
    else if tag == TAG_FAST then
      d.(energy := Some(d.energy.value.(values := AddEnergy(d.energy.value.values, 1, ws, scale))))
    else if tag == TAG_BASELINE then d.(baseline := Some(Baseline(ws[0], ws[1])))
    else d
  }

  function Pair15(hi: Word, lo: Word): nat { hi * 32768 + lo }

  function Counters(ws: seq<Word>): (r: seq<TrigInfo>)
    ensures |r| == |ws|
  {
    seq(|ws|, i requires 0 <= i < |ws| => TrigInfo(0x100 + i, ws[i]))
  }

  /** The first Centrum word keeps six low bits and lifts its top five above a 30-bit value. */
  function Centrum0(w: Word): nat { w % 64 + w / 2048 * 2048 * 32768 }

  function CentrumInfo(ws: seq<Word>): (r: seq<TrigInfo>)
    requires |ws| == 7
    ensures |r| == 4
  {
    [TrigInfo(0x200, Centrum0(ws[0])), TrigInfo(0x201, Pair15(ws[1], ws[2])),
     TrigInfo(0x202, Pair15(ws[3], ws[4])), TrigInfo(0x203, Pair15(ws[5], ws[6]))]
  }

  /** The trigger information a payload adds to the event. */
  function FillInfo(h: Hit, tag: Word, announced: Word, ws: seq<Word>): seq<TrigInfo>
    requires |ws| == PayloadLength(tag, announced)
  {
    if tag == TAG_RB_COUNTERS then Counters(ws[..announced])
    else if tag == TAG_RB_TIME then [TrigInfo(0x10C, Pair15(ws[0], ws[1]) * 4 / 150)]
    else if tag == TAG_RB_GTTAG then [TrigInfo(0x10D, Pair15(ws[0], ws[1]) * 32768 + h.gttag)]
    else if tag == TAG_RB_EC then [TrigInfo(0x10E, Pair15(ws[0], ws[1]) * 4096 + h.ec)]
    else if tag == TAG_RB_TRIGPAT then [TrigInfo(0x10F, ws[0])]
    else if tag == TAG_RB_TEMP then [TrigInfo(0x110, ws[0])]
    else if tag == TAG_RB_CENTRUM then CentrumInfo(ws)
    else []
  }

  /** The waveform check that follows every payload of that tag. */
  predicate WaveMismatch(d: Data, tag: Word) {
    tag == TAG_WAVEFORM && d.waveform.Some? && d.waveform.value.lenError
  }

  // ----- the whole machine -----

  datatype Report = Report(inEvents: nat, inBytes: nat, outEvents: nat, outBytes: nat, stateInvalid: nat,
                           eventsEmpty: nat, eventsGood: nat, eventsBad: nat)

  /** The event counter of the last EC word, whether the detector tag has been stored, and
      the running verdicts on the event. */
  datatype Flags = Flags(ec: nat, dettagDone: bool, err: bool, empty: bool)

  datatype Machine = Machine(ctl: Control, acc: Acc, zip: Zip, flags: Flags, report: Report)

  /** The typestate: each state fixes which nodes are open, and a pending tag fixes which
      node its payload will fill. */
  predicate Typed(ctl: Control, o: Open) {
    match ctl.state
    case Idle => o.Closed?
    case S1 | S7 | S8 | S9 => o.AtBlock?
    case S2 | S3 => o.AtHit?
    case S4 => o.AtData?
    case S5 => o.AtData? && (ctl.tagDone ==> TagOpen(o.dat, ctl.tag))
    case S6 => o.AtFee?
    case S10 => o.Closed?
  }

  /** Data words: inside a record they fill the current data node or extend the trigger information. */
  function NextData(c: Control, z: Zip, ws: seq<Word>, scale: Scale): (r: Zip)
    requires z.open.AtData? && (Pending(c) ==> TagOpen(z.open.dat, c.tag))
    requires ws != [] && (Pending(c) ==> |ws| == PayloadLength(c.tag, c.rdWflen))
    ensures r.open.AtData?
    ensures !Pending(c) && !(c.state == S5 && c.tagDone) ==> TagOpen(r.open.dat, ws[0])
    ensures c.state == S5 && c.tagDone && !c.wflenDone ==> r == z
  {
    var o := z.open;
    if c.state != S5 || !c.tagDone then z.(open := AtData(o.blk, o.fee, o.hit, OpenTag(o.dat, ws[0])))
    else if !c.wflenDone then z
    else
      Zip(z.done.(trinfo := z.done.trinfo + FillInfo(o.hit, c.tag, c.rdWflen, ws)),
          AtData(o.blk, o.fee, o.hit, FillData(o.dat, c.tag, c.rdWflen, ws, scale)))
  }

  /** The words that open, name and close the nodes of the tree. */
  function NextNode(m: Machine, w: Word): (z: Zip)
    requires Typed(m.ctl, m.zip.open)
    requires Trans(m.ctl, w) != 7 && Trans(m.ctl, w) != 8
    ensures Typed(NextControl(m.ctl, w), z.open)
  {
    var z := m.zip;
    var o := z.open;
    match Trans(m.ctl, w)
    case 0 => Zip(CLEARED, Closed)
    case 2 => Zip(z.done.(ec := Low12(w)), AtBlock(Block(0, true, true, [])))
    case 3 => z.(open := AtHit(o.blk, Fee(CheckedFec(FecField(w)), true, true, []), NewHit(m.flags.ec, w)))
    case 4 => z.(open := AtHit(o.blk, o.fee, o.hit.(gttag := w)))
    case 5 => z.(open := AtHit(o.blk, o.fee, if m.flags.dettagDone then o.hit.(trigpat := w) else o.hit.(dettag := w)))
    case 6 => z.(open := AtData(o.blk, o.fee, o.hit.(detid := DetectorField(w)), NewData(w)))
    case 9 =>
      z.(open := AtData(o.blk, CloseFee(o.fee, CloseHit(o.hit, o.dat)), NextHit(z.done.ec, o.hit, w), NewData(w)))
    case 10 => z.(open := AtHit(o.blk, CloseFee(o.fee, CloseHit(o.hit, o.dat)), NewHit(z.done.ec, w)))
    case 11 => z.(open := AtFee(o.blk, CloseFee(o.fee, CloseHit(o.hit, o.dat))))
    case 12 =>
      z.(open := AtBlock(CloseBlock(o.blk, o.fee.(lenError := FeeLenError(m.acc), crcError := FeeCrcError(m.acc, w)))))
    case 14 => z.(open := AtBlock(o.blk.(blkid := Low11(w))))
    case 16 =>
      if o.blk.blkid == TRIGGER_BLOCK && !BlkCrcError(m.acc, w) then z.(open := Closed)
      else
        var b := o.blk.(lenError := BlkLenError(m.acc), crcError := BlkCrcError(m.acc, w));
        Zip(z.done.(blocks := z.done.blocks + [b]), Closed)
    case 17 => Zip(z.done.(ec := Low12(w)), AtBlock(Block(0, true, true, [])))
    case 18 => z.(done := z.done.(regid := Low11(w)))
    case _ => z
  }

  function NextZip(m: Machine, ws: seq<Word>, scale: Scale): (z: Zip)
    requires Typed(m.ctl, m.zip.open)
    requires ws != [] && |ws| == Need(m.ctl, ws[0])
    ensures Typed(NextControl(m.ctl, ws[0]), z.open)
  {
    var t := Trans(m.ctl, ws[0]);
    if t == 7 || t == 8 then NextData(m.ctl, m.zip, ws, scale) else NextNode(m, ws[0])
  }

  function NextErr(m: Machine, ws: seq<Word>, z: Zip): bool
    requires ws != []
  {
    var w := ws[0];
    var t := Trans(m.ctl, w);
    if t == 2 then false
    else if t == 6 || t == 9 then m.flags.err || DetectedType(w) == UNKDT
    else if t == 8 && Pending(m.ctl) then m.flags.err || (z.open.AtData? && WaveMismatch(z.open.dat, m.ctl.tag))
    else if t == 12 then m.flags.err || FeeLenError(m.acc) || FeeCrcError(m.acc, w)
    else if t == 16 then m.flags.err || BlkLenError(m.acc) || BlkCrcError(m.acc, w)
    else if t == 18 then m.flags.err && EmptyEvent(z.done)
    else m.flags.err
  }

  function NextFlags(m: Machine, ws: seq<Word>, z: Zip): Flags
    requires ws != []
  {
    var w := ws[0];
    var t := Trans(m.ctl, w);
    Flags(if t == 2 || t == 13 || t == 17 then Low12(w) else m.flags.ec,
          if t == 4 then false else t == 5 || m.flags.dettagDone,
          NextErr(m, ws, z),
          if t == 18 then EmptyEvent(z.done) else m.flags.empty)
  }

  function NextReport(m: Machine, w: Word, e: Event): Report {
    var t := Trans(m.ctl, w);
    if t == 0 then m.report.(stateInvalid := m.report.stateInvalid + 1)
    else if t == 18 then
      if EmptyEvent(e) then m.report.(eventsEmpty := m.report.eventsEmpty + 1)
      else if m.flags.err then m.report.(eventsBad := m.report.eventsBad + 1)
      else m.report.(eventsGood := m.report.eventsGood + 1)
    else m.report
  }

  /** One turn of the main loop on a word that is not EMPTY, with the payload it consumes. */
  function Dispatch(m: Machine, ws: seq<Word>, scale: Scale): (r: Machine)
    requires Typed(m.ctl, m.zip.open)
    requires ws != [] && Classify(ws[0]) != EMPTY && |ws| == Need(m.ctl, ws[0]) && !ZeroWave(m.ctl, ws[0])
    ensures Typed(r.ctl, r.zip.open)
  {
    var w := ws[0];
    var z := NextZip(m, ws, scale);
    Machine(NextControl(m.ctl, w), NextAcc(m.ctl, m.acc, ws), z, NextFlags(m, ws, z), NextReport(m, w, z.done))
  }

  /** A turn on a single word outside a record is the four parts put together. */
  lemma NodeTurn(m: Machine, w: Word, m': Machine, scale: Scale)
    requires Typed(m.ctl, m.zip.open)
    requires Classify(w) != EMPTY && Trans(m.ctl, w) != 7 && Trans(m.ctl, w) != 8
    requires m'.ctl == NextControl(m.ctl, w) && m'.acc == NextAcc(m.ctl, m.acc, [w]) && m'.zip == NextNode(m, w)
    requires m'.flags == NextFlags(m, [w], m'.zip) && m'.report == NextReport(m, w, m'.zip.done)
    ensures Need(m.ctl, w) == 1 && !ZeroWave(m.ctl, w)
    ensures m' == Dispatch(m, [w], scale) && Typed(m'.ctl, m'.zip.open) && m'.ctl.state != S5
  {
    TransitionSource(Classify(w), m.ctl.state);
  }

  /** A turn on a data word with its payload is the four parts put together. */
  lemma DataTurn(m: Machine, ws: seq<Word>, m': Machine, scale: Scale)
    requires Typed(m.ctl, m.zip.open)
    requires ws != [] && |ws| == Need(m.ctl, ws[0])
    requires Classify(ws[0]) != EMPTY && !ZeroWave(m.ctl, ws[0])
    requires Trans(m.ctl, ws[0]) == 7 || Trans(m.ctl, ws[0]) == 8
    requires m.zip.open.AtData? && (Pending(m.ctl) ==> TagOpen(m.zip.open.dat, m.ctl.tag) && OpensPayload(m.ctl, ws[0]))
    requires m'.ctl == NextControl(m.ctl, ws[0]) && m'.acc == NextAcc(m.ctl, m.acc, ws)
    requires m'.zip == NextData(m.ctl, m.zip, ws, scale)
    requires m'.flags == NextFlags(m, ws, m'.zip) && m'.report == m.report
    ensures m' == Dispatch(m, ws, scale) && Typed(m'.ctl, m'.zip.open) && m'.ctl.state == S5
  {
    TransitionSource(Classify(ws[0]), m.ctl.state);
  }

  /** The turn that meets a zero-length waveform: no word is consumed, the saved check
      values come back and the length check sees whatever samples are already there. */
  function Rewind(m: Machine): (r: Machine)
    requires Typed(m.ctl, m.zip.open) && Pending(m.ctl) && m.ctl.tag == TAG_WAVEFORM
    ensures Typed(r.ctl, r.zip.open)
  {
    var o := m.zip.open;
    var d := o.dat.(waveform := Some(AddSamples(o.dat.waveform.value, [], 0)));
    m.(ctl := m.ctl.(tagDone := false, wflenDone := false, rdWflen := 0),
       acc := m.acc.(blkcrc := m.acc.saveBlkcrc, feecrc := m.acc.saveFeecrc),
       zip := m.zip.(open := AtData(o.blk, o.fee, o.hit, d)),
       flags := m.flags.(err := m.flags.err || WaveMismatch(d, TAG_WAVEFORM)))
  }

  /** One turn of the main loop at word `i`: the machine and the index it leaves. */
  function Turn(m: Machine, mem: Memory, i: nat, scale: Scale): (r: (Machine, nat))
    requires Typed(m.ctl, m.zip.open)
    ensures Typed(r.0.ctl, r.0.zip.open)
    ensures i <= r.1
    ensures i == r.1 ==> Pending(m.ctl) && !Pending(r.0.ctl)
  {
    var w := mem(i);
    if Classify(w) == EMPTY then (m, i + 1)
    else if ZeroWave(m.ctl, w) then (Rewind(m), i)
    else
      var n := Need(m.ctl, w);
      (Dispatch(m, Slice(mem, i, n), scale), i + n)
  }

  /** A chunk is attached: the state and the event are reset, everything else stays. */
  function Attach(m: Machine): Machine { m.(ctl := m.ctl.(state := Idle), zip := Zip(CLEARED, Closed)) }

  /** Whether the turn at `i` completes an event. */
  predicate Completes(m: Machine, mem: Memory, i: nat) {
    Classify(mem(i)) == REGID && m.ctl.state == S10
  }

  /** The main loop from word `i` on. A zero-length waveform does not advance, but it
      consumes the pending tag, so the pair (words left, tag pending) decreases. */
  function Run(m: Machine, mem: Memory, i: nat, size: nat, ok: bool, scale: Scale): (r: (Machine, bool))
    requires Typed(m.ctl, m.zip.open)
    ensures Typed(r.0.ctl, r.0.zip.open)
    decreases if i < size then size - i else 0, Pending(m.ctl)
  {
    if i >= size then (m, ok)
    else
      var r := Turn(m, mem, i, scale);
      Run(r.0, mem, r.1, size, ok || Completes(m, mem, i), scale)
  }
}
