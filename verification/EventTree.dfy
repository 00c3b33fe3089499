/** The event tree a parser builds: event, blocks, front-end cards, hits and data. */
module EventTree {
  import opened Words

  datatype Option<+T> = None | Some(value: T)

  datatype DataType = QH1 | I1 | QL1 | Q2 | I2 | Q3 | ADC | UNKDT

  datatype Energy = Energy(values: seq<nat>, lenError: bool)

  datatype Waveform = Waveform(pretrig: Option<Word>, samples: seq<Word>, lenError: bool)

  /** `baseline` is the two's complement numerator, in sixteenths. */
  datatype Data = Data(dataType: DataType, energy: Option<Energy>, waveform: Option<Waveform>, baseline: Option<int>)

  datatype Hit = Hit(ec: nat, telid: nat, feeid: nat, gttag: nat, dettag: nat, trigpat: nat, detid: nat,
                     data: seq<Data>)

  datatype Fee = Fee(feeid: nat, lenError: bool, crcError: bool, hits: seq<Hit>)

  datatype Block = Block(blkid: nat, lenError: bool, crcError: bool, fees: seq<Fee>)

  datatype TrigInfo = TrigInfo(id: nat, value: nat)

  datatype Event = Event(ec: nat, regid: nat, trinfo: seq<TrigInfo>, blocks: seq<Block>)

  const CLEARED := Event(0, 0, [], [])

  /** The part of the tree that is still being built: the chain of open nodes, each
      holding only its completed children. */
  datatype Open =
    | Closed
    | AtBlock(blk: Block)
    | AtFee(blk: Block, fee: Fee)
    | AtHit(blk: Block, fee: Fee, hit: Hit)
    | AtData(blk: Block, fee: Fee, hit: Hit, dat: Data)

  /** A tree with its open chain kept apart. */
  datatype Zip = Zip(done: Event, open: Open)

  function CloseHit(h: Hit, d: Data): Hit { h.(data := h.data + [d]) }

  function CloseFee(f: Fee, h: Hit): Fee { f.(hits := f.hits + [h]) }

  function CloseBlock(b: Block, f: Fee): Block { b.(fees := b.fees + [f]) }

  /** The blocks of the tree, the open chain folded into its place as last node of each level. */
  function OpenBlocks(o: Open): seq<Block> {
    match o
    case Closed => []
    case AtBlock(b) => [b]
    case AtFee(b, f) => [CloseBlock(b, f)]
    case AtHit(b, f, h) => [CloseBlock(b, CloseFee(f, h))]
    case AtData(b, f, h, d) => [CloseBlock(b, CloseFee(f, CloseHit(h, d)))]
  }

  function Tree(z: Zip): Event {
    z.done.(blocks := z.done.blocks + OpenBlocks(z.open))
  }

  /** A block of the fake region that only carries trigger information. */
  const TRIGGER_BLOCK := 0x7FF

  predicate CompleteHit(h: Hit) { |h.data| == 1 }

  predicate CompleteFee(f: Fee) {
    f.hits != [] && forall h :: h in f.hits ==> CompleteHit(h)
  }

  predicate CompleteBlock(b: Block) {
    forall f :: f in b.fees ==> CompleteFee(f)
  }

  predicate CleanFee(f: Fee) { !f.lenError && !f.crcError }

  predicate CleanBlock(b: Block) {
    !b.lenError && !b.crcError && forall f :: f in b.fees ==> CleanFee(f)
  }

  predicate CleanEvent(e: Event) {
    forall b :: b in e.blocks ==> CleanBlock(b)
  }

  /** An event without trigger information and without any front-end card. */
  predicate EmptyEvent(e: Event) {
    e.trinfo == [] && forall b :: b in e.blocks ==> b.fees == []
  }
}
