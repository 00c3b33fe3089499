/** Handles into the event tree: the paths a parser keeps instead of pointers. A handle is
    live when its path exists; the last handles are those of the open chain. */
module Handles {
  import opened Words
  import opened EventTree

  datatype FeeRef = FeeRef(b: nat, f: nat)

  datatype HitRef = HitRef(b: nat, f: nat, h: nat)

  datatype DataRef = DataRef(b: nat, f: nat, h: nat, k: nat)

  predicate LiveBlk(e: Event, b: nat) { b < |e.blocks| }

  predicate LiveFee(e: Event, r: FeeRef) { LiveBlk(e, r.b) && r.f < |e.blocks[r.b].fees| }

  predicate LiveHit(e: Event, r: HitRef) {
    LiveFee(e, FeeRef(r.b, r.f)) && r.h < |e.blocks[r.b].fees[r.f].hits|
  }

  predicate LiveData(e: Event, r: DataRef) {
    LiveHit(e, HitRef(r.b, r.f, r.h)) && r.k < |e.blocks[r.b].fees[r.f].hits[r.h].data|
  }

  function FeeAt(e: Event, r: FeeRef): Fee
    requires LiveFee(e, r)
  {
    e.blocks[r.b].fees[r.f]
  }

  function HitAt(e: Event, r: HitRef): Hit
    requires LiveHit(e, r)
  {
    e.blocks[r.b].fees[r.f].hits[r.h]
  }

  function DataAt(e: Event, r: DataRef): Data
    requires LiveData(e, r)
  {
    e.blocks[r.b].fees[r.f].hits[r.h].data[r.k]
  }

  function PutBlk(e: Event, b: nat, blk: Block): Event
    requires LiveBlk(e, b)
  {
    e.(blocks := e.blocks[b := blk])
  }

  function PutFee(e: Event, r: FeeRef, f: Fee): Event
    requires LiveFee(e, r)
  {
    PutBlk(e, r.b, e.blocks[r.b].(fees := e.blocks[r.b].fees[r.f := f]))
  }

  function PutHit(e: Event, r: HitRef, h: Hit): Event
    requires LiveHit(e, r)
  {
    var f := e.blocks[r.b].fees[r.f];
    PutFee(e, FeeRef(r.b, r.f), f.(hits := f.hits[r.h := h]))
  }

  function PutData(e: Event, r: DataRef, d: Data): Event
    requires LiveData(e, r)
  {
    var h := e.blocks[r.b].fees[r.f].hits[r.h];
    PutHit(e, HitRef(r.b, r.f, r.h), h.(data := h.data[r.k := d]))
  }

  // ----- the last node of each level -----

  function LastBlk(z: Zip): nat { |z.done.blocks| }

  function LastFee(z: Zip): FeeRef
    requires !z.open.Closed? && !z.open.AtBlock?
  {
    FeeRef(LastBlk(z), |z.open.blk.fees|)
  }

  function LastHit(z: Zip): HitRef
    requires z.open.AtHit? || z.open.AtData?
  {
    HitRef(LastBlk(z), |z.open.blk.fees|, |z.open.fee.hits|)
  }

  function LastData(z: Zip): DataRef
    requires z.open.AtData?
  {
    DataRef(LastBlk(z), |z.open.blk.fees|, |z.open.fee.hits|, |z.open.hit.data|)
  }

  /** The open block is the last block of the tree, and writing it is writing the tree. */
  lemma BlockHandle(z: Zip, b: Block)
    requires z.open.AtBlock?
    ensures LiveBlk(Tree(z), LastBlk(z)) && |Tree(z).blocks| == LastBlk(z) + 1
    ensures Tree(z).blocks[LastBlk(z)] == z.open.blk
    ensures PutBlk(Tree(z), LastBlk(z), b) == Tree(z.(open := AtBlock(b)))
  {
    assert PutBlk(Tree(z), LastBlk(z), b).blocks == z.done.blocks + [b];
  }

  lemma FeeHandle(z: Zip, f: Fee)
    requires z.open.AtFee?
    ensures LiveFee(Tree(z), LastFee(z)) && FeeAt(Tree(z), LastFee(z)) == z.open.fee
    ensures PutFee(Tree(z), LastFee(z), f) == Tree(z.(open := AtFee(z.open.blk, f)))
  {
    var b := z.open.blk;
    assert CloseBlock(b, z.open.fee).fees[|b.fees| := f] == CloseBlock(b, f).fees;
    assert PutFee(Tree(z), LastFee(z), f).blocks == z.done.blocks + [CloseBlock(b, f)];
  }

  lemma HitHandle(z: Zip, h: Hit)
    requires z.open.AtHit?
    ensures LiveHit(Tree(z), LastHit(z)) && HitAt(Tree(z), LastHit(z)) == z.open.hit
    ensures PutHit(Tree(z), LastHit(z), h) == Tree(z.(open := AtHit(z.open.blk, z.open.fee, h)))
  {
    var fee := z.open.fee;
    var z' := z.(open := AtFee(z.open.blk, CloseFee(fee, z.open.hit)));
    assert Tree(z') == Tree(z);
    FeeHandle(z', CloseFee(fee, h));
    assert CloseFee(fee, z.open.hit).hits[|fee.hits| := h] == CloseFee(fee, h).hits;
  }

  lemma DataHandle(z: Zip, d: Data)
    requires z.open.AtData?
    ensures LiveData(Tree(z), LastData(z)) && DataAt(Tree(z), LastData(z)) == z.open.dat
    ensures LiveHit(Tree(z), LastHit(z)) && HitAt(Tree(z), LastHit(z)) == CloseHit(z.open.hit, z.open.dat)
    ensures PutData(Tree(z), LastData(z), d) == Tree(z.(open := AtData(z.open.blk, z.open.fee, z.open.hit, d)))
  {
    var hit := z.open.hit;
    var z' := z.(open := AtHit(z.open.blk, z.open.fee, CloseHit(hit, z.open.dat)));
    assert Tree(z') == Tree(z);
    HitHandle(z', CloseHit(hit, d));
    assert CloseHit(hit, z.open.dat).data[|hit.data| := d] == CloseHit(hit, d).data;
  }
}
