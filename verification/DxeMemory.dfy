/** The objects that the channels of the DMA transfer engine are made of (dxe.h), and the part of
    the kernel's allocator that hands out control blocks. */
module DxeMemory {
  import opened Common
  import opened TxRing

  /** The control word of a descriptor: VALID is bit 0 (WCN36XX_DXE_CTRL_VALID_MASK). */
  datatype CtrlWord = CtrlWord(valid: bool, otherBits: nat)

  function ToCtrlWord(w: u32): (c: CtrlWord)
    ensures 2 * c.otherBits + (if c.valid then 1 else 0) == w
  {
    CtrlWord(w % 2 == 1, w / 2)
  }

  /** The word as the engine reads it. */
  function Word(w: CtrlWord): nat {
    2 * w.otherBits + if w.valid then 1 else 0
  }

  /** `fr_len`, `src_addr_l` and `dst_addr_l`: what the engine is to transfer. */
  datatype Transfer = Transfer(len: nat, src: nat, dst: nat)

  /** `struct wcn36xx_dxe_desc`, the part shared with the engine. */
  class DxeDesc {
    var ctrl: CtrlWord
    var xfer: Transfer
    var phyNextL: nat

    /** Its position in the block of memory it belongs to. */
    ghost const index: nat

    constructor (ghost i: nat)
      ensures index == i
      ensures ctrl == ToCtrlWord(0) && xfer == Transfer(0, 0, 0) && phyNextL == 0
    {
      ctrl, xfer, phyNextL := ToCtrlWord(0), Transfer(0, 0, 0), 0;
      index := i;
    }
  }

  /** `struct wcn36xx_dxe_ctl`. */
  class DxeCtl {
    var next: DxeCtl?
    var desc: DxeDesc?
    var descPhyAddr: nat
    var ctlBlkOrder: nat
    var skb: Option<Skb>
    var bdCpuAddr: nat
    var bdPhyAddr: nat

    /** The iteration of wcn36xx_dxe_allocate_ctl_block that allocated it. */
    ghost const index: nat

    constructor (ghost i: nat)
      ensures index == i
      ensures next == null && desc == null && descPhyAddr == 0 && ctlBlkOrder == 0
      ensures skb == None && bdCpuAddr == 0 && bdPhyAddr == 0
    {
      index := i;
      next, desc, descPhyAddr, ctlBlkOrder, skb, bdCpuAddr, bdPhyAddr := null, null, 0, 0, None, 0, 0;
    }

    /** Cleared, and not in use yet. */
    ghost predicate Blank()
      reads `desc, `skb, `bdCpuAddr, `bdPhyAddr
    {
      desc == null && skb == None && bdCpuAddr == 0 && bdPhyAddr == 0
    }
  }

  /** Which control blocks are allocated, and whether a block has ever been freed that was not. */
  class Slab {
    ghost var live: set<DxeCtl>
    ghost var misused: bool

    constructor ()
      ensures live == {} && !misused
    {
      live, misused := {}, false;
    }

    method Kzalloc(fails: bool, ghost i: nat) returns (c: DxeCtl?)
      modifies `live
      ensures fails ==> c == null && live == old(live)
      ensures !fails ==> c != null && fresh(c) && c.next == null && c.index == i && live == old(live) + {c}
      ensures !fails ==> c.Blank()
    {
      if fails {
        return null;
      }
      c := new DxeCtl(i);
      live := live + {c};
    }

    method Kfree(c: DxeCtl)
      modifies this
      ensures live == old(live) - {c} && misused == (old(misused) || c !in old(live))
    {
      misused := misused || c !in live;
      live := live - {c};
    }
  }

  /** `dma_alloc_coherent` for `n` descriptors, cleared. */
  method AllocDescs(n: nat) returns (ds: seq<DxeDesc>)
    ensures |ds| == n
    ensures forall i :: 0 <= i < n ==> fresh(ds[i]) && ds[i].ctrl == ToCtrlWord(0) && ds[i].phyNextL == 0
    ensures forall i :: 0 <= i < n ==> ds[i].index == i
  {
    ds := [];
    for i := 0 to n
      invariant |ds| == i
      invariant forall k :: 0 <= k < i ==> fresh(ds[k]) && ds[k].ctrl == ToCtrlWord(0) && ds[k].phyNextL == 0
      invariant forall k :: 0 <= k < i ==> ds[k].index == k
    {
      var d := new DxeDesc(i);
      ds := ds + [d];
    }
  }
}
