/** A channel of the DMA transfer engine as the driver builds and uses it: control blocks linked
    into a circle, each with its descriptor (dxe.c). The transmit and receive paths are proved
    against the transitions of TxChannel and RxRing. */
module DxeChannel {
  import opened Common
  import opened Circle
  import opened TxRing
  import opened DxeMemory
  import TC = TxChannel
  import RX = RxRing

  datatype ChType = TxL | TxH | RxL | RxH

  /** The physical address of descriptor `i`: each is eight words of 32 bits. */
  function DescAddr(base: nat, i: nat): nat {
    base + i * 32
  }

  const CTRL_TX_L := ToCtrlWord(0x328a44)
  const CTRL_TX_H := ToCtrlWord(0x32ce44)
  const CTRL_RX_L := ToCtrlWord(0x12ad2f)
  const CTRL_RX_H := ToCtrlWord(0x12d12f)
  const CTRL_TX_H_BD := ToCtrlWord(0x30ce45)
  const CTRL_TX_H_SKB := ToCtrlWord(0x32ce4d)
  const CTRL_TX_L_BD := ToCtrlWord(0x308a45)
  const CTRL_TX_L_SKB := ToCtrlWord(0x328a4d)

  const WQ_TX_L := 0x17
  const WQ_TX_H := 0x17
  const WQ_RX_L := 0xB
  const WQ_RX_H := 0x4

  /** The size of `struct wcn36xx_tx_bd`: ten words. */
  const TX_BD_SIZE := 40

  /** `chunk_size` of both memory pools, WCN36XX_BD_CHUNK_SIZE being 128. */
  const CHUNK_SIZE := 128 + 16 - 128 % 8

  /** The control word of a fresh descriptor: armed on receive channels only. */
  function DefaultCtrl(t: ChType): (w: CtrlWord)
    ensures w.valid <==> t == RxL || t == RxH
    ensures Word(w) == match t case TxL => 0x328a44 case TxH => 0x32ce44 case RxL => 0x12ad2f case RxH => 0x12d12f
  {
    match t
    case TxL => CTRL_TX_L
    case TxH => CTRL_TX_H
    case RxL => CTRL_RX_L
    case RxH => CTRL_RX_H
  }

  /** What a fresh descriptor says of the transfer: where to, or where from, the work queue of its channel. */
  function DefaultXfer(t: ChType): Transfer {
    match t
    case TxL => Transfer(0, 0, WQ_TX_L)
    case TxH => Transfer(0, 0, WQ_TX_H)
    case RxL => Transfer(0, WQ_RX_L, 0)
    case RxH => Transfer(0, WQ_RX_H, 0)
  }

  /** `struct wcn36xx_dxe_ch`. `descs` is the coherent memory at `cpu_addr`; `hwPos` is the
      engine's own position in it. */
  class DxeCh {
    const chType: ChType
    const descNum: nat
    var descs: seq<DxeDesc>
    var dmaAddr: nat
    var hwPos: nat
    var headBlkCtl: DxeCtl?
    var tailBlkCtl: DxeCtl?

    /** The control blocks in the order in which they were allocated. */
    ghost var ring: seq<DxeCtl>

    constructor (t: ChType, n: nat)
      ensures chType == t && descNum == n && headBlkCtl == null && tailBlkCtl == null
      ensures ring == [] && descs == []
    {
      chType, descNum := t, n;
      descs, dmaAddr, hwPos, headBlkCtl, tailBlkCtl := [], 0, 0, null, null;
      ring := [];
    }

    /* ---- Construction and destruction ---- */

    /** Distinct blocks, each pointing to the one after it. */
    static ghost predicate Chain(bs: seq<DxeCtl>)
      reads bs`next
    {
      && (forall i, j :: 0 <= i < j < |bs| ==> bs[i] != bs[j])
      && (forall i :: 0 <= i < |bs| - 1 ==> bs[i].next == bs[i + 1])
    }

    /** The blocks form one circle of `descNum` blocks, numbered and therefore distinct. */
    ghost predicate Cycle()
      reads `ring, ring`next
    {
      && |ring| == descNum && 0 < descNum
      && (forall i :: 0 <= i < descNum ==> ring[i].index == i)
      && (forall i :: 0 <= i < descNum ==> ring[i].next == ring[Next(i, descNum)])
    }

    /** The head pointer is NULL, or left over from an earlier use: it points to block `h` of a
        circle that has been freed. */
    ghost predicate AtStart(slab: Slab, h: nat)
      reads this, slab, ring
    {
      headBlkCtl != null ==> Cycle() && h < descNum && headBlkCtl == ring[h] && forall c :: c in ring ==> c !in slab.live
    }

    /** `wcn36xx_dxe_allocate_ctl_block`, where the allocation in iteration `failAt` fails. The
        circle is closed exactly when there are at least two blocks. After a failure every block
        allocated has been freed, once; in exactly one case other blocks are freed a second time,
        namely when the first allocation fails and the head is left over from an earlier use. */
    method AllocateCtlBlock(slab: Slab, failAt: nat, ghost h: nat) returns (ok: bool)
      requires AtStart(slab, h)
      modifies this, slab
      ensures ok <==> descNum <= failAt
      ensures ok ==> |ring| == descNum && fresh(ring)
      ensures ok ==> slab.live == old(slab.live) + (set c | c in ring)
      ensures ok && 0 < descNum ==> headBlkCtl == tailBlkCtl == ring[0]
      ensures ok && 0 < descNum ==> (Cycle() <==> 2 <= descNum)
      ensures ok ==> forall c :: c in ring ==> c.Blank()
      ensures !ok ==> slab.live == old(slab.live)
      ensures slab.misused <==> old(slab.misused) || (!ok && failAt == 0 && old(headBlkCtl) != null)
      ensures descs == old(descs) && hwPos == old(hwPos)
    {
      var prevCtl: DxeCtl? := null;
      ghost var blocks: seq<DxeCtl> := [];
      var i := 0;
      while i < descNum
        invariant i <= descNum && i <= failAt && fresh(blocks)
        invariant i == 0 ==> headBlkCtl == old(headBlkCtl)
        invariant ring == old(ring) && slab.misused == old(slab.misused)
        invariant Allocated(blocks, i, prevCtl)
        invariant slab.live == old(slab.live) + (set c | c in blocks)
        invariant (set c | c in blocks) !! old(slab.live)
        invariant descs == old(descs) && hwPos == old(hwPos)
      {
        var curCtl := slab.Kzalloc(i == failAt, i);
        if curCtl == null {
          GiveUp(slab, h, i, blocks, prevCtl, old(slab.live));
          return false;
        }
        AddBlock(curCtl, prevCtl, i, blocks);
        prevCtl := curCtl;
        blocks := blocks + [curCtl];
        i := i + 1;
      }
      ring := blocks;
      ok := true;
    }

    /** `out_fail`. */
    method GiveUp(slab: Slab, ghost h: nat, i: nat, ghost blocks: seq<DxeCtl>, ghost last: DxeCtl?, ghost live: set<DxeCtl>)
      requires Allocated(blocks, i, last) && i < descNum && (i == 0 ==> AtStart(slab, h))
      requires slab.live == live + (set c | c in blocks) && (set c | c in blocks) !! live
      modifies slab
      ensures slab.live == live
      ensures slab.misused <==> old(slab.misused) || (i == 0 && headBlkCtl != null)
    {
      if i == 0 {
        FreeLeftOver(slab, h);
      } else {
        FreeCtlBlock(slab, blocks);
      }
    }

    /** What the loop has established before iteration `i`: the blocks allocated form a chain from the
        head to `last`, open unless they are all there. */
    ghost predicate Allocated(blocks: seq<DxeCtl>, i: nat, last: DxeCtl?)
      reads this, blocks
    {
      && |blocks| == i && Chain(blocks)
      && (0 < i ==> headBlkCtl == tailBlkCtl == blocks[0] && last == blocks[i - 1])
      && (0 < i ==> blocks[i - 1].next == if i == descNum && 1 < i then blocks[0] else null)
      && forall k :: 0 <= k < i ==> blocks[k].index == k && blocks[k].Blank()
    }

    /** The body of the loop, with a block that has been allocated. */
    method AddBlock(curCtl: DxeCtl, prevCtl: DxeCtl?, i: nat, ghost blocks: seq<DxeCtl>)
      requires Allocated(blocks, i, prevCtl) && i < descNum && curCtl !in blocks
      requires curCtl.next == null && curCtl.index == i && curCtl.Blank()
      modifies `headBlkCtl, `tailBlkCtl, curCtl, blocks
      ensures Allocated(blocks + [curCtl], i + 1, curCtl)
    {
      curCtl.ctlBlkOrder := i;
      if i == 0 {
        headBlkCtl := curCtl;
        tailBlkCtl := curCtl;
      } else if descNum - 1 == i {
        prevCtl.next := curCtl;
        curCtl.next := headBlkCtl;
      } else {
        prevCtl.next := curCtl;
      }
    }

    /** Bringing a ring up, taking it down, and failing to bring it up again: blocks are freed that are
        not allocated any more. */
    method RestartThatFails(slab: Slab)
      requires headBlkCtl == null && 2 <= descNum && !slab.misused
      modifies this, slab
      ensures slab.misused
    {
      var ok := AllocateCtlBlock(slab, descNum, 0);
      assert ring[0] in ring;
      FreeRing(slab, 0);
      ok := AllocateCtlBlock(slab, 0, 0);
    }

    /** `wcn36xx_dxe_free_ctl_block`. Starting from the head pointer, wherever it is, each block of
        an open chain or of the whole circle is freed exactly once. */
    method FreeCtlBlock(slab: Slab, ghost blocks: seq<DxeCtl>)
      requires Chain(blocks) && |blocks| <= descNum
      requires headBlkCtl == if blocks == [] then null else blocks[0]
      requires |blocks| < descNum && blocks != [] ==> blocks[|blocks| - 1].next == null
      modifies slab
      ensures slab.live == old(slab.live) - (set c | c in blocks)
      ensures slab.misused <==> old(slab.misused) || exists k :: 0 <= k < |blocks| && blocks[k] !in old(slab.live)
    {
      var ctl := headBlkCtl;
      var i := 0;
      while i < descNum && ctl != null
        invariant 0 <= i <= |blocks|
        invariant i < |blocks| ==> ctl == blocks[i]
        invariant i == |blocks| ==> ctl == null || i == descNum
        invariant slab.live == old(slab.live) - (set c | c in blocks[..i])
        invariant slab.misused <==> old(slab.misused) || exists k :: 0 <= k < i && blocks[k] !in old(slab.live)
        decreases descNum - i
      {
        var next := ctl.next;
        assert ctl in slab.live <==> ctl in old(slab.live);
        slab.Kfree(ctl);
        ctl := next;
        i := i + 1;
        assert blocks[..i] == blocks[..i - 1] + [blocks[i - 1]];
      }
      assert blocks[..i] == blocks;
    }

    /** What `wcn36xx_dxe_free_ctl_block` does when nothing has been allocated yet. */
    method FreeLeftOver(slab: Slab, ghost h: nat)
      requires AtStart(slab, h)
      modifies slab
      ensures slab.live == old(slab.live)
      ensures slab.misused <==> old(slab.misused) || headBlkCtl != null
    {
      if headBlkCtl == null {
        FreeCtlBlock(slab, []);
      } else {
        CycleFromAnywhere(h);
        FreeCtlBlock(slab, View(ring, h));
        assert View(ring, h)[0] !in old(slab.live);
      }
    }

    /** Whatever the head is, the circle read from there is such a chain. */
    lemma CycleFromAnywhere(h: nat)
      requires Cycle() && h < descNum
      ensures Chain(View(ring, h)) && |View(ring, h)| == descNum && View(ring, h)[0] == ring[h]
      ensures (set c | c in View(ring, h)) == (set c | c in ring)
    {
      var v := View(ring, h);
      forall i | 0 <= i < descNum ensures v[i] == ring[Rot(h, i, descNum)] {
        ViewAt(ring, h, i);
      }
      forall c | c in ring ensures c in v {
        var i :| 0 <= i < descNum && ring[i] == c;
        assert v[Gap(h, i, descNum)] == c;
      }
    }

    /** After use: the head is anywhere on the circle. */
    method FreeRing(slab: Slab, ghost h: nat)
      requires Cycle() && h < descNum && headBlkCtl == ring[h]
      requires forall c :: c in ring ==> c in slab.live
      modifies slab
      ensures slab.live == old(slab.live) - (set c | c in ring) && slab.misused == old(slab.misused)
    {
      CycleFromAnywhere(h);
      FreeCtlBlock(slab, View(ring, h));
    }

    /** Each block has its own descriptor, and the physical next links of the descriptors form the
        same circle as the next pointers of the blocks. */
    ghost predicate Linked()
      reads `ring, `descs, `dmaAddr, ring`next, ring`desc, ring`descPhyAddr
      reads descs`phyNextL
    {
      && Cycle() && NumberedDescs()
      && (forall i :: 0 <= i < descNum ==>
            ring[i].desc == descs[i] && ring[i].descPhyAddr == DescAddr(dmaAddr, i))
      && (forall i :: 0 <= i < descNum ==> descs[i].phyNextL == DescAddr(dmaAddr, Next(i, descNum)))
    }

    /** Linked and ShowsSlots below are statements about every slot. Outside this class they are
        needed as a whole only, and Built and Holds say the same slot by slot. */
    ghost predicate Built()
      reads `ring, `descs, `dmaAddr, ring`next, ring`desc, ring`descPhyAddr, descs`phyNextL
    {
      |ring| == |descs| == descNum && 0 < descNum && BuiltFrom(0)
    }

    ghost predicate BuiltAt(i: nat)
      requires |ring| == |descs| == descNum && i < descNum
      reads `ring, `descs, `dmaAddr, ring`next, ring`desc, ring`descPhyAddr, descs`phyNextL
    {
      && ring[i].index == i && descs[i].index == i
      && ring[i].next == ring[Next(i, descNum)] && ring[i].desc == descs[i]
      && ring[i].descPhyAddr == DescAddr(dmaAddr, i)
      && descs[i].phyNextL == DescAddr(dmaAddr, Next(i, descNum))
    }

    ghost predicate BuiltFrom(i: nat)
      requires |ring| == |descs| == descNum
      reads `ring, `descs, `dmaAddr, ring`next, ring`desc, ring`descPhyAddr, descs`phyNextL
      decreases descNum - i
    {
      i < descNum ==> BuiltAt(i) && BuiltFrom(i + 1)
    }

    lemma {:induction false} BuiltFromMeans(i: nat)
      requires |ring| == |descs| == descNum && i <= descNum
      ensures BuiltFrom(i) <==> forall k :: i <= k < descNum ==> BuiltAt(k)
      decreases descNum - i
    {
      if i < descNum {
        BuiltFromMeans(i + 1);
      }
    }

    lemma LinkedMeansBuilt()
      requires Linked()
      ensures Built()
    {
      BuiltFromMeans(0);
      forall k | 0 <= k < descNum ensures BuiltAt(k) {}
    }

    lemma BuiltMeansLinked()
      requires Built()
      ensures Linked()
    {
      BuiltFromMeans(0);
      forall k | 0 <= k < descNum
        ensures ring[k].index == k && descs[k].index == k
        ensures ring[k].next == ring[Next(k, descNum)] && ring[k].desc == descs[k]
        ensures ring[k].descPhyAddr == DescAddr(dmaAddr, k)
        ensures descs[k].phyNextL == DescAddr(dmaAddr, Next(k, descNum))
      {
        assert BuiltAt(k);
      }
    }

    /** The descriptors are distinct: descriptor `i` is element `i` of the coherent memory. */
    ghost predicate NumberedDescs()
      reads `descs
    {
      |descs| == descNum && forall i :: 0 <= i < descNum ==> descs[i].index == i
    }

    /** The blocks and the descriptors are distinct. */
    ghost predicate Indexed()
      reads `ring, `descs
    {
      && NumberedDescs()
      && |ring| == descNum && forall i :: 0 <= i < descNum ==> ring[i].index == i
    }

    /** The descriptors of a ring occupy 32 bytes each of the coherent memory, one behind the other. */
    lemma DescriptorsDisjoint(i: nat, j: nat)
      requires Built() && i < j < descNum
      ensures dmaAddr <= ring[i].descPhyAddr && ring[i].descPhyAddr + 32 <= ring[j].descPhyAddr
      ensures ring[j].descPhyAddr + 32 <= dmaAddr + 32 * descNum
    {
      BuiltMeansLinked();
    }

    /** `wcn36xx_dxe_init_descs`: the memory is at `addr`, or cannot be allocated. */
    method InitDescs(addr: nat, memOk: bool) returns (ok: bool)
      requires Cycle() && 2 <= descNum && headBlkCtl == ring[0]
      modifies `descs, `dmaAddr, `hwPos, ring`desc, ring`descPhyAddr
      ensures ok <==> memOk
      ensures ok ==> Linked() && fresh(descs) && hwPos == 0 && dmaAddr == addr
      ensures ok ==> forall i :: 0 <= i < descNum ==> descs[i].ctrl == DefaultCtrl(chType)
      ensures ok ==> forall i :: 0 <= i < descNum ==>
                descs[i].xfer == (match chType case TxL => Transfer(0, 0, 0x17) case TxH => Transfer(0, 0, 0x17)
                                               case RxL => Transfer(0, 0xB, 0) case RxH => Transfer(0, 0x4, 0))
      ensures !ok ==> descs == old(descs) && forall c :: c in ring ==> c.desc == old(c.desc)
    {
      if !memOk {
        return false;
      }
      descs := AllocDescs(descNum);
      dmaAddr := addr;
      hwPos := 0;
      LinkDescs();
      ok := true;
    }

    /** What the loop of `wcn36xx_dxe_init_descs` has established before iteration `i`. */
    ghost predicate SetUpTo(i: nat)
      requires i <= |ring| == |descs| == descNum
      reads `ring, `descs, `dmaAddr, ring`desc, ring`descPhyAddr, descs`ctrl, descs`xfer
    {
      && (forall k :: 0 <= k < i ==> ring[k].desc == descs[k])
      && (forall k :: 0 <= k < i ==> ring[k].descPhyAddr == DescAddr(dmaAddr, k))
      && (forall k :: 0 <= k < i ==> descs[k].ctrl == DefaultCtrl(chType))
      && (forall k :: 0 <= k < i ==> descs[k].xfer == DefaultXfer(chType))
    }

    ghost predicate LinkedUpTo(i: nat)
      requires i <= |ring| == |descs| == descNum
      reads `ring, `descs, `dmaAddr, descs`phyNextL
    {
      && (forall k :: 0 <= k < i - 1 ==> descs[k].phyNextL == DescAddr(dmaAddr, k + 1))
      && (0 < i == descNum ==> descs[i - 1].phyNextL == DescAddr(dmaAddr, 0))
    }

    method LinkDescs()
      requires Cycle() && 2 <= descNum && headBlkCtl == ring[0] && NumberedDescs()
      modifies ring`desc, ring`descPhyAddr, descs`ctrl, descs`phyNextL, descs`xfer
      ensures Linked()
      ensures forall i :: 0 <= i < descNum ==> descs[i].ctrl == DefaultCtrl(chType)
      ensures forall i :: 0 <= i < descNum ==> descs[i].xfer == DefaultXfer(chType)
    {
      LinkLoop();
      AllLinked();
    }

    method LinkLoop()
      requires Cycle() && 2 <= descNum && headBlkCtl == ring[0] && NumberedDescs()
      modifies ring`desc, ring`descPhyAddr, descs`ctrl, descs`phyNextL, descs`xfer
      ensures SetUpTo(descNum) && LinkedUpTo(descNum)
    {
      var curCtl: DxeCtl, prevDxe: DxeDesc? := headBlkCtl, null;
      var i := 0;
      while i < descNum
        invariant 0 <= i <= descNum && curCtl == ring[if i < descNum then i else 0]
        invariant 0 < i ==> prevDxe == descs[i - 1]
        invariant SetUpTo(i) && LinkedUpTo(i)
      {
        curCtl, prevDxe := InitOne(i, curCtl, prevDxe);
        i := i + 1;
      }
    }

    /** One iteration of the loop. */
    method InitOne(i: nat, curCtl: DxeCtl, prevDxe: DxeDesc?) returns (nextCtl: DxeCtl, curDxe: DxeDesc)
      requires Cycle() && NumberedDescs() && i < descNum && 2 <= descNum && headBlkCtl == ring[0]
      requires curCtl == ring[i] && (0 < i ==> prevDxe == descs[i - 1])
      requires SetUpTo(i) && LinkedUpTo(i)
      modifies ring`desc, ring`descPhyAddr, descs`ctrl, descs`phyNextL, descs`xfer
      ensures nextCtl == ring[if i + 1 < descNum then i + 1 else 0] && curDxe == descs[i]
      ensures SetUpTo(i + 1) && LinkedUpTo(i + 1)
    {
      curDxe := descs[i];
      SetOne(i, curCtl, curDxe);
      LinkOne(i, curCtl, prevDxe, curDxe);
      nextCtl := curCtl.next;
    }

    lemma AllLinked()
      requires Cycle() && NumberedDescs() && SetUpTo(descNum) && LinkedUpTo(descNum) && 2 <= descNum
      ensures Linked() && forall i :: 0 <= i < descNum ==> descs[i].ctrl == DefaultCtrl(chType)
      ensures forall i :: 0 <= i < descNum ==> descs[i].xfer == DefaultXfer(chType)
    {
    }

    method SetOne(i: nat, curCtl: DxeCtl, curDxe: DxeDesc)
      requires Cycle() && NumberedDescs() && i < descNum && curCtl == ring[i] && curDxe == descs[i] && SetUpTo(i)
      modifies curCtl`desc, curCtl`descPhyAddr, curDxe`ctrl, curDxe`xfer
      ensures SetUpTo(i + 1)
    {
      curCtl.desc := curDxe;
      curCtl.descPhyAddr := DescAddr(dmaAddr, i);
      curDxe.ctrl := DefaultCtrl(chType);
      curDxe.xfer := DefaultXfer(chType);
    }

    method LinkOne(i: nat, curCtl: DxeCtl, prevDxe: DxeDesc?, curDxe: DxeDesc)
      requires Cycle() && NumberedDescs() && i < descNum && 2 <= descNum && headBlkCtl == ring[0]
      requires curCtl == ring[i] && curDxe == descs[i] && (0 < i ==> prevDxe == descs[i - 1])
      requires SetUpTo(i + 1) && LinkedUpTo(i)
      modifies descs`phyNextL
      ensures LinkedUpTo(i + 1)
    {
      if i == 0 {
        curDxe.phyNextL := 0;
      } else if i < descNum - 1 {
        prevDxe.phyNextL := curCtl.descPhyAddr;
      } else {
        prevDxe.phyNextL := curCtl.descPhyAddr;
        curDxe.phyNextL := headBlkCtl.descPhyAddr;
      }
    }

    /** `wcn36xx_dxe_init_tx_bd`: BD buffers on the even slots, none on the odd ones. */
    method InitTxBd(virtAddr: nat, phyAddr: nat)
      requires Cycle() && headBlkCtl == ring[0]
      modifies ring`bdCpuAddr, ring`bdPhyAddr
      ensures forall i :: 0 <= i < descNum ==> ring[i].bdCpuAddr == BdAddr(virtAddr, i)
      ensures forall i :: 0 <= i < descNum ==> ring[i].bdPhyAddr == BdAddr(phyAddr, i)
    {
      var bdPhyAddr, bdCpuAddr := phyAddr, virtAddr;
      var cur: DxeCtl? := headBlkCtl;
      var i := 0;
      while i < descNum
        invariant 0 <= i <= descNum && cur == ring[if i < descNum then i else 0]
        invariant bdPhyAddr == NextChunk(phyAddr, i) && bdCpuAddr == NextChunk(virtAddr, i)
        invariant forall k :: 0 <= k < i ==> ring[k].bdCpuAddr == BdAddr(virtAddr, k)
        invariant forall k :: 0 <= k < i ==> ring[k].bdPhyAddr == BdAddr(phyAddr, k)
      {
        ChunkStep(phyAddr, i);
        ChunkStep(virtAddr, i);
        if i % 2 == 0 {
          cur.bdPhyAddr := bdPhyAddr;
          cur.bdCpuAddr := bdCpuAddr;
          bdPhyAddr := bdPhyAddr + CHUNK_SIZE;
          bdCpuAddr := bdCpuAddr + CHUNK_SIZE;
        } else {
          cur.bdPhyAddr := 0;
          cur.bdCpuAddr := 0;
        }
        cur := cur.next;
        i := i + 1;
      }
    }

    /* ---- The transmit path ---- */

    /** Blocks and descriptors hold what `slots` says. */
    ghost predicate ShowsSlots(slots: seq<Slot>)
      reads `ring, `descs, ring`skb, ring`bdCpuAddr, descs`ctrl
    {
      && |slots| == descNum == |ring| == |descs|
      && (forall i :: 0 <= i < descNum ==> slots[i].valid == descs[i].ctrl.valid)
      && (forall i :: 0 <= i < descNum ==> slots[i].skb == ring[i].skb)
      && (forall i :: 0 <= i < descNum ==> slots[i].bd == ring[i].bdCpuAddr)
    }

    ghost predicate HoldsAt(slots: seq<Slot>, i: nat)
      requires |slots| == descNum == |ring| == |descs| && i < descNum
      reads `ring, `descs, ring`skb, ring`bdCpuAddr, descs`ctrl
    {
      slots[i] == Slot(descs[i].ctrl.valid, ring[i].skb, ring[i].bdCpuAddr)
    }

    ghost predicate Holds(slots: seq<Slot>, i: nat)
      requires |slots| == descNum == |ring| == |descs|
      reads `ring, `descs, ring`skb, ring`bdCpuAddr, descs`ctrl
      decreases descNum - i
    {
      i < descNum ==> HoldsAt(slots, i) && Holds(slots, i + 1)
    }

    lemma {:induction false} HoldsMeans(slots: seq<Slot>, i: nat)
      requires |slots| == descNum == |ring| == |descs| && i <= descNum
      ensures Holds(slots, i) <==> forall k :: i <= k < descNum ==> HoldsAt(slots, k)
      decreases descNum - i
    {
      if i < descNum {
        HoldsMeans(slots, i + 1);
      }
    }

    lemma HoldsMeansShows(slots: seq<Slot>)
      requires |slots| == descNum == |ring| == |descs|
      ensures Holds(slots, 0) <==> ShowsSlots(slots)
    {
      HoldsMeans(slots, 0);
      if Holds(slots, 0) {
        forall k | 0 <= k < descNum
          ensures slots[k] == Slot(descs[k].ctrl.valid, ring[k].skb, ring[k].bdCpuAddr)
        {
          assert HoldsAt(slots, k);
        }
      } else if ShowsSlots(slots) {
        forall k | 0 <= k < descNum ensures HoldsAt(slots, k) {}
      }
    }

    /** The objects are in the state that `m` describes. */
    ghost predicate Shows(m: TC.Channel)
      reads `ring, `descs, `headBlkCtl, `tailBlkCtl, `hwPos, ring`skb, ring`bdCpuAddr, descs`ctrl
    {
      && TC.Wf(m) && |m.ring.slots| == descNum == |ring| == |descs| && Holds(m.ring.slots, 0)
      && headBlkCtl == ring[m.ring.head] && tailBlkCtl == ring[m.ring.tail] && hwPos == m.ring.hw
    }

    /** `ctl->skb = skb`. */
    method PutSkb(ctl: DxeCtl, skb: Option<Skb>, ghost i: nat, ghost slots: seq<Slot>)
      requires Indexed() && ShowsSlots(slots) && i < descNum && ctl == ring[i]
      modifies ctl`skb
      ensures ShowsSlots(slots[i := slots[i].(skb := skb)])
    {
      ctl.skb := skb;
    }

    /** Sets the source of a transfer and then the control word. */
    method Arm(desc: DxeDesc, xfer: Transfer, ctrl: CtrlWord, ghost i: nat, ghost slots: seq<Slot>)
      requires Indexed() && ShowsSlots(slots) && i < descNum && desc == descs[i]
      modifies desc`xfer, desc`ctrl
      ensures ShowsSlots(slots[i := slots[i].(valid := ctrl.valid)])
      ensures desc.xfer == xfer && desc.ctrl == ctrl
    {
      desc.xfer := xfer;
      desc.ctrl := ctrl;
    }

    /** A transmit channel after initialisation. */
    ghost predicate Ready()
      reads this, ring, descs
    {
      && Built() && 4 <= descNum && descNum % 2 == 0
      && headBlkCtl == ring[0] && tailBlkCtl == ring[0] && hwPos == 0
      && (forall i :: 0 <= i < descNum ==> !descs[i].ctrl.valid)
      && (forall i :: 0 <= i < descNum ==> ring[i].skb == None)
      && (forall i :: 0 <= i < descNum ==> (ring[i].bdCpuAddr != 0 <==> i % 2 == 0))
    }

    /** The steps that bring a transmit channel up: `wcn36xx_dxe_alloc_ctl_blks`, and the part of
        `wcn36xx_dxe_init` for the channel, which does not look at what `wcn36xx_dxe_init_descs`
        returns. If only the descriptors cannot be allocated, the control blocks stay allocated, each
        without a descriptor, and the BD buffers are handed out all the same. */
    method BringUp(slab: Slab, failAt: nat, ghost h: nat, memOk: bool, dmaAddr: nat, virtAddr: nat, phyAddr: nat)
        returns (ok: bool)
      requires AtStart(slab, h) && 4 <= descNum && descNum % 2 == 0
      requires chType == TxL || chType == TxH
      requires virtAddr != 0
      modifies this, slab
      ensures ok <==> descNum <= failAt
      ensures ok ==> fresh(ring)
      ensures ok && memOk ==> Ready() && fresh(descs)
      ensures ok ==> slab.live == old(slab.live) + (set c | c in ring)
      ensures ok && !memOk ==> Cycle() && descs == old(descs) && forall c :: c in ring ==> c.desc == null
      ensures ok ==> HasBds(virtAddr)
      ensures !ok ==> slab.live == old(slab.live) && descs == old(descs)
    {
      ok := AllocateCtlBlock(slab, failAt, h);
      if ok {
        InitChannel(memOk, dmaAddr, virtAddr, phyAddr);
      }
    }

    method InitChannel(memOk: bool, dmaAddr: nat, virtAddr: nat, phyAddr: nat)
      requires Cycle() && 4 <= descNum && descNum % 2 == 0 && (chType == TxL || chType == TxH)
      requires headBlkCtl == tailBlkCtl == ring[0] && virtAddr != 0
      requires forall c :: c in ring ==> c.skb == None
      modifies `descs, `dmaAddr, `hwPos, ring`desc, ring`descPhyAddr, ring`bdCpuAddr, ring`bdPhyAddr
      ensures memOk ==> Ready() && fresh(descs)
      ensures !memOk ==> descs == old(descs) && forall c :: c in ring ==> c.desc == old(c.desc)
      ensures HasBds(virtAddr)
    {
      var ok := InitDescs(dmaAddr, memOk);
      if ok {
        AddBds(virtAddr, phyAddr);
      } else {
        AddBdsOnly(virtAddr, phyAddr);
      }
    }

    /** The BD buffers are those of the pool at `virtAddr`. */
    ghost predicate HasBds(virtAddr: nat)
      reads `ring, ring`bdCpuAddr
    {
      |ring| == descNum && forall i :: 0 <= i < descNum ==> ring[i].bdCpuAddr == BdAddr(virtAddr, i)
    }

    method AddBdsOnly(virtAddr: nat, phyAddr: nat)
      requires Cycle() && headBlkCtl == ring[0]
      modifies ring`bdCpuAddr, ring`bdPhyAddr
      ensures HasBds(virtAddr)
    {
      InitTxBd(virtAddr, phyAddr);
    }

    method AddBds(virtAddr: nat, phyAddr: nat)
      requires Linked() && 4 <= descNum && descNum % 2 == 0 && (chType == TxL || chType == TxH)
      requires headBlkCtl == tailBlkCtl == ring[0] && hwPos == 0 && virtAddr != 0
      requires forall i :: 0 <= i < descNum ==> descs[i].ctrl == DefaultCtrl(chType)
      requires forall c :: c in ring ==> c.skb == None
      modifies ring`bdCpuAddr, ring`bdPhyAddr
      ensures Ready() && HasBds(virtAddr)
    {
      InitTxBd(virtAddr, phyAddr);
      IsReady(virtAddr);
    }

    lemma IsReady(virtAddr: nat)
      requires Linked() && 4 <= descNum && descNum % 2 == 0 && (chType == TxL || chType == TxH)
      requires headBlkCtl == tailBlkCtl == ring[0] && hwPos == 0 && virtAddr != 0
      requires forall i :: 0 <= i < descNum ==> descs[i].ctrl == DefaultCtrl(chType)
      requires forall c :: c in ring ==> c.skb == None
      requires forall i :: 0 <= i < descNum ==> ring[i].bdCpuAddr == BdAddr(virtAddr, i)
      ensures Ready()
    {
      assert forall i :: 0 <= i < descNum ==> ring[i] in ring;
      LinkedMeansBuilt();
    }

    ghost function InitialModel(): (m: TC.Channel)
      requires Ready()
      reads this, ring, descs
      ensures Shows(m) && TC.CleanChannel(m)
    {
      var slots := seq(descNum, i requires 0 <= i < |ring| reads this, ring => Slot(false, None, ring[i].bdCpuAddr));
      HoldsMeansShows(slots);
      TC.Channel(Ring(slots, 0, 0, 0), TC.Off, [], [])
    }

    function CtrlBd(): (w: CtrlWord)
      ensures w.valid && Word(w) == if chType == TxL then 0x308a45 else 0x30ce45
    {
      if chType == TxL then CTRL_TX_L_BD else CTRL_TX_H_BD
    }

    function CtrlSkb(): (w: CtrlWord)
      ensures w.valid && Word(w) == if chType == TxL then 0x328a4d else 0x32ce4d
    {
      if chType == TxL then CTRL_TX_L_SKB else CTRL_TX_H_SKB
    }

    function DxeWq(): nat {
      if chType == TxL then WQ_TX_L else WQ_TX_H
    }

    /** `wcn36xx_dxe_get_next_bd`. */
    method GetNextBd(ghost m: TC.Channel) returns (bd: nat)
      requires Built() && Shows(m)
      ensures bd == m.ring.slots[m.ring.head].bd
    {
      HoldsMeansShows(m.ring.slots);
      bd := headBlkCtl.bdCpuAddr;
    }

    /** The test of `wcn36xx_dxe_tx_frame` for a full ring. */
    method IsFull(ghost m: TC.Channel) returns (full: bool)
      requires Built() && Shows(m)
      ensures full <==> m.ring.slots[Next(m.ring.head, descNum)].skb.Some?
    {
      BuiltMeansLinked();
      HoldsMeansShows(m.ring.slots);
      assert headBlkCtl.next == ring[Next(m.ring.head, descNum)];
      full := headBlkCtl.next.skb != None;
    }

    /** The rest of `wcn36xx_dxe_tx_frame`, on a ring that is not full. */
    method Enqueue(skb: Skb, len: nat, ghost m: TC.Channel) returns (ret: Ret, ghost m': TC.Channel)
      requires Built() && Shows(m) && m.ring.slots[Next(m.ring.head, descNum)].skb.None?
      modifies `headBlkCtl, ring`skb, descs`ctrl, descs`xfer
      ensures Shows(m') && (m', ret) == TC.Accept(m, skb) && ret != EBusy
      ensures ret == Ok ==> FrameAt(m.ring.head, skb, len)
    {
      BuiltMeansLinked();
      HoldsMeansShows(m.ring.slots);
      var ok := PlaceFrame(skb, len, m.ring.head, m.ring.slots);
      ret := if ok then Ok else EInval;
      m' := TC.Accept(m, skb).0;
      PlacedIsAccepted(m, skb, ok);
    }

    /** What PlaceFrame does to the slots. */
    static ghost function Placed(slots: seq<Slot>, h: nat, skb: Skb): seq<Slot>
      requires h < |slots|
    {
      WithSkb(WithBd(slots, h), Next(h, |slots|), skb)
    }

    lemma PlacedIsAccepted(m: TC.Channel, skb: Skb, ok: bool)
      requires TC.Wf(m) && |m.ring.slots| == descNum == |ring| == |descs|
      requires var r, nx, placed := m.ring, Next(m.ring.head, descNum), Placed(m.ring.slots, m.ring.head, skb);
               && r.slots[nx].skb.None? && (ok <==> placed[nx].bd == 0)
               && ShowsSlots(if ok then Armed(placed, nx) else placed)
               && headBlkCtl == ring[if ok then Next(nx, descNum) else r.head]
               && tailBlkCtl == ring[r.tail] && hwPos == r.hw
      ensures Shows(TC.Accept(m, skb).0)
      ensures TC.Accept(m, skb).1 == if ok then Ok else EInval
    {
      HoldsMeansShows(TC.Accept(m, skb).0.ring.slots);
    }

    /** The two descriptors of a frame: its BD buffer and its data, both for the channel's work queue.
        The DMA address of an skb is its identity. */
    ghost predicate FrameAt(h: nat, skb: Skb, len: nat)
      requires h < descNum == |ring| == |descs|
      reads `ring, `descs, ring`skb, ring`bdPhyAddr, descs`xfer, descs`ctrl
    {
      var bd, data, low := descs[h], descs[Next(h, descNum)], chType == TxL;
      && ring[h].skb == None && ring[Next(h, descNum)].skb == Some(skb)
      && bd.xfer == Transfer(40, ring[h].bdPhyAddr, 0x17) && Word(bd.ctrl) == (if low then 0x308a45 else 0x30ce45)
      && data.xfer == Transfer(len, skb.id, 0x17) && Word(data.ctrl) == (if low then 0x328a4d else 0x32ce4d)
    }

    /** Fills the pair of slots at the head and moves the head on. */
    method PlaceFrame(skb: Skb, len: nat, ghost h: nat, ghost slots: seq<Slot>) returns (ok: bool)
      requires Linked() && ShowsSlots(slots) && h < descNum && headBlkCtl == ring[h] && 2 <= descNum
      modifies `headBlkCtl, ring`skb, descs`ctrl, descs`xfer
      ensures ok <==> Placed(slots, h, skb)[Next(h, descNum)].bd == 0
      ensures ShowsSlots(if ok then Armed(Placed(slots, h, skb), Next(h, descNum)) else Placed(slots, h, skb))
      ensures headBlkCtl == ring[if ok then Next(Next(h, descNum), descNum) else h]
      ensures ok ==> FrameAt(h, skb, len)
    {
      var ctl := headBlkCtl;
      var second := ctl.next;
      ghost var nx := Next(h, descNum);
      assert second == ring[nx] && second.next == ring[Next(nx, descNum)];
      ghost var s1 := PlaceBd(ctl, ctl.desc, h, slots);
      ok, s1 := PlaceSkb(second, second.desc, skb, len, nx, s1);
      headBlkCtl := if ok then second.next else ctl;
    }

    /** The BD slot of a frame. */
    method PlaceBd(ctl: DxeCtl, desc: DxeDesc, ghost i: nat, ghost slots: seq<Slot>) returns (ghost s': seq<Slot>)
      requires Indexed() && ShowsSlots(slots) && i < descNum && ctl == ring[i] && desc == descs[i]
      modifies ctl`skb, desc`ctrl, desc`xfer
      ensures s' == WithBd(slots, i) && ShowsSlots(s') && ctl.skb == None
      ensures desc.xfer == Transfer(TX_BD_SIZE, ctl.bdPhyAddr, DxeWq()) && desc.ctrl == CtrlBd()
    {
      PutSkb(ctl, None, i, slots);
      ghost var s1 := slots[i := slots[i].(skb := None)];
      assert s1[i := s1[i].(valid := true)] == WithBd(slots, i);
      Arm(desc, Transfer(TX_BD_SIZE, ctl.bdPhyAddr, DxeWq()), CtrlBd(), i, s1);
      s' := WithBd(slots, i);
    }

    /** The skb slot of a frame; on a slot with a BD buffer it is left half done. */
    method PlaceSkb(ctl: DxeCtl, desc: DxeDesc, skb: Skb, len: nat, ghost i: nat, ghost slots: seq<Slot>)
        returns (ok: bool, ghost s': seq<Slot>)
      requires Indexed() && ShowsSlots(slots) && i < descNum && ctl == ring[i] && desc == descs[i]
      modifies ctl`skb, desc`ctrl, desc`xfer
      ensures ok <==> slots[i].bd == 0
      ensures s' == (if ok then Armed(WithSkb(slots, i, skb), i) else WithSkb(slots, i, skb)) && ShowsSlots(s')
      ensures ok ==> desc.xfer == Transfer(len, skb.id, DxeWq()) && desc.ctrl == CtrlSkb()
      ensures ctl.skb == Some(skb)
    {
      PutSkb(ctl, Some(skb), i, slots);
      ok := ctl.bdCpuAddr == 0;
      if ok {
        Arm(desc, Transfer(len, skb.id, DxeWq()), CtrlSkb(), i, WithSkb(slots, i, skb));
      }
      s' := if ok then Armed(WithSkb(slots, i, skb), i) else WithSkb(slots, i, skb);
    }

    /** One step of the engine. */
    method DmaStep(ghost m: TC.Channel) returns (ghost m': TC.Channel)
      requires Built() && Shows(m)
      modifies `hwPos, descs`ctrl
      ensures Shows(m') && m' == TC.DmaStep(m)
    {
      m' := TC.DmaStep(m);
      var valid := AtValid(m.ring.slots);
      if valid {
        ghost var s := ClearValid(hwPos, m.ring.slots);
        hwPos := FollowLink(hwPos);
      }
    }

    /** The engine goes on with the descriptor at the physical address that its link gives: the descriptor
        of the next block, and no other is at that address. */
    method FollowLink(i: nat) returns (next: nat)
      requires Built() && i < descNum
      ensures next == Next(i, descNum) && ring[next].descPhyAddr == descs[i].phyNextL
      ensures forall k :: 0 <= k < descNum && ring[k].descPhyAddr == descs[i].phyNextL ==> k == next
    {
      BuiltMeansLinked();
      next := (descs[i].phyNextL - dmaAddr) / 32;
    }

    method AtValid(ghost slots: seq<Slot>) returns (valid: bool)
      requires Built() && |slots| == descNum && Holds(slots, 0) && hwPos < descNum
      ensures valid == slots[hwPos].valid
    {
      HoldsMeansShows(slots);
      valid := descs[hwPos].ctrl.valid;
    }

    method ClearValid(i: nat, ghost slots: seq<Slot>) returns (ghost s: seq<Slot>)
      requires Built() && |slots| == descNum && Holds(slots, 0) && i < descNum
      modifies descs`ctrl
      ensures s == slots[i := slots[i].(valid := false)] && Holds(s, 0)
    {
      BuiltMeansLinked();
      HoldsMeansShows(slots);
      s := Invalidate(descs[i], i, slots);
      HoldsMeansShows(s);
    }

    /* ---- What the reaper reads and writes ---- */

    /** Only the ring of a channel's state is stored in the objects. */
    lemma ShowsRing(m: TC.Channel, m': TC.Channel)
      requires Shows(m) && m'.ring == m.ring && TC.Wf(m')
      ensures Shows(m')
    {
    }

    method LookAt(ctl: DxeCtl, ghost i: nat, ghost m: TC.Channel) returns (valid: bool, skb: Option<Skb>)
      requires Built() && Shows(m) && i < descNum && ctl == ring[i]
      ensures valid == m.ring.slots[i].valid && skb == m.ring.slots[i].skb
    {
      BuiltMeansLinked();
      HoldsMeansShows(m.ring.slots);
      valid, skb := ctl.desc.ctrl.valid, ctl.skb;
    }

    method DropSkb(ctl: DxeCtl, ghost i: nat, ghost m: TC.Channel)
      requires Built() && Shows(m) && i < descNum && ctl == ring[i]
      modifies ctl`skb
      ensures Shows(m.(ring := RingClear(m.ring, i)))
    {
      BuiltMeansLinked();
      HoldsMeansShows(m.ring.slots);
      PutSkb(ctl, None, i, m.ring.slots);
      HoldsMeansShows(RingClear(m.ring, i).slots);
    }

    method NextCtl(ctl: DxeCtl, ghost i: nat) returns (next: DxeCtl)
      requires Built() && i < descNum && ctl == ring[i]
      ensures next == ring[Next(i, descNum)]
    {
      BuiltMeansLinked();
      next := ctl.next;
    }

    /** `ch->tail_blk_ctl = ctl`. */
    method SetTail(ctl: DxeCtl, ghost i: nat, ghost m: TC.Channel)
      requires Built() && Shows(m) && m.walk.On? && i == m.walk.cur && ctl == ring[i]
      modifies `tailBlkCtl
      ensures Shows(TC.Stop(m))
    {
      tailBlkCtl := ctl;
    }

    /** The condition of the reaper's loop: `ctl` is not the head, and its descriptor is completed. */
    method GoesOn(ctl: DxeCtl, ghost i: nat, ghost m: TC.Channel) returns (again: bool)
      requires Built() && Shows(m) && i < descNum && ctl == ring[i]
      ensures again <==> i != m.ring.head && !m.ring.slots[i].valid
    {
      BuiltMeansLinked();
      HoldsMeansShows(m.ring.slots);
      again := ctl != headBlkCtl && !ctl.desc.ctrl.valid;
    }

    method Invalidate(desc: DxeDesc, ghost i: nat, ghost slots: seq<Slot>) returns (ghost s: seq<Slot>)
      requires Indexed() && ShowsSlots(slots) && i < descNum && desc == descs[i]
      modifies desc`ctrl
      ensures s == slots[i := slots[i].(valid := false)] && ShowsSlots(s)
    {
      desc.ctrl := desc.ctrl.(valid := false);
      s := slots[i := slots[i].(valid := false)];
    }

    /* ---- The receive path ---- */

    /** A receive slot: the buffer of the block and the one that the engine writes to. */
    ghost predicate HoldsRxAt(slots: seq<RX.RxSlot>, i: nat)
      requires |slots| == descNum == |ring| == |descs| && i < descNum
      reads `ring, `descs, ring`skb, descs`ctrl, descs`xfer
    {
      && slots[i].valid == descs[i].ctrl.valid
      && ring[i].skb == Some(Skb(slots[i].skb, false))
      && slots[i].dst == descs[i].xfer.dst
    }

    ghost predicate HoldsRx(slots: seq<RX.RxSlot>, i: nat)
      requires |slots| == descNum == |ring| == |descs|
      reads `ring, `descs, ring`skb, descs`ctrl, descs`xfer
      decreases descNum - i
    {
      i < descNum ==> HoldsRxAt(slots, i) && HoldsRx(slots, i + 1)
    }

    lemma {:induction false} HoldsRxMeans(slots: seq<RX.RxSlot>, i: nat)
      requires |slots| == descNum == |ring| == |descs| && i <= descNum
      ensures HoldsRx(slots, i) <==> forall k :: i <= k < descNum ==> HoldsRxAt(slots, k)
      decreases descNum - i
    {
      if i < descNum {
        HoldsRxMeans(slots, i + 1);
      }
    }

    /** The objects, and mac80211 and the allocator behind `rx`, are in the state that `x`
        describes, where `ctl` is the block that the driver looks at. */
    ghost predicate ShowsRx(rx: RxPath, ctl: DxeCtl?, x: RX.Rx)
      reads `ring, `descs, `hwPos, ring`skb, descs`ctrl, descs`xfer, rx
    {
      && RX.WfRx(x) && |x.slots| == descNum == |ring| == |descs| && HoldsRx(x.slots, 0)
      && ctl == ring[x.head] && hwPos == x.hw
      && rx.nextBuf == x.nextBuf && rx.delivered == x.delivered
    }

    ghost predicate ShowsRxSlots(slots: seq<RX.RxSlot>)
      reads `ring, `descs, ring`skb, descs`ctrl, descs`xfer
    {
      && |slots| == descNum == |ring| == |descs|
      && (forall k :: 0 <= k < descNum ==> slots[k].valid == descs[k].ctrl.valid)
      && (forall k :: 0 <= k < descNum ==> ring[k].skb == Some(Skb(slots[k].skb, false)))
      && (forall k :: 0 <= k < descNum ==> slots[k].dst == descs[k].xfer.dst)
    }

    lemma HoldsRxMeansShows(slots: seq<RX.RxSlot>)
      requires |slots| == descNum == |ring| == |descs|
      ensures HoldsRx(slots, 0) <==> ShowsRxSlots(slots)
    {
      HoldsRxMeans(slots, 0);
      if HoldsRx(slots, 0) {
        forall k | 0 <= k < descNum
          ensures slots[k].valid == descs[k].ctrl.valid
          ensures ring[k].skb == Some(Skb(slots[k].skb, false))
          ensures slots[k].dst == descs[k].xfer.dst
        {
          assert HoldsRxAt(slots, k);
        }
      } else if ShowsRxSlots(slots) {
        forall k | 0 <= k < descNum ensures HoldsRxAt(slots, k) {}
      }
    }

    /** `wcn36xx_dxe_fill_skb`: on failure the slot keeps its buffer. */
    method FillSkb(ctl: DxeCtl, desc: DxeDesc, rx: RxPath, ghost i: nat, ghost slots: seq<RX.RxSlot>)
        returns (ok: bool)
      requires Indexed() && i < descNum == |slots| && ctl == ring[i] && desc == descs[i]
      requires ShowsRxSlots(slots)
      modifies ctl`skb, desc`xfer, rx`nextBuf
      ensures ShowsRxSlots(if ok then slots[i := slots[i].(skb := old(rx.nextBuf), dst := old(rx.nextBuf))] else slots)
      ensures rx.nextBuf == if ok then old(rx.nextBuf) + 1 else old(rx.nextBuf)
    {
      var skb := rx.AllocSkb();
      ok := skb.Some?;
      if ok {
        PutBuffer(ctl, desc, skb.value.id, i, slots);
      }
    }

    method PutBuffer(ctl: DxeCtl, desc: DxeDesc, buf: nat, ghost i: nat, ghost slots: seq<RX.RxSlot>)
      requires Indexed() && i < descNum == |slots| && ctl == ring[i] && desc == descs[i]
      requires ShowsRxSlots(slots)
      modifies ctl`skb, desc`xfer
      ensures ShowsRxSlots(slots[i := slots[i].(skb := buf, dst := buf)])
    {
      desc.xfer := desc.xfer.(dst := buf);
      ctl.skb := Some(Skb(buf, false));
    }

    /** `wcn36xx_dxe_ch_alloc_skb`, where slot `k` gets buffer `got[k]`, or keeps what it holds if none
        could be allocated, which is not looked at. If every allocation succeeds, the ring is as
        RxBoot says. */
    method ChAllocSkb(rx: RxPath, ghost skbs: seq<Option<Skb>>, ghost dsts: seq<nat>)
        returns (ghost got: seq<Option<nat>>, ghost x: RX.Rx)
      requires Built() && headBlkCtl == ring[0] && hwPos == 0 && rx.nextBuf == 0 && rx.delivered == []
      requires forall k :: 0 <= k < descNum ==> descs[k].ctrl == DefaultCtrl(chType)
      requires (chType == RxL || chType == RxH) && HoldsSkbs(skbs, dsts)
      modifies ring`skb, descs`xfer, rx`nextBuf
      ensures |got| == descNum && Numbered(got, rx.nextBuf) && HoldsSkbs(GotSkbs(skbs, got), GotDsts(dsts, got))
      ensures None !in got ==> RX.RxBoot(x) && ShowsRx(rx, headBlkCtl, x)
    {
      got := FillAll(rx, skbs, dsts);
      x := FilledModel();
      if None !in got {
        AllNumbered(got, rx.nextBuf);
        FilledShown(rx, GotSkbs(skbs, got), GotDsts(dsts, got));
      }
    }

    ghost function FilledModel(): RX.Rx {
      RX.Rx(seq(descNum, k requires 0 <= k => RX.RxSlot(true, k, k)), 0, 0, descNum, [], [])
    }

    lemma FilledShown(rx: RxPath, skbs: seq<Option<Skb>>, dsts: seq<nat>)
      requires 0 < descNum == |ring| == |descs| && headBlkCtl == ring[0] && hwPos == 0
      requires rx.nextBuf == descNum && rx.delivered == []
      requires forall k :: 0 <= k < descNum ==> descs[k].ctrl == DefaultCtrl(chType)
      requires chType == RxL || chType == RxH
      requires HoldsSkbs(skbs, dsts) && forall k :: 0 <= k < descNum ==> skbs[k] == Some(Skb(k, false)) && dsts[k] == k
      ensures RX.RxBoot(FilledModel()) && ShowsRx(rx, headBlkCtl, FilledModel())
    {
      HoldsRxMeansShows(FilledModel().slots);
    }

    /** Each block holds the skb, and each descriptor has the destination, that the sequences say. */
    ghost predicate HoldsSkbs(skbs: seq<Option<Skb>>, dsts: seq<nat>)
      reads `ring, `descs, ring`skb, descs`xfer
    {
      && |skbs| == |dsts| == descNum == |ring| == |descs|
      && (forall k :: 0 <= k < descNum ==> ring[k].skb == skbs[k])
      && (forall k :: 0 <= k < descNum ==> descs[k].xfer.dst == dsts[k])
    }

    method FillAll(rx: RxPath, ghost skbs: seq<Option<Skb>>, ghost dsts: seq<nat>) returns (ghost got: seq<Option<nat>>)
      requires Built() && headBlkCtl == ring[0] && rx.nextBuf == 0 && HoldsSkbs(skbs, dsts)
      modifies ring`skb, descs`xfer, rx`nextBuf
      ensures |got| == descNum && Numbered(got, rx.nextBuf) && HoldsSkbs(GotSkbs(skbs, got), GotDsts(dsts, got))
    {
      var curCtl := headBlkCtl;
      got := [];
      var i := 0;
      GotNothing(skbs, dsts);
      while i < descNum
        invariant 0 <= i <= descNum && curCtl == ring[if i < descNum then i else 0]
        invariant |got| == i && Numbered(got, rx.nextBuf) && HoldsSkbs(GotSkbs(skbs, got), GotDsts(dsts, got))
      {
        curCtl, got := FillOne(curCtl, rx, skbs, dsts, got);
        i := i + 1;
      }
    }

    /** One iteration of the loop. */
    method FillOne(ctl: DxeCtl, rx: RxPath, ghost skbs: seq<Option<Skb>>, ghost dsts: seq<nat>, ghost got: seq<Option<nat>>)
        returns (next: DxeCtl, ghost got': seq<Option<nat>>)
      requires Built() && |got| < descNum && ctl == ring[|got|]
      requires Numbered(got, rx.nextBuf) && HoldsSkbs(GotSkbs(skbs, got), GotDsts(dsts, got))
      modifies ring`skb, descs`xfer, rx`nextBuf
      ensures next == ring[if |got| + 1 < descNum then |got| + 1 else 0] && |got'| == |got| + 1
      ensures Numbered(got', rx.nextBuf) && HoldsSkbs(GotSkbs(skbs, got'), GotDsts(dsts, got'))
    {
      BuiltMeansLinked();
      next := ctl.next;
      ghost var g := FillNext(ctl, ctl.desc, rx, |got|, GotSkbs(skbs, got), GotDsts(dsts, got));
      NumberedNext(got, old(rx.nextBuf));
      GotNext(skbs, dsts, got, g);
      got' := got + [g];
    }

    /** `wcn36xx_dxe_fill_skb` on slot `i`. */
    method FillNext(ctl: DxeCtl, desc: DxeDesc, rx: RxPath, ghost i: nat, ghost skbs: seq<Option<Skb>>, ghost dsts: seq<nat>)
        returns (ghost g: Option<nat>)
      requires Indexed() && i < descNum && ctl == ring[i] && desc == descs[i] && HoldsSkbs(skbs, dsts)
      modifies ctl`skb, desc`xfer, rx`nextBuf
      ensures if g.Some? then g.value == old(rx.nextBuf) && rx.nextBuf == g.value + 1 else rx.nextBuf == old(rx.nextBuf)
      ensures g.Some? ==> HoldsSkbs(skbs[i := Some(Skb(g.value, false))], dsts[i := g.value])
      ensures g.None? ==> HoldsSkbs(skbs, dsts)
    {
      g := None;
      var skb := rx.AllocSkb();
      if skb.Some? {
        g := Some(skb.value.id);
        desc.xfer := desc.xfer.(dst := skb.value.id);
        ctl.skb := skb;
      }
    }

    /** `dxe->ctrl = WCN36XX_DXE_CTRL_RX_...`. */
    method Rearm(desc: DxeDesc, ghost i: nat, ghost slots: seq<RX.RxSlot>)
      requires Indexed() && i < descNum == |slots| && desc == descs[i] && ShowsRxSlots(slots)
      requires chType == RxL || chType == RxH
      modifies desc`ctrl
      ensures ShowsRxSlots(slots[i := slots[i].(valid := true)])
    {
      desc.ctrl := DefaultCtrl(chType);
    }

    /** One iteration of `wcn36xx_rx_handle_packets`. */
    method HandleSlot(ctl: DxeCtl, rx: RxPath, ghost x: RX.Rx) returns (next: DxeCtl, ghost x': RX.Rx, ghost ok: bool)
      requires (chType == RxL || chType == RxH) && Built() && ShowsRx(rx, ctl, x)
      requires !x.slots[x.head].valid
      modifies ring`skb, descs`ctrl, descs`xfer, rx
      ensures x' == RX.HandleOne(x, ok) && ShowsRx(rx, next, x')
    {
      BuiltMeansLinked();
      HoldsRxMeansShows(x.slots);
      next := ctl.next;
      ghost var s1;
      ok, s1 := PassUp(ctl, ctl.desc, ctl.skb.value.id, rx, x.head, x.slots);
      x' := RX.HandleOne(x, ok);
      HandledShown(rx, next, x, ok, s1);
    }

    lemma HandledShown(rx: RxPath, next: DxeCtl, x: RX.Rx, ok: bool, s1: seq<RX.RxSlot>)
      requires RX.WfRx(x) && !x.slots[x.head].valid && descNum == |x.slots| && ShowsRxSlots(s1)
      requires next == ring[Next(x.head, descNum)] && hwPos == x.hw
      requires s1 == x.slots[x.head := if ok then RX.RxSlot(true, x.nextBuf, x.nextBuf)
                                       else x.slots[x.head].(valid := true)]
      requires rx.nextBuf == if ok then x.nextBuf + 1 else x.nextBuf
      requires rx.delivered == x.delivered + [x.slots[x.head].skb]
      ensures ShowsRx(rx, next, RX.HandleOne(x, ok))
    {
      HoldsRxMeansShows(s1);
    }

    /** What the slot holds when it has been refilled, or has kept its buffer. */
    ghost function Refilled(slots: seq<RX.RxSlot>, i: nat, ok: bool, b: nat): seq<RX.RxSlot>
      requires i < |slots|
    {
      slots[i := if ok then RX.RxSlot(true, b, b) else slots[i].(valid := true)]
    }

    method PassUp(ctl: DxeCtl, desc: DxeDesc, buf: nat, rx: RxPath, ghost i: nat, ghost slots: seq<RX.RxSlot>)
        returns (ghost ok: bool, ghost s': seq<RX.RxSlot>)
      requires Indexed() && i < descNum == |slots| && ctl == ring[i] && desc == descs[i]
      requires ShowsRxSlots(slots) && (chType == RxL || chType == RxH)
      modifies ctl`skb, desc`ctrl, desc`xfer, rx`nextBuf, rx`delivered
      ensures s' == Refilled(slots, i, ok, old(rx.nextBuf)) && ShowsRxSlots(s')
      ensures rx.nextBuf == if ok then old(rx.nextBuf) + 1 else old(rx.nextBuf)
      ensures rx.delivered == old(rx.delivered) + [buf]
    {
      ok, s' := Refill(ctl, desc, rx, i, slots);
      rx.Receive(buf);
    }

    /** A buffer is put in if there is one, and the slot is armed. */
    method Refill(ctl: DxeCtl, desc: DxeDesc, rx: RxPath, ghost i: nat, ghost slots: seq<RX.RxSlot>)
        returns (ghost ok: bool, ghost s': seq<RX.RxSlot>)
      requires Indexed() && i < descNum == |slots| && ctl == ring[i] && desc == descs[i]
      requires ShowsRxSlots(slots) && (chType == RxL || chType == RxH)
      modifies ctl`skb, desc`xfer, desc`ctrl, rx`nextBuf
      ensures s' == Refilled(slots, i, ok, old(rx.nextBuf)) && ShowsRxSlots(s')
      ensures rx.nextBuf == if ok then old(rx.nextBuf) + 1 else old(rx.nextBuf)
    {
      var filled := FillSkb(ctl, desc, rx, i, slots);
      ghost var b := old(rx.nextBuf);
      ghost var s1 := if filled then slots[i := slots[i].(skb := b, dst := b)] else slots;
      Rearm(desc, i, s1);
      ok := filled;
      s' := s1[i := s1[i].(valid := true)];
    }

    /** The engine receives a frame, if its descriptor is armed. */
    method ReceiveOne(rx: RxPath, ctl: DxeCtl, ghost x: RX.Rx)
      requires Built() && ShowsRx(rx, ctl, x)
      modifies `hwPos, descs`ctrl
      ensures ShowsRx(rx, ctl, RX.FillOne(x))
    {
      var valid := AtArmed(x.slots);
      if valid {
        ghost var s := Disarm(hwPos, x.slots);
        hwPos := FollowLink(hwPos);
      }
    }

    method AtArmed(ghost slots: seq<RX.RxSlot>) returns (valid: bool)
      requires Built() && |slots| == descNum && HoldsRx(slots, 0) && hwPos < descNum
      ensures valid == slots[hwPos].valid
    {
      HoldsRxMeansShows(slots);
      valid := descs[hwPos].ctrl.valid;
    }

    method Disarm(i: nat, ghost slots: seq<RX.RxSlot>) returns (ghost s: seq<RX.RxSlot>)
      requires Built() && |slots| == descNum && HoldsRx(slots, 0) && i < descNum
      modifies descs`ctrl
      ensures s == slots[i := slots[i].(valid := false)] && HoldsRx(s, 0)
    {
      BuiltMeansLinked();
      HoldsRxMeansShows(slots);
      s := DisarmSlot(descs[i], i, slots);
      HoldsRxMeansShows(s);
    }

    method DisarmSlot(desc: DxeDesc, ghost i: nat, ghost slots: seq<RX.RxSlot>) returns (ghost s: seq<RX.RxSlot>)
      requires Indexed() && i < descNum == |slots| && desc == descs[i] && ShowsRxSlots(slots)
      modifies desc`ctrl
      ensures s == slots[i := slots[i].(valid := false)] && ShowsRxSlots(s)
    {
      desc.ctrl := desc.ctrl.(valid := false);
      s := slots[i := slots[i].(valid := false)];
    }

    /** The engine receives any number of frames, of `budget` that are still to come. */
    method EngineRuns(rx: RxPath, ctl: DxeCtl, budget: nat, ghost x: RX.Rx)
        returns (left: nat, ghost x': RX.Rx, ghost es: seq<RX.RxEvent>)
      requires Built() && ShowsRx(rx, ctl, x)
      modifies `hwPos, descs`ctrl
      ensures ShowsRx(rx, ctl, x') && x' == RX.RxRun(x, es) && forall i :: 0 <= i < |es| ==> es[i] == RX.Fill
      ensures left <= budget && |x'.filled| + left <= |x.filled| + budget
    {
      left, x', es := budget, x, [];
      var n: int := *;
      while 0 < n && 0 < left
        invariant ShowsRx(rx, ctl, x') && x' == RX.RxRun(x, es) && forall i :: 0 <= i < |es| ==> es[i] == RX.Fill
        invariant left <= budget && |x'.filled| + left <= |x.filled| + budget
        decreases left
      {
        ReceiveOne(rx, ctl, x');
        RX.RxRunSnoc(x, es, RX.Fill);
        x', es := RX.FillOne(x'), es + [RX.Fill];
        left, n := left - 1, n - 1;
      }
    }

    /** `wcn36xx_rx_handle_packets`, with the engine receiving up to `budget` frames between any two of
        its iterations. It stops at an armed slot, and has passed up exactly the frames that were
        waiting and those received meanwhile. */
    method HandlePackets(rx: RxPath, budget: nat, ghost x: RX.Rx, ghost waiting: nat)
        returns (handled: nat, ghost x': RX.Rx, ghost es: seq<RX.RxEvent>)
      requires (chType == RxL || chType == RxH) && Built() && ShowsRx(rx, headBlkCtl, x) && RX.Waiting(x, waiting)
      modifies `headBlkCtl, `hwPos, ring`skb, descs`ctrl, descs`xfer, rx
      ensures ShowsRx(rx, headBlkCtl, x') && x' == RX.RxRun(x, es)
      ensures x'.slots[x'.head].valid
      ensures |x'.delivered| == |x.delivered| + handled
      ensures handled == waiting + (|x'.filled| - |x.filled|) <= descNum + budget
    {
      var ctl := headBlkCtl;
      handled, x', es := 0, x, [];
      var left := budget;
      var filled := IsFilled(rx, ctl, x);
      while filled
        invariant ShowsRx(rx, ctl, x') && RX.Handled(x, waiting, budget, es, x', handled, left)
        invariant filled <==> !x'.slots[x'.head].valid
        decreases waiting + budget - handled
      {
        ctl, left, x', es := HandleFurther(ctl, rx, left, x', x, waiting, budget, es, handled);
        handled := handled + 1;
        filled := IsFilled(rx, ctl, x');
      }
      RX.HandledAll(x, waiting, budget, es, x', handled, left);
      headBlkCtl := ctl;
    }

    /** One more iteration, counted from the beginning of the loop. */
    method HandleFurther(ctl: DxeCtl, rx: RxPath, left: nat, ghost y: RX.Rx, ghost x: RX.Rx, ghost waiting: nat,
                         ghost budget: nat, ghost before: seq<RX.RxEvent>, ghost handled: nat)
        returns (next: DxeCtl, left': nat, ghost x': RX.Rx, ghost es: seq<RX.RxEvent>)
      requires (chType == RxL || chType == RxH) && Built() && ShowsRx(rx, ctl, y) && !y.slots[y.head].valid
      requires RX.Waiting(x, waiting) && RX.Handled(x, waiting, budget, before, y, handled, left)
      modifies `hwPos, ring`skb, descs`ctrl, descs`xfer, rx
      ensures ShowsRx(rx, next, x') && RX.Handled(x, waiting, budget, es, x', handled + 1, left')
    {
      next, left', x', es := HandleAndGoOn(ctl, rx, left, y);
      es, x' := RX.HandledFurther(x, waiting, budget, before, y, handled, es, x', left');
    }

    method HandleAndGoOn(ctl: DxeCtl, rx: RxPath, budget: nat, ghost x: RX.Rx)
        returns (next: DxeCtl, left: nat, ghost x': RX.Rx, ghost es: seq<RX.RxEvent>)
      requires (chType == RxL || chType == RxH) && Built() && ShowsRx(rx, ctl, x) && !x.slots[x.head].valid
      modifies `hwPos, ring`skb, descs`ctrl, descs`xfer, rx
      ensures ShowsRx(rx, next, x') && x' == RX.RxRun(x, es)
      ensures |x'.delivered| == |x.delivered| + 1
      ensures left <= budget && |x'.filled| + left <= |x.filled| + budget
    {
      ghost var y, ok, fs;
      next, y, ok := HandleSlot(ctl, rx, x);
      left, x', fs := EngineRuns(rx, next, budget, y);
      RX.FillsOnly(y, fs);
      RX.RxRunFirst(x, RX.Handle(ok), fs);
      es := [RX.Handle(ok)] + fs;
    }

    /** The loop condition. */
    method IsFilled(rx: RxPath, ctl: DxeCtl, ghost x: RX.Rx) returns (filled: bool)
      requires Built() && ShowsRx(rx, ctl, x)
      ensures filled <==> !x.slots[x.head].valid
    {
      BuiltMeansLinked();
      HoldsRxMeansShows(x.slots);
      filled := !ctl.desc.ctrl.valid;
    }
  }

  /** The buffers that have been allocated, `next` of them, are numbered in the order of the slots. */
  ghost predicate Numbered(got: seq<Option<nat>>, next: nat)
    decreases |got|
  {
    if got == [] then next == 0
    else
      var last, rest := got[|got| - 1], got[..|got| - 1];
      if last.Some? then 0 < next && last.value == next - 1 && Numbered(rest, next - 1) else Numbered(rest, next)
  }

  /** What the blocks hold when the first slots have got the buffers `got`. */
  ghost function GotSkbs(skbs: seq<Option<Skb>>, got: seq<Option<nat>>): (r: seq<Option<Skb>>)
    ensures |r| == |skbs|
  {
    seq(|skbs|, k requires 0 <= k < |skbs| =>
      if k < |got| && got[k].Some? then Some(Skb(got[k].value, false)) else skbs[k])
  }

  ghost function GotDsts(dsts: seq<nat>, got: seq<Option<nat>>): (r: seq<nat>)
    ensures |r| == |dsts|
  {
    seq(|dsts|, k requires 0 <= k < |dsts| => if k < |got| && got[k].Some? then got[k].value else dsts[k])
  }

  lemma GotNothing(skbs: seq<Option<Skb>>, dsts: seq<nat>)
    ensures GotSkbs(skbs, []) == skbs && GotDsts(dsts, []) == dsts
  {
  }

  lemma GotNext(skbs: seq<Option<Skb>>, dsts: seq<nat>, got: seq<Option<nat>>, g: Option<nat>)
    requires |got| < |skbs| == |dsts|
    ensures GotSkbs(skbs, got + [g])
         == if g.Some? then GotSkbs(skbs, got)[|got| := Some(Skb(g.value, false))] else GotSkbs(skbs, got)
    ensures GotDsts(dsts, got + [g]) == if g.Some? then GotDsts(dsts, got)[|got| := g.value] else GotDsts(dsts, got)
  {
  }

  lemma NumberedNext(got: seq<Option<nat>>, next: nat)
    requires Numbered(got, next)
    ensures Numbered(got + [Some(next)], next + 1) && Numbered(got + [None], next)
  {
    assert (got + [Some(next)])[..|got|] == got && (got + [None])[..|got|] == got;
  }

  lemma {:induction false} AllNumbered(got: seq<Option<nat>>, next: nat)
    requires Numbered(got, next) && None !in got
    ensures next == |got| && forall k :: 0 <= k < |got| ==> got[k] == Some(k)
  {
    if got != [] {
      assert got[|got| - 1] != None;
      AllNumbered(got[..|got| - 1], next - 1);
    }
  }

  /** Where receive buffers come from and go to. Allocation may fail. */
  class RxPath {
    var nextBuf: nat
    var delivered: seq<nat>

    constructor ()
      ensures nextBuf == 0 && delivered == []
    {
      nextBuf, delivered := 0, [];
    }

    method AllocSkb() returns (skb: Option<Skb>)
      modifies `nextBuf
      ensures skb.Some? ==> skb.value == Skb(old(nextBuf), false) && nextBuf == old(nextBuf) + 1
      ensures skb.None? ==> nextBuf == old(nextBuf)
    {
      var fails: bool := *;
      if fails {
        skb := None;
      } else {
        skb := Some(Skb(nextBuf, false));
        nextBuf := nextBuf + 1;
      }
    }

    /** `wcn36xx_rx_skb`. */
    method Receive(buf: nat)
      modifies `delivered
      ensures delivered == old(delivered) + [buf]
    {
      delivered := delivered + [buf];
    }
  }

  /** The first chunk of the pool at `base` that the slots before `i` have not taken. */
  function NextChunk(base: nat, i: nat): (a: nat)
    ensures base <= a
  {
    base + (i + 1) / 2 * CHUNK_SIZE
  }

  /** The BD buffer of slot `i` in the pool at `base`; odd slots have none. */
  function BdAddr(base: nat, i: nat): (a: nat)
    ensures base != 0 ==> (a != 0 <==> i % 2 == 0)
  {
    if i % 2 == 0 then NextChunk(base, i) else 0
  }

  lemma ChunkStep(base: nat, i: nat)
    ensures NextChunk(base, i + 1) == NextChunk(base, i) + if i % 2 == 0 then CHUNK_SIZE else 0
    ensures NextChunk(base, 0) == base
  {
    Scaled((i + 1) / 2 + 1, (i + 1) / 2 + 1, CHUNK_SIZE);
    assert (i + 2) / 2 == if i % 2 == 0 then (i + 1) / 2 + 1 else (i + 1) / 2;
  }

  lemma Scaled(a: nat, b: nat, c: nat)
    requires a <= b
    ensures (a - 1) * c + c == a * c <= b * c
  {
  }

  /** The BDs of a ring, of 40 bytes each, are disjoint, and their chunks all lie inside the pool of one
      chunk per slot. */
  lemma ChunksDisjoint(base: nat, n: nat, i: nat, j: nat)
    requires i < j < n && i % 2 == 0 && j % 2 == 0
    ensures BdAddr(base, i) == base + i / 2 * 144 && BdAddr(base, i) + 40 <= BdAddr(base, j)
    ensures BdAddr(base, i) + CHUNK_SIZE <= BdAddr(base, j)
    ensures BdAddr(base, j) + CHUNK_SIZE <= base + n * CHUNK_SIZE
  {
    assert (i + 1) / 2 == i / 2;
    Scaled((i + 1) / 2 + 1, (j + 1) / 2, CHUNK_SIZE);
    Scaled((j + 1) / 2 + 1, n, CHUNK_SIZE);
  }
}
