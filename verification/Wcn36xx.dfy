/** The driver's transmit side as code (txrx.c, dxe.c, main.c): the methods update the control
    blocks, the descriptors and the shared flags in place, and are proved against the transition
    system of TxDriver. */
module Wcn36xx {
  import opened Common
  import opened Circle
  import opened TxRing
  import TC = TxChannel
  import opened TxDriver
  import opened TxBound
  import opened ReapRuns
  import opened DxeMemory
  import opened DxeChannel

  /** What the driver does to mac80211: stopping and waking its queues, giving skbs back. */
  class Mac80211 {
    var stopped: bool
    var released: multiset<Skb>

    /** The skbs given back with IEEE80211_TX_STAT_ACK. */
    var acked: multiset<Skb>

    constructor ()
      ensures !stopped && released == multiset{} && acked == multiset{}
    {
      stopped, released, acked := false, multiset{}, multiset{};
    }

    method StopQueues()
      modifies `stopped
      ensures stopped
    {
      stopped := true;
    }

    method WakeQueues()
      modifies `stopped
      ensures !stopped
    {
      stopped := false;
    }

    method FreeTxskb(skb: Skb)
      modifies `released
      ensures released == old(released) + multiset{skb}
    {
      released := released + multiset{skb};
    }

    /** `ieee80211_tx_status_irqsafe`. */
    method TxStatus(skb: Skb, ack: bool)
      modifies `released, `acked
      ensures released == old(released) + multiset{skb}
      ensures acked == old(acked) + if ack then multiset{skb} else multiset{}
    {
      released := released + multiset{skb};
      if ack {
        acked := acked + multiset{skb};
      }
    }
  }

  /** The state that the two transmit channels share. Each method works on one channel, `ch`, which
      plays the part of channel `c` in the driver state `d`; the objects of the other channel are
      in no `modifies` clause. */
  class Wcn {
    const mac: Mac80211
    var queuesStopped: bool
    var txAckSkb: Option<Skb>

    constructor ()
      ensures !queuesStopped && txAckSkb == None && !mac.stopped && mac.released == multiset{}
      ensures fresh(mac)
    {
      mac := new Mac80211();
      queuesStopped, txAckSkb := false, None;
    }

    ghost predicate Flags(d: Driver)
      reads this, mac
    {
      (queuesStopped, txAckSkb, mac.stopped, mac.released) == (d.queuesStopped, d.ackSkb, d.macStopped, d.released)
    }

    /** `wcn36xx_dxe_tx_frame`; `len` is the length of the skb. */
    method TxFrame(ch: DxeCh, skb: Skb, len: nat, ghost m: TC.Channel) returns (ret: Ret, ghost m': TC.Channel)
      requires ch.Built() && ch.Shows(m)
      modifies `queuesStopped, mac`stopped
      modifies ch`headBlkCtl, ch.ring`skb, ch.descs`ctrl, ch.descs`xfer
      ensures ch.Shows(m') && (m', ret) == TC.Accept(m, skb)
      ensures queuesStopped == (old(queuesStopped) || ret == EBusy)
      ensures mac.stopped == (old(mac.stopped) || ret == EBusy)
    {
      var full := ch.IsFull(m);
      if full {
        mac.StopQueues();
        queuesStopped := true;
        ret, m' := EBusy, m;
      } else {
        ret, m' := ch.Enqueue(skb, len, m);
      }
    }

    /** `wcn36xx_start_tx`, the ring and flag part. */
    method StartTx(ch: DxeCh, skb: Skb, len: nat, ghost c: ChanId, ghost d: Driver)
        returns (ret: Ret, ghost m': TC.Channel)
      requires WfDriver(d) && Flags(d) && ch.Built() && ch.Shows(Get(d, c))
      modifies `queuesStopped, `txAckSkb, mac`stopped
      modifies ch`headBlkCtl, ch.ring`skb, ch.descs`ctrl, ch.descs`xfer
      ensures Flags(TxDriver.StartTx(d, c, skb).0)
      ensures ch.Shows(m') && m' == Get(TxDriver.StartTx(d, c, skb).0, c)
      ensures ret == TxDriver.StartTx(d, c, skb).1
    {
      ghost var m := Get(d, c);
      var bd := ch.GetNextBd(m);
      if bd == 0 || (skb.wantsStatus && txAckSkb.Some?) {
        ret, m' := EInval, m;
      } else {
        if skb.wantsStatus {
          txAckSkb := Some(skb);
          mac.StopQueues();
        }
        ret, m' := TxFrame(ch, skb, len, m);
      }
    }

    /** `wcn36xx_tx`. */
    method Tx(ch: DxeCh, skb: Skb, len: nat, ghost c: ChanId, ghost d: Driver) returns (ghost m': TC.Channel)
      requires WfDriver(d) && Flags(d) && ch.Built() && ch.Shows(Get(d, c))
      modifies this, mac
      modifies ch`headBlkCtl, ch.ring`skb, ch.descs`ctrl, ch.descs`xfer
      ensures Flags(TxSkb(d, c, skb))
      ensures ch.Shows(m') && m' == Get(TxSkb(d, c, skb), c)
    {
      var ret;
      ret, m' := StartTx(ch, skb, len, c, d);
      if ret != Ok {
        mac.FreeTxskb(skb);
      }
    }

    /** `wcn36xx_dxe_tx_ack_ind`. */
    method TxAckInd(status: nat, ghost d: Driver)
      requires WfDriver(d) && Flags(d)
      modifies this, mac
      ensures Flags(TxDriver.TxAckInd(d))
      ensures mac.acked == old(mac.acked) + if status == 1 then AckOwned(old(txAckSkb)) else multiset{}
      ensures mac.released == old(mac.released) + AckOwned(old(txAckSkb)) && txAckSkb == None
      ensures mac.stopped == (old(mac.stopped) && old(txAckSkb) == None)
    {
      var skb := txAckSkb;
      txAckSkb := None;
      if skb.Some? {
        mac.TxStatus(skb.value, status == 1);
        mac.WakeQueues();
      }
    }

    /** The objects show the state `d`, with `ch` as its channel `c`. */
    ghost predicate Shown(ch: DxeCh, c: ChanId, d: Driver)
      reads this, mac, ch, ch.ring, ch.descs
    {
      WfDriver(d) && Flags(d) && ch.Built() && ch.Shows(Get(d, c))
    }

    /** The loop is at the control block `ctl`. */
    ghost predicate At(ch: DxeCh, ctl: DxeCtl, c: ChanId, d: Driver)
      reads this, mac, ch, ch.ring, ch.descs
    {
      Shown(ch, c, d) && Get(d, c).walk.On? && ctl == ch.ring[Get(d, c).walk.cur]
    }

    /** One thing that can happen while the reap is under way: a completion, an acknowledgement, or
        the transmission of the next frame that mac80211 hands over. */
    method Interrupt(ch: DxeCh, frames: seq<Skb>, ghost c: ChanId, ghost d: Driver)
        returns (rest: seq<Skb>, ghost e: Event)
      requires Shown(ch, c, d)
      modifies this, mac, ch`headBlkCtl, ch`hwPos, ch.ring`skb, ch.descs`ctrl, ch.descs`xfer
      ensures Shown(ch, c, Step(d, e)) && Between(e, c)
      ensures if e.Transmit? then frames == [e.skb] + rest else rest == frames
    {
      rest := frames;
      var which: int := *;
      if which == 0 && frames != [] {
        e := Transmit(c, frames[0]);
        HandOver(ch, frames[0], c, d);
        rest := frames[1..];
      } else if which == 1 {
        e := AckInd;
        Acknowledge(ch, c, d);
      } else {
        e := Complete(c);
        EngineStep(ch, c, d);
      }
    }

    method HandOver(ch: DxeCh, skb: Skb, ghost c: ChanId, ghost d: Driver)
      requires Shown(ch, c, d)
      modifies this, mac, ch`headBlkCtl, ch.ring`skb, ch.descs`ctrl, ch.descs`xfer
      ensures Shown(ch, c, Step(d, Transmit(c, skb)))
    {
      var len: nat := *;
      ghost var m := Tx(ch, skb, len, c, d);
    }

    method Acknowledge(ch: DxeCh, ghost c: ChanId, ghost d: Driver)
      requires Shown(ch, c, d)
      modifies this, mac
      ensures Shown(ch, c, Step(d, AckInd))
    {
      var status: nat := *;
      TxAckInd(status, d);
      AckShown(ch, c, d);
    }

    method EngineStep(ch: DxeCh, ghost c: ChanId, ghost d: Driver)
      requires Shown(ch, c, d)
      modifies ch`hwPos, ch.descs`ctrl
      ensures Shown(ch, c, Step(d, Complete(c)))
    {
      ghost var m := ch.DmaStep(Get(d, c));
      CompleteShown(ch, c, d);
    }

    lemma AckShown(ch: DxeCh, c: ChanId, d: Driver)
      requires WfDriver(d) && Flags(TxDriver.TxAckInd(d)) && ch.Built() && ch.Shows(Get(d, c))
      ensures Shown(ch, c, Step(d, AckInd))
    {
    }

    lemma CompleteShown(ch: DxeCh, c: ChanId, d: Driver)
      requires WfDriver(d) && Flags(d) && ch.Built() && ch.Shows(TC.DmaStep(Get(d, c)))
      ensures Shown(ch, c, Step(d, Complete(c)))
    {
    }

    /** Any number of such things. */
    method Others(ch: DxeCh, frames: seq<Skb>, ghost c: ChanId, ghost d: Driver)
        returns (rest: seq<Skb>, ghost d': Driver, ghost es: seq<Event>)
      requires Shown(ch, c, d)
      modifies this, mac, ch`headBlkCtl, ch`hwPos, ch.ring`skb, ch.descs`ctrl, ch.descs`xfer
      ensures Shown(ch, c, d') && Went(d, c, frames, es, d', rest, 0) && SameWalk(Get(d, c), Get(d', c))
    {
      rest, d', es := frames, d, [];
      WentNowhere(d, c, frames);
      var n: int := *;
      var k := 0;
      while k < n
        invariant Shown(ch, c, d') && Went(d, c, frames, es, d', rest, 0) && SameWalk(Get(d, c), Get(d', c))
      {
        ghost var before, e := rest, AckInd;
        rest, e := Interrupt(ch, rest, c, d');
        BetweenSteps(d', c, before, e, rest);
        WentFurther(d, c, frames, es, d', before, 0, [e], Step(d', e), rest, 0);
        d', es := Step(d', e), es + [e];
        k := k + 1;
      }
    }

    /** `reap_tx_dxes`, with completions, acknowledgements and the transmission of `frames` between any
        two of its steps. However they come, the loop body runs to its end at most once for each
        slot and twice more for each frame that is transmitted, also when the ring is empty and the
        loop goes all the way round. */
    method ReapTxDxes(ch: DxeCh, frames: seq<Skb>, ghost c: ChanId, ghost d: Driver)
        returns (passed: nat, rest: seq<Skb>, ghost d': Driver, ghost es: seq<Event>)
      requires SoundDriver(d) && Shown(ch, c, d) && d.low.walk == TC.Off && d.high.walk == TC.Off
      modifies this, mac, ch`headBlkCtl, ch`tailBlkCtl, ch`hwPos, ch.ring`skb, ch.descs`ctrl, ch.descs`xfer
      ensures Shown(ch, c, d') && Went(Step(d, BeginReap(c)), c, frames, es, d', rest, passed)
      ensures d'.low.walk == TC.Off && d'.high.walk == TC.Off
      ensures passed <= |Get(d, c).ring.slots| + 2 * (|frames| - |rest|)
      ensures Kept(d, [BeginReap(c)] + es, d')
    {
      BeginShown(ch, c, d);
      ghost var s := Step(d, BeginReap(c));
      var ctl;
      passed, ctl, rest, d', es := ReapLoop(ch, ch.tailBlkCtl, frames, c, s);
      ghost var last := d';
      EndReap(ch, ctl, c, last);
      d', es := ReapEnds(d, c, frames, es, last, rest, passed);
    }

    /** The do-while loop: from the tail on, until the head or a VALID slot is reached. */
    method ReapLoop(ch: DxeCh, tail: DxeCtl, frames: seq<Skb>, ghost c: ChanId, ghost d: Driver)
        returns (passed: nat, ctl: DxeCtl, rest: seq<Skb>, ghost d': Driver, ghost es: seq<Event>)
      requires SoundDriver(d) && At(ch, tail, c, d) && AtBody(Get(d, c))
      modifies this, mac, ch`headBlkCtl, ch`hwPos, ch.ring`skb, ch.descs`ctrl, ch.descs`xfer
      ensures At(ch, ctl, c, d') && Went(d, c, frames, es, d', rest, passed) && TC.Stopping(Get(d', c))
    {
      ghost var bound := Ahead(Get(d, c)) + 2 * |frames|;
      var again := true;
      passed, ctl, rest, d', es := 0, tail, frames, d, [];
      WentNowhere(d, c, frames);
      while again
        invariant At(ch, ctl, c, d') && Went(d, c, frames, es, d', rest, passed)
        invariant if again then AtBody(Get(d', c)) else TC.Stopping(Get(d', c))
        invariant passed <= bound
        decreases bound - passed, again
      {
        var stepped;
        again, stepped, ctl, rest, d', es := IterateAgain(ch, ctl, rest, c, d', d, frames, es, passed);
        if stepped {
          passed := passed + 1;
        }
      }
    }

    /** One more iteration, counted from the beginning of the loop. */
    method IterateAgain(ch: DxeCh, ctl: DxeCtl, frames: seq<Skb>, ghost c: ChanId, ghost d: Driver,
                        ghost start: Driver, ghost given: seq<Skb>, ghost before: seq<Event>, ghost passed: nat)
        returns (again: bool, stepped: bool, next: DxeCtl, rest: seq<Skb>, ghost d': Driver, ghost es: seq<Event>)
      requires At(ch, ctl, c, d) && AtBody(Get(d, c))
      requires SoundDriver(start) && Went(start, c, given, before, d, frames, passed)
      modifies this, mac, ch`headBlkCtl, ch`hwPos, ch.ring`skb, ch.descs`ctrl, ch.descs`xfer
      ensures At(ch, next, c, d')
      ensures if again then stepped && AtBody(Get(d', c)) else TC.Stopping(Get(d', c))
      ensures Went(start, c, given, es, d', rest, passed + if stepped then 1 else 0)
      ensures passed + (if stepped then 1 else 0) <= Ahead(Get(start, c)) + 2 * (|given| - |rest|)
    {
      again, stepped, next, rest, d', es := Iterate(ch, ctl, frames, c, d);
      LoopFurther(start, c, given, before, d, frames, passed, es, d', rest, if stepped then 1 else 0);
      es := before + es;
    }

    /** One iteration of the do-while loop, with its condition. */
    method Iterate(ch: DxeCh, ctl: DxeCtl, frames: seq<Skb>, ghost c: ChanId, ghost d: Driver)
        returns (again: bool, stepped: bool, next: DxeCtl, rest: seq<Skb>, ghost d': Driver, ghost es: seq<Event>)
      requires At(ch, ctl, c, d) && AtBody(Get(d, c))
      modifies this, mac, ch`headBlkCtl, ch`hwPos, ch.ring`skb, ch.descs`ctrl, ch.descs`xfer
      ensures At(ch, next, c, d') && Went(d, c, frames, es, d', rest, if stepped then 1 else 0)
      ensures if again then stepped && AtBody(Get(d', c)) else TC.Stopping(Get(d', c))
    {
      rest, d', es := Others(ch, frames, c, d);
      var valid, skb := ch.LookAt(ctl, Get(d', c).walk.cur, Get(d', c));
      if valid {
        again, stepped, next := false, false, ctl;
      } else {
        ghost var was, before, es2 := d', rest, [];
        again, next, rest, d', es2 := PassSlot(ch, ctl, skb, rest, c, d');
        WentFurther(d, c, frames, es, was, before, 0, es2, d', rest, 1);
        es, stepped := es + es2, true;
      }
    }

    /** The loop body on a completed slot, and the loop condition. */
    method PassSlot(ch: DxeCh, ctl: DxeCtl, skb: Option<Skb>, frames: seq<Skb>, ghost c: ChanId, ghost d: Driver)
        returns (again: bool, next: DxeCtl, rest: seq<Skb>, ghost d': Driver, ghost es: seq<Event>)
      requires At(ch, ctl, c, d) && AtBody(Get(d, c))
      requires !Get(d, c).ring.slots[Get(d, c).walk.cur].valid && TC.Found(Get(d, c)) == skb
      modifies this, mac, ch`headBlkCtl, ch`hwPos, ch.ring`skb, ch.descs`ctrl, ch.descs`xfer
      ensures At(ch, next, c, d') && Went(d, c, frames, es, d', rest, 1)
      ensures if again then AtBody(Get(d', c)) else TC.Stopping(Get(d', c))
    {
      next, rest, d', es := DealWithSlot(ch, ctl, skb, frames, c, d);
      again, rest, d', es := LoopCondition(ch, next, rest, c, d', d, frames, es);
    }

    method DealWithSlot(ch: DxeCh, ctl: DxeCtl, skb: Option<Skb>, frames: seq<Skb>, ghost c: ChanId, ghost d: Driver)
        returns (next: DxeCtl, rest: seq<Skb>, ghost d': Driver, ghost es: seq<Event>)
      requires At(ch, ctl, c, d) && AtBody(Get(d, c))
      requires !Get(d, c).ring.slots[Get(d, c).walk.cur].valid && TC.Found(Get(d, c)) == skb
      modifies this, mac, ch`headBlkCtl, ch`hwPos, ch.ring`skb, ch.descs`ctrl, ch.descs`xfer
      ensures At(ch, next, c, d') && Went(d, c, frames, es, d', rest, 1) && AtCheck(Get(d', c))
    {
      if skb.Some? {
        next, rest, d', es := ServeSlot(ch, ctl, skb.value, frames, c, d);
      } else {
        next := ch.NextCtl(ctl, Get(d, c).walk.cur);
        rest, d', es := frames, Step(d, ReapStep(c)), [ReapStep(c)];
        PassesHere(d, c, frames);
        QuietShown(ch, c, d, d');
      }
    }

    /** The skb is dealt with, and then, the lock being given back, the pointer to it is dropped. */
    method ServeSlot(ch: DxeCh, ctl: DxeCtl, skb: Skb, frames: seq<Skb>, ghost c: ChanId, ghost d: Driver)
        returns (next: DxeCtl, rest: seq<Skb>, ghost d': Driver, ghost es: seq<Event>)
      requires At(ch, ctl, c, d) && TC.Found(Get(d, c)) == Some(skb)
      modifies this, mac, ch`headBlkCtl, ch`hwPos, ch.ring`skb, ch.descs`ctrl, ch.descs`xfer
      ensures At(ch, next, c, d') && Went(d, c, frames, es, d', rest, 1) && AtCheck(Get(d', c))
    {
      Release(skb, c, d);
      ghost var d1 := Step(d, ReapStep(c));
      FindsHere(d, c, frames);
      ch.ShowsRing(Get(d, c), Get(d1, c));
      next, rest, d', es := FinishSlot(ch, ctl, frames, c, d1);
      WentFurther(d, c, frames, [ReapStep(c)], d1, frames, 0, es, d', rest, 1);
      es := [ReapStep(c)] + es;
    }

    /** The skb is freed unless its status is to come, and the queues are woken. */
    method Release(skb: Skb, ghost c: ChanId, ghost d: Driver)
      requires WfDriver(d) && Flags(d) && TC.Found(Get(d, c)) == Some(skb)
      modifies `queuesStopped, mac
      ensures Flags(Step(d, ReapStep(c)))
      ensures !queuesStopped && mac.stopped == (old(mac.stopped) && !old(queuesStopped))
      ensures mac.released == old(mac.released) + (if skb.wantsStatus then multiset{} else multiset{skb})
    {
      if !skb.wantsStatus {
        mac.FreeTxskb(skb);
      }
      if queuesStopped {
        queuesStopped := false;
        mac.WakeQueues();
      }
    }

    method FinishSlot(ch: DxeCh, ctl: DxeCtl, frames: seq<Skb>, ghost c: ChanId, ghost d: Driver)
        returns (next: DxeCtl, rest: seq<Skb>, ghost d': Driver, ghost es: seq<Event>)
      requires At(ch, ctl, c, d) && TC.InClear(Get(d, c))
      modifies this, mac, ch`headBlkCtl, ch`hwPos, ch.ring`skb, ch.descs`ctrl, ch.descs`xfer
      ensures At(ch, next, c, d') && Went(d, c, frames, es, d', rest, 1) && AtCheck(Get(d', c))
    {
      rest, d', es := Others(ch, frames, c, d);
      ghost var was := d';
      next := ClearSlot(ch, ctl, c, was);
      d' := Step(was, ReapStep(c));
      PassesHere(was, c, rest);
      WentFurther(d, c, frames, es, was, rest, 0, [ReapStep(c)], d', rest, 1);
      es := es + [ReapStep(c)];
    }

    /** `ctl->skb = NULL; ctl = ctl->next`. */
    method ClearSlot(ch: DxeCh, ctl: DxeCtl, ghost c: ChanId, ghost d: Driver) returns (next: DxeCtl)
      requires At(ch, ctl, c, d) && TC.InClear(Get(d, c))
      modifies ch.ring`skb
      ensures Shown(ch, c, Step(d, ReapStep(c))) && next == ch.ring[Next(Get(d, c).walk.cur, ch.descNum)]
    {
      ghost var m := Get(d, c);
      ch.DropSkb(ctl, m.walk.cur, m);
      next := ch.NextCtl(ctl, m.walk.cur);
      ClearShown(ch, c, d);
    }

    lemma ClearShown(ch: DxeCh, c: ChanId, d: Driver)
      requires WfDriver(d) && Flags(d) && ch.Built() && TC.InClear(Get(d, c))
      requires ch.Shows(Get(d, c).(ring := RingClear(Get(d, c).ring, Get(d, c).walk.cur)))
      ensures Shown(ch, c, Step(d, ReapStep(c)))
    {
      var m := Get(d, c);
      PassesHere(d, c, []);
      ch.ShowsRing(m.(ring := RingClear(m.ring, m.walk.cur)), Get(Step(d, ReapStep(c)), c));
    }

    /** The loop condition; the iteration began in state `start`. */
    method LoopCondition(ch: DxeCh, ctl: DxeCtl, frames: seq<Skb>, ghost c: ChanId, ghost d: Driver,
                         ghost start: Driver, ghost given: seq<Skb>, ghost before: seq<Event>)
        returns (again: bool, rest: seq<Skb>, ghost d': Driver, ghost es: seq<Event>)
      requires At(ch, ctl, c, d) && AtCheck(Get(d, c)) && Went(start, c, given, before, d, frames, 1)
      modifies this, mac, ch`headBlkCtl, ch`hwPos, ch.ring`skb, ch.descs`ctrl, ch.descs`xfer
      ensures At(ch, ctl, c, d') && Went(start, c, given, es, d', rest, 1)
      ensures if again then AtBody(Get(d', c)) else TC.Stopping(Get(d', c))
    {
      rest, d', es := OthersAfter(ch, ctl, frames, c, d, start, given, before);
      again := ch.GoesOn(ctl, Get(d', c).walk.cur, Get(d', c));
      if again {
        d', es := GoOn(ch, ctl, c, start, given, es, d', rest);
      }
    }

    method OthersAfter(ch: DxeCh, ghost ctl: DxeCtl, frames: seq<Skb>, ghost c: ChanId, ghost d: Driver,
                       ghost start: Driver, ghost given: seq<Skb>, ghost before: seq<Event>)
        returns (rest: seq<Skb>, ghost d': Driver, ghost es: seq<Event>)
      requires At(ch, ctl, c, d) && AtCheck(Get(d, c)) && Went(start, c, given, before, d, frames, 1)
      modifies this, mac, ch`headBlkCtl, ch`hwPos, ch.ring`skb, ch.descs`ctrl, ch.descs`xfer
      ensures At(ch, ctl, c, d') && AtCheck(Get(d', c)) && Went(start, c, given, es, d', rest, 1)
    {
      rest, d', es := Others(ch, frames, c, d);
      WentFurther(start, c, given, before, d, frames, 1, es, d', rest, 0);
      es := before + es;
    }

    lemma GoOn(ch: DxeCh, ctl: DxeCtl, c: ChanId, d: Driver, frames: seq<Skb>, es: seq<Event>, was: Driver, rest: seq<Skb>)
        returns (d': Driver, all: seq<Event>)
      requires At(ch, ctl, c, was) && AtCheck(Get(was, c)) && !TC.Stopping(Get(was, c))
      requires Went(d, c, frames, es, was, rest, 1)
      ensures At(ch, ctl, c, d') && AtBody(Get(d', c)) && Went(d, c, frames, all, d', rest, 1)
    {
      d', all := Step(was, ReapStep(c)), es + [ReapStep(c)];
      ReapRuns.GoesOn(was, c, rest);
      QuietShown(ch, c, was, d');
      WentFurther(d, c, frames, es, was, rest, 1, [ReapStep(c)], d', rest, 0);
    }

    /** `ch->tail_blk_ctl = ctl`, at the end. */
    method EndReap(ch: DxeCh, ctl: DxeCtl, ghost c: ChanId, ghost d: Driver)
      requires At(ch, ctl, c, d) && TC.Stopping(Get(d, c))
      modifies ch`tailBlkCtl
      ensures Shown(ch, c, Step(d, ReapStep(c)))
    {
      ch.SetTail(ctl, Get(d, c).walk.cur, Get(d, c));
      StopShown(ch, c, d);
    }

    lemma StopShown(ch: DxeCh, c: ChanId, d: Driver)
      requires WfDriver(d) && Flags(d) && ch.Built() && TC.Stopping(Get(d, c)) && ch.Shows(TC.Stop(Get(d, c)))
      ensures Shown(ch, c, Step(d, ReapStep(c)))
    {
      StopsHere(d, c, []);
      ch.ShowsRing(TC.Stop(Get(d, c)), Get(Step(d, ReapStep(c)), c));
    }

    /** A step that changes neither the ring nor the flags. */
    lemma QuietShown(ch: DxeCh, c: ChanId, d: Driver, d': Driver)
      requires Shown(ch, c, d) && WfDriver(d') && d' == Put(d, c, Get(d', c)) && Get(d', c).ring == Get(d, c).ring
      ensures Shown(ch, c, d')
    {
      ch.ShowsRing(Get(d, c), Get(d', c));
    }

    lemma BeginShows(ch: DxeCh, c: ChanId, d: Driver)
      requires WfDriver(d) && Shown(ch, c, d)
      ensures WfDriver(Put(d, c, TC.Begin(Get(d, c)))) && Shown(ch, c, Put(d, c, TC.Begin(Get(d, c))))
    {
      QuietShown(ch, c, d, Put(d, c, TC.Begin(Get(d, c))));
    }

    lemma BeginShown(ch: DxeCh, c: ChanId, d: Driver)
      requires SoundDriver(d) && Shown(ch, c, d) && d.low.walk == TC.Off && d.high.walk == TC.Off
      ensures var d' := Step(d, BeginReap(c));
              && SoundDriver(d') && Shown(ch, c, d') && AtBody(Get(d', c))
              && Get(d', c).walk.cur == Get(d, c).ring.tail
    {
      StepKeepsSound(d, BeginReap(c));
      BeginStep(d, c);
      BeginShows(ch, c, d);
    }
  }
}
