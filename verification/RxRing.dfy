/** One receive channel of the DMA transfer engine (dxe.c), as values.

    Every slot owns a buffer. VALID means armed: the engine may write into the buffer. The engine
    fills the buffers in ring order and clears VALID; the driver passes each filled buffer up,
    puts a fresh one in its place and arms the slot again.
 */
module RxRing {
  import opened Circle

  /** The VALID bit, the buffer in `ctl->skb`, and the buffer that `dst_addr_l` is mapped to. */
  datatype RxSlot = RxSlot(valid: bool, skb: nat, dst: nat)

  /** `head` is where the driver looks next. Buffers are numbered in the order of allocation and
      `nextBuf` is the next number. The last two fields are history: the buffers that the engine has
      filled, and those passed to mac80211, in order. */
  datatype Rx = Rx(slots: seq<RxSlot>, head: nat, hw: nat, nextBuf: nat, filled: seq<nat>, delivered: seq<nat>)

  datatype RxEvent = Fill | Handle(gotBuf: bool)

  predicate WfRx(x: Rx) {
    x.head < |x.slots| && x.hw < |x.slots|
  }

  /** The engine receives a frame, if its current descriptor is armed. */
  function FillOne(x: Rx): (x': Rx)
    requires WfRx(x)
    ensures WfRx(x') && |x'.slots| == |x.slots|
  {
    var s := x.slots[x.hw];
    if s.valid then
      x.(slots := x.slots[x.hw := s.(valid := false)], hw := Next(x.hw, |x.slots|), filled := x.filled + [s.dst])
    else x
  }

  /** One iteration of `wcn36xx_rx_handle_packets`. The result of the allocation is not looked at:
      if it fails, the slot keeps its buffer, is armed, and the buffer is passed up as well. */
  function HandleOne(x: Rx, gotBuf: bool): (x': Rx)
    requires WfRx(x)
    ensures WfRx(x') && |x'.slots| == |x.slots|
  {
    var s := x.slots[x.head];
    if s.valid then x
    else
      var s' := if gotBuf then RxSlot(true, x.nextBuf, x.nextBuf) else s.(valid := true);
      x.(slots := x.slots[x.head := s'], head := Next(x.head, |x.slots|),
         nextBuf := if gotBuf then x.nextBuf + 1 else x.nextBuf,
         delivered := x.delivered + [s.skb])
  }

  function RxStep(x: Rx, e: RxEvent): (x': Rx)
    requires WfRx(x)
    ensures WfRx(x')
  {
    match e
    case Fill => FillOne(x)
    case Handle(gotBuf) => HandleOne(x, gotBuf)
  }

  function RxRun(x: Rx, es: seq<RxEvent>): (x': Rx)
    requires WfRx(x)
    ensures WfRx(x')
    decreases |es|
  {
    if es == [] then x else RxRun(RxStep(x, es[0]), es[1..])
  }

  lemma {:induction false} RxRunConcat(x: Rx, es: seq<RxEvent>, fs: seq<RxEvent>)
    requires WfRx(x)
    ensures RxRun(x, es + fs) == RxRun(RxRun(x, es), fs)
    decreases |es|
  {
    if es == [] {
      assert es + fs == fs;
    } else {
      assert (es + fs)[1..] == es[1..] + fs;
      RxRunConcat(RxStep(x, es[0]), es[1..], fs);
    }
  }

  lemma RxRunFirst(x: Rx, e: RxEvent, es: seq<RxEvent>)
    requires WfRx(x)
    ensures RxRun(x, [e] + es) == RxRun(RxStep(x, e), es)
  {
    assert ([e] + es)[1..] == es;
  }

  lemma RxRunSnoc(x: Rx, es: seq<RxEvent>, e: RxEvent)
    requires WfRx(x)
    ensures RxRun(x, es + [e]) == RxStep(RxRun(x, es), e)
  {
    RxRunConcat(x, es, [e]);
    RxRunFirst(RxRun(x, es), e, []);
    assert [e] + [] == [e];
  }

  /** While the engine only receives, nothing is passed up. */
  lemma {:induction false} FillsOnly(x: Rx, es: seq<RxEvent>)
    requires WfRx(x) && forall i :: 0 <= i < |es| ==> es[i] == Fill
    ensures RxRun(x, es).delivered == x.delivered
    decreases |es|
  {
    if es != [] {
      FillsOnly(RxStep(x, es[0]), es[1..]);
    }
  }

  /* ---- How long handling can take ---- */

  /** Seen from the driver, `done` slots are filled and wait, the others are armed. */
  ghost predicate Waiting(x: Rx, done: nat) {
    && WfRx(x) && done <= |x.slots| && x.hw == Rot(x.head, done, |x.slots|)
    && forall k :: 0 <= k < |x.slots| ==> (View(x.slots, x.head)[k].valid <==> done <= k)
  }

  /** A frame received makes one more slot wait, a frame passed up one fewer, whether its buffer could
      be replaced or not. */
  lemma StepWaits(x: Rx, e: RxEvent, done: nat) returns (done': nat)
    requires Waiting(x, done)
    ensures var y := RxStep(x, e);
            && Waiting(y, done') && |y.delivered| >= |x.delivered| && |y.filled| >= |x.filled|
            && done' + (|y.delivered| - |x.delivered|) == done + (|y.filled| - |x.filled|)
  {
    var n, v := |x.slots|, View(x.slots, x.head);
    match e
    case Fill =>
      ViewAt(x.slots, x.head, if done < n then done else 0);
      done' := if done < n then done + 1 else done;
      if done < n {
        ViewUpdate(x.slots, x.head, done, x.slots[x.hw].(valid := false));
      }
    case Handle(gotBuf) =>
      ViewAt(x.slots, x.head, 0);
      done' := if done == 0 then 0 else done - 1;
      if done != 0 {
        var y := HandleOne(x, gotBuf);
        ViewUpdate(x.slots, x.head, 0, y.slots[x.head]);
        ViewNext(y.slots, x.head);
        forall k | 0 <= k < n ensures View(y.slots, y.head)[k].valid <==> done' <= k {
          assert View(y.slots, y.head)[k] == if k + 1 < n then v[k + 1] else y.slots[x.head];
        }
      }
  }

  lemma {:induction false} RunWaits(x: Rx, es: seq<RxEvent>, done: nat) returns (done': nat)
    requires Waiting(x, done)
    ensures var y := RxRun(x, es);
            && Waiting(y, done') && |y.delivered| >= |x.delivered| && |y.filled| >= |x.filled|
            && done' + (|y.delivered| - |x.delivered|) == done + (|y.filled| - |x.filled|)
    decreases |es|
  {
    done' := done;
    if es != [] {
      done' := StepWaits(x, es[0], done);
      done' := RunWaits(RxStep(x, es[0]), es[1..], done');
    }
  }

  /** In every run, with or without failing allocations, as many frames are passed up as were waiting
      and are received meanwhile, at most. */
  lemma {:induction false} HandledAtMost(x: Rx, es: seq<RxEvent>, done: nat)
    requires Waiting(x, done)
    ensures var y := RxRun(x, es);
            && |x.delivered| <= |y.delivered| && |x.filled| <= |y.filled|
            && |y.delivered| - |x.delivered| <= done + (|y.filled| - |x.filled|)
            && (y.slots[y.head].valid ==> |y.delivered| - |x.delivered| == done + (|y.filled| - |x.filled|))
  {
    var done' := RunWaits(x, es, done);
    var y := RxRun(x, es);
    ViewAt(y.slots, y.head, 0);
  }

  /** What the driver's loop has done when the engine may receive `left` more of `budget` frames. */
  ghost predicate Handled(x: Rx, waiting: nat, budget: nat, es: seq<RxEvent>, y: Rx, handled: nat, left: nat) {
    && WfRx(x) && y == RxRun(x, es) && |y.delivered| == |x.delivered| + handled
    && |y.filled| + left <= |x.filled| + budget && handled <= waiting + budget
  }

  lemma HandledFurther(x: Rx, waiting: nat, budget: nat, es: seq<RxEvent>, y: Rx, handled: nat,
                       fs: seq<RxEvent>, z: Rx, left: nat) returns (all: seq<RxEvent>, last: Rx)
    requires Waiting(x, waiting) && WfRx(x) && y == RxRun(x, es) && |y.delivered| == |x.delivered| + handled
    requires WfRx(y) && z == RxRun(y, fs) && |z.delivered| == |y.delivered| + 1
    requires |z.filled| + left <= |x.filled| + budget
    ensures all == es + fs && last == z && Handled(x, waiting, budget, all, z, handled + 1, left)
  {
    all, last := es + fs, z;
    RxRunConcat(x, es, fs);
    HandledAtMost(x, all, waiting);
  }

  lemma HandledAll(x: Rx, waiting: nat, budget: nat, es: seq<RxEvent>, y: Rx, handled: nat, left: nat)
    requires Waiting(x, waiting) && Handled(x, waiting, budget, es, y, handled, left)
    requires WfRx(y) && y.slots[y.head].valid
    ensures handled == waiting + (|y.filled| - |x.filled|) <= |x.slots| + budget
  {
    HandledAtMost(x, es, waiting);
  }

  lemma BootWaits(x: Rx)
    requires RxBoot(x)
    ensures Waiting(x, 0)
  {
    assert View(x.slots, 0) == x.slots;
  }

  /** After initialisation: every slot armed with its own buffer, in the order of allocation. */
  ghost predicate RxBoot(x: Rx) {
    && WfRx(x) && x.head == 0 && x.hw == 0 && x.filled == [] && x.delivered == []
    && x.nextBuf == |x.slots|
    && forall i :: 0 <= i < |x.slots| ==> x.slots[i] == RxSlot(true, i, i)
  }

  /* ---- Invariant ---- */

  ghost function Bufs(v: seq<RxSlot>): (r: seq<nat>)
    ensures |r| == |v| && forall k :: 0 <= k < |v| ==> r[k] == v[k].dst
  {
    seq(|v|, k requires 0 <= k < |v| => v[k].dst)
  }

  ghost predicate Distinct(s: seq<nat>) {
    forall i, j :: 0 <= i < j < |s| ==> s[i] != s[j]
  }

  /** Seen from the driver, `done` slots are filled and wait, the others are armed. Every buffer
      ever passed up or still in the ring is a different one. */
  ghost predicate RxShape(x: Rx, done: nat) {
    && Waiting(x, done)
    && var v := View(x.slots, x.head);
    && (forall k :: 0 <= k < |v| ==> v[k].skb == v[k].dst && v[k].dst < x.nextBuf)
    && (forall k :: 0 <= k < |x.delivered| ==> x.delivered[k] < x.nextBuf)
    && Distinct(x.delivered + Bufs(v))
    && x.filled == x.delivered + Bufs(v[..done])
  }

  ghost predicate RxInv(x: Rx) {
    exists done: nat :: RxShape(x, done)
  }

  lemma FillKeepsShape(x: Rx, done: nat)
    requires RxShape(x, done)
    ensures RxShape(FillOne(x), if done < |x.slots| then done + 1 else done)
  {
    var n, v, x' := |x.slots|, View(x.slots, x.head), FillOne(x);
    ViewAt(x.slots, x.head, if done < n then done else 0);
    if done < n {
      var s' := x.slots[x.hw].(valid := false);
      ViewUpdate(x.slots, x.head, done, s');
      var v' := View(x'.slots, x.head);
      assert v' == v[done := s'];
      assert Bufs(v') == Bufs(v);
      assert Bufs(v'[..done + 1]) == Bufs(v[..done]) + [v[done].dst];
    }
  }

  lemma HandleKeepsShape(x: Rx, done: nat)
    requires RxShape(x, done) && 0 < done
    ensures !x.slots[x.head].valid
    ensures RxShape(HandleOne(x, true), done - 1)
  {
    var n, v, x' := |x.slots|, View(x.slots, x.head), HandleOne(x, true);
    var s' := RxSlot(true, x.nextBuf, x.nextBuf);
    ViewAt(x.slots, x.head, 0);
    ViewUpdate(x.slots, x.head, 0, s');
    ViewNext(x'.slots, x.head);
    var v' := View(x'.slots, x'.head);
    assert v' == v[1..] + [s'];
    SlotsShift(x, x', v, v', s', done);
    BufsShift(v, v', s', done);
    DistinctShift(x.delivered, v[0].dst, Bufs(v), Bufs(v'), x.nextBuf);
    assert x.delivered + [v[0].dst] + Bufs(v'[..done - 1]) == x.delivered + Bufs(v[..done]);
  }

  lemma DistinctShift(delivered: seq<nat>, b: nat, bufs: seq<nat>, bufs': seq<nat>, nextBuf: nat)
    requires Distinct(delivered + bufs) && [b] + bufs' == bufs + [nextBuf]
    requires forall k :: 0 <= k < |delivered| ==> delivered[k] < nextBuf
    requires forall k :: 0 <= k < |bufs| ==> bufs[k] < nextBuf
    ensures Distinct(delivered + [b] + bufs')
  {
    assert delivered + [b] + bufs' == delivered + ([b] + bufs');
    assert delivered + (bufs + [nextBuf]) == (delivered + bufs) + [nextBuf];
    forall k | 0 <= k < |delivered + bufs| ensures (delivered + bufs)[k] < nextBuf {}
  }

  lemma BufsShift(v: seq<RxSlot>, v': seq<RxSlot>, s': RxSlot, done: nat)
    requires 0 < done <= |v| && v' == v[1..] + [s']
    ensures [v[0].dst] + Bufs(v') == Bufs(v) + [s'.dst]
    ensures Bufs(v[..done]) == [v[0].dst] + Bufs(v'[..done - 1])
  {
  }

  lemma SlotsShift(x: Rx, x': Rx, v: seq<RxSlot>, v': seq<RxSlot>, s': RxSlot, done: nat)
    requires RxShape(x, done) && 0 < done && v == View(x.slots, x.head)
    requires v' == v[1..] + [s'] && s' == RxSlot(true, x.nextBuf, x.nextBuf)
    ensures forall k :: 0 <= k < |v'| ==>
              (v'[k].valid <==> done - 1 <= k) && v'[k].skb == v'[k].dst && v'[k].dst < x.nextBuf + 1
  {
    forall k | 0 <= k < |v'| ensures v'[k] == if k + 1 < |v| then v[k + 1] else s' {}
  }

  lemma HandleNothing(x: Rx, done: nat)
    requires RxShape(x, done) && done == 0
    ensures x.slots[x.head].valid
  {
    ViewAt(x.slots, x.head, 0);
  }

  /* ---- Runs ---- */

  /** Every buffer passed up is replaced: no allocation fails when a filled slot is handled. */
  predicate AlwaysRefilled(x: Rx, es: seq<RxEvent>)
    requires WfRx(x)
    decreases |es|
  {
    es == [] ||
    ((es[0] == Handle(false) ==> x.slots[x.head].valid) && AlwaysRefilled(RxStep(x, es[0]), es[1..]))
  }

  lemma RxStepKeepsInv(x: Rx, e: RxEvent)
    requires RxInv(x)
    requires e == Handle(false) ==> x.slots[x.head].valid
    ensures RxInv(RxStep(x, e))
  {
    var done: nat :| RxShape(x, done);
    if e == Fill {
      FillKeepsShape(x, done);
    } else if done == 0 {
      HandleNothing(x, done);
    } else {
      HandleKeepsShape(x, done);
    }
  }

  lemma {:induction false} RxRunKeepsInv(x: Rx, es: seq<RxEvent>)
    requires RxInv(x) && AlwaysRefilled(x, es)
    ensures RxInv(RxRun(x, es))
    decreases |es|
  {
    if es != [] {
      RxStepKeepsInv(x, es[0]);
      RxRunKeepsInv(RxStep(x, es[0]), es[1..]);
    }
  }

  lemma RxBootInv(x: Rx)
    requires RxBoot(x)
    ensures RxInv(x)
  {
    assert View(x.slots, 0) == x.slots;
    assert RxShape(x, 0);
  }

  /** No buffer that mac80211 has been given is armed for the engine to write into. */
  ghost predicate NoneShared(x: Rx) {
    forall k, i :: 0 <= k < |x.delivered| && 0 <= i < |x.slots| && x.slots[i].valid ==>
                     x.delivered[k] != x.slots[i].dst
  }

  /** Frames are passed up in exactly the order in which the engine received them, each once: what
      has been received and not yet passed up sits in the slots from the head on. */
  lemma ReceivedInOrder(x: Rx, es: seq<RxEvent>) returns (done: nat)
    requires RxBoot(x) && AlwaysRefilled(x, es)
    ensures var y := RxRun(x, es);
            && done <= |y.slots|
            && y.filled == y.delivered + Bufs(View(y.slots, y.head)[..done])
            && Distinct(y.filled)
            && (y.slots[y.head].valid <==> y.filled == y.delivered)
            && NoneShared(y)
  {
    RxBootInv(x);
    RxRunKeepsInv(x, es);
    var y := RxRun(x, es);
    done :| RxShape(y, done);
    ViewAt(y.slots, y.head, 0);
    RingNotShared(y, done);
    var v := View(y.slots, y.head);
    assert y.filled == (y.delivered + Bufs(v))[..|y.filled|];
  }

  lemma RingNotShared(x: Rx, done: nat)
    requires RxShape(x, done)
    ensures NoneShared(x)
  {
    var v, n := View(x.slots, x.head), |x.slots|;
    forall k, i | 0 <= k < |x.delivered| && 0 <= i < n
      ensures x.delivered[k] != x.slots[i].dst
    {
      var g := Gap(x.head, i, n);
      ViewAt(x.slots, x.head, g);
      var all := x.delivered + Bufs(v);
      assert all[k] == x.delivered[k] && all[|x.delivered| + g] == v[g].dst;
    }
  }

  ghost predicate NeverShared(x: Rx, es: seq<RxEvent>)
    requires WfRx(x)
    decreases |es|
  {
    NoneShared(x) && (es != [] ==> NeverShared(RxStep(x, es[0]), es[1..]))
  }

  /** mac80211 and the engine never share a buffer, at any point of a run, if and only if no
      allocation fails while a filled slot is handled. */
  lemma {:induction false} SharedExactlyOnFailure(x: Rx, es: seq<RxEvent>)
    requires RxInv(x)
    ensures NeverShared(x, es) <==> AlwaysRefilled(x, es)
    decreases |es|
  {
    var done: nat :| RxShape(x, done);
    RingNotShared(x, done);
    if es != [] {
      if es[0] == Handle(false) && !x.slots[x.head].valid {
        FailureShares(x);
        assert !NoneShared(RxStep(x, es[0]));
        assert !NeverShared(RxStep(x, es[0]), es[1..]);
      } else {
        RxStepKeepsInv(x, es[0]);
        SharedExactlyOnFailure(RxStep(x, es[0]), es[1..]);
      }
    }
  }

  lemma FailureShares(x: Rx)
    requires RxInv(x) && !x.slots[x.head].valid
    ensures !NoneShared(HandleOne(x, false))
  {
    var done: nat :| RxShape(x, done);
    ViewAt(x.slots, x.head, 0);
    var y := HandleOne(x, false);
    assert y.delivered[|x.delivered|] == y.slots[x.head].dst && y.slots[x.head].valid;
  }

  /* ---- A failing allocation on a ring of two slots ---- */

  const TWO_SLOTS := Rx([RxSlot(true, 0, 0), RxSlot(true, 1, 1)], 0, 0, 2, [], [])

  /** After one frame and one failing allocation, buffer 0 belongs to mac80211 and is armed. */
  lemma BufferCanBeShared()
    ensures RxBoot(TWO_SLOTS) && !NeverShared(TWO_SLOTS, [Fill, Handle(false)])
    ensures var y := RxRun(TWO_SLOTS, [Fill, Handle(false)]); y.delivered == [0] && y.slots[0] == RxSlot(true, 0, 0)
  {
    RxBootInv(TWO_SLOTS);
    var x1 := RxStep(TWO_SLOTS, Fill);
    assert x1.slots == [RxSlot(false, 0, 0), RxSlot(true, 1, 1)];
    var x2 := RxStep(x1, Handle(false));
    assert x2.slots[0] == RxSlot(true, 0, 0);
    assert [Fill, Handle(false)][1..] == [Handle(false)] && [Handle(false)][1..] == [];
    assert RxRun(x1, [Handle(false)]) == RxRun(x2, []);
    assert !AlwaysRefilled(x1, [Handle(false)]);
    SharedExactlyOnFailure(TWO_SLOTS, [Fill, Handle(false)]);
  }
}
