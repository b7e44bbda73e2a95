/** What the transmit side guarantees over whole orderly runs: order, capacity and wake-up. */
module TxTheorems {
  import opened Common
  import opened Circle
  import opened TxRing
  import opened TxChannel
  import opened TxDriver

  lemma Reachable(d: Driver, es: seq<Event>)
    requires Boot(d) && OrderlyRun(d, es)
    ensures Inv(Run(d, es))
  {
    BootInv(d);
    RunKeepsInv(d, es);
  }

  /* ---- The ring is a bounded FIFO ---- */

  /** Frames leave a channel in exactly the order in which they were accepted, and at most half
      as many frames as slots are in it. */
  lemma {:induction false} FramesLeaveInOrder(d: Driver, es: seq<Event>, c: ChanId)
    requires Boot(d) && OrderlyRun(d, es)
    ensures var ch := Get(Run(d, es), c);
            && ch.accepted == ch.reaped + Queue(ch)
            && |Queue(ch)| <= |HeldBy(ch)| <= Capacity(ch)
  {
    Reachable(d, es);
    HeldBounds(Get(Run(d, es), c));
  }

  datatype FifoOp = Enqueue(frame: Skb) | Dequeue(front: Skb) | Stutter

  /** What an event means for the abstract queue of channel `c`. */
  ghost function Meaning(d: Driver, e: Event, c: ChanId): FifoOp
    requires WfDriver(d)
  {
    if e.Transmit? && e.ch == c && StartTx(d, c, e.skb).1 == Ok then Enqueue(e.skb)
    else if e.ReapStep? && e.ch == c then Removal(Found(Get(d, c)))
    else Stutter
  }

  ghost function Removal(found: Option<Skb>): FifoOp {
    if found.Some? then Dequeue(found.value) else Stutter
  }

  /** A FIFO of bounded capacity. */
  ghost predicate FifoStep(q: seq<Skb>, op: FifoOp, q': seq<Skb>, cap: nat) {
    match op
    case Enqueue(frame) => |q| < cap && q' == q + [frame]
    case Dequeue(front) => q == [front] + q'
    case Stutter => q' == q
  }

  /** Every step of every party is a step of a FIFO of N/2 frames, and a frame is refused exactly
      when N/2 skbs are still in the ring or it asks for a second outstanding status. */
  lemma StepRefinesFifo(d: Driver, e: Event, c: ChanId)
    requires Inv(d) && Orderly(d, e)
    ensures FifoStep(Queue(Get(d, c)), Meaning(d, e, c), Queue(Get(Step(d, e), c)), Capacity(Get(d, c)))
    ensures e.Transmit? && e.ch == c ==>
              (Meaning(d, e, c) == Stutter
               <==> |HeldBy(Get(d, c))| == Capacity(Get(d, c)) || (e.skb.wantsStatus && d.ackSkb.Some?))
  {
    StepConcerns(d, e);
    if e != AckInd && e.ch == c {
      MeaningHere(d, e);
      ChannelRefinesFifo(d, e);
    }
  }

  /** What an event means for its own channel. */
  ghost function OwnMeaning(d: Driver, e: Event): FifoOp
    requires WfDriver(d)
  {
    var ch := Get(d, Concerned(e));
    match e
    case Transmit(_, skb) =>
      if (skb.wantsStatus && d.ackSkb.Some?) || TestedFull(ch.ring) then Stutter else Enqueue(skb)
    case ReapStep(_) => Removal(Found(ch))
    case _ => Stutter
  }

  lemma MeaningHere(d: Driver, e: Event)
    requires SoundDriver(d) && e != AckInd
    ensures Meaning(d, e, e.ch) == OwnMeaning(d, e)
  {
    if e.Transmit? {
      StartTxVerdict(d, e.ch, e.skb);
    }
  }

  lemma ChannelRefinesFifo(d: Driver, e: Event)
    requires Inv(d) && Orderly(d, e)
    ensures var ch := Get(d, Concerned(e));
            && FifoStep(Queue(ch), OwnMeaning(d, e), Queue(ChannelAfter(d, e)), Capacity(ch))
            && (TestedFull(ch.ring) <==> |HeldBy(ch)| == Capacity(ch))
  {
    var ch := Get(d, Concerned(e));
    HeldBounds(ch);
    match e
    case Transmit(_, skb) => AcceptKeepsInv(ch, skb);
    case Complete(_) => DmaKeepsInv(ch);
    case AckInd =>
    case BeginReap(_) => if d.low.walk == Off && d.high.walk == Off { BeginKeepsInv(ch); }
    case ReapStep(_) =>
      ReapKeepsInv(ch);
      RemovesFront(Queue(ch), Found(ch), Queue(Reap(ch)), Capacity(ch));
  }

  lemma RemovesFront(q: seq<Skb>, found: Option<Skb>, q': seq<Skb>, cap: nat)
    requires q == (if found.Some? then [found.value] else []) + q'
    ensures FifoStep(q, Removal(found), q', cap)
  {
    assert [] + q' == q';
  }

  /** From `t` there are `used` slots to the head: a completed stretch of `done` slots and a VALID
      one, skbs on exactly the skb slots of both, and no skb anywhere else. No other slot is VALID
      either, except that the reaper may stand between the two slots of a frame whose BD slot has
      not been completed. */
  ghost predicate SplitRing(r: Ring, t: nat, done: nat, used: nat) {
    && WfRing(r) && t < |r.slots| && done <= used <= |r.slots| && r.head == Rot(t, used, |r.slots|)
    && forall k :: 0 <= k < |r.slots| ==>
         && var s := View(r.slots, t)[k];
         && (s.skb.Some? <==> k < used && (used - k) % 2 == 1)
         && (if k < used then s.valid <==> done <= k
             else s.valid ==> k == |r.slots| - 1 && t % 2 == 1 && done == 0 && 0 < used)
  }

  lemma InvariantSplits(ch: Channel, used: nat) returns (done: nat)
    requires InOrder(ch, used)
    ensures SplitRing(ch.ring, Pos(ch), done, used)
  {
    var r, t, n := ch.ring, Pos(ch), |ch.ring.slots|;
    done := if Live(r) <= used then used - Live(r) else 0;
    forall k | 0 <= k < n
      ensures var s := View(r.slots, t)[k];
              && (s.skb.Some? <==> k < used && (used - k) % 2 == 1)
              && (if k < used then s.valid <==> done <= k
                  else s.valid ==> k == n - 1 && t % 2 == 1 && done == 0 && 0 < used)
    {
      SplitSlot(ch, used, k);
    }
  }

  lemma SplitSlot(ch: Channel, used: nat, k: nat)
    requires InOrder(ch, used) && k < |ch.ring.slots|
    ensures var r, t, n := ch.ring, Pos(ch), |ch.ring.slots|;
            var done, s := if Live(r) <= used then used - Live(r) else 0, View(r.slots, t)[k];
            && (s.skb.Some? <==> k < used && (used - k) % 2 == 1)
            && (if k < used then s.valid <==> done <= k
                else s.valid ==> k == n - 1 && t % 2 == 1 && done == 0 && 0 < used)
  {
    var r, t, n := ch.ring, Pos(ch), |ch.ring.slots|;
    ViewAt(r.slots, t, k);
    if k < used {
      FrontSlot(r, t, used, k);
      var g := Gap(r.hw, Rot(t, k, n), n);
      ViewAt(r.slots, r.hw, g);
    } else {
      NoneOutside(ch, used, k);
      if r.slots[Rot(t, k, n)].valid {
        OutsideValid(ch, used, k);
      }
    }
  }

  lemma OutsideValid(ch: Channel, used: nat, k: nat)
    requires InOrder(ch, used) && used <= k < |ch.ring.slots|
    requires ch.ring.slots[Rot(Pos(ch), k, |ch.ring.slots|)].valid
    ensures k == |ch.ring.slots| - 1 && Pos(ch) % 2 == 1 && 0 < used < Live(ch.ring)
  {
    var r, t, n := ch.ring, Pos(ch), |ch.ring.slots|;
    var i := Rot(t, k, n);
    NoneOutside(ch, used, k);
    SlotAt(r, t, k);
    ValidHoldsNext(r, i);
    if k + 1 < n {
      assert Rot(t, k + 1, n) == Next(i, n);
      NoneOutside(ch, used, k + 1);
    } else {
      FrontParity(r, t, used);
      var g := Gap(r.hw, i, n);
      ViewAt(r.slots, r.hw, g);
    }
  }

  /** In every state reached by an orderly run the ring is split like this at the reaper. */
  lemma {:induction false} RingIsAlwaysSplit(d: Driver, es: seq<Event>, c: ChanId) returns (done: nat, used: nat)
    requires Boot(d) && OrderlyRun(d, es)
    ensures var ch := Get(Run(d, es), c); SplitRing(ch.ring, Pos(ch), done, used)
  {
    Reachable(d, es);
    var ch := Get(Run(d, es), c);
    used :| InOrder(ch, used);
    done := InvariantSplits(ch, used);
  }

  /* ---- No lost wake-up ---- */

  /** Whatever the interleaving, mac80211's queues are stopped only while the ring-full flag is set
      or the acknowledgement of a frame that has been sent is due. */
  lemma {:induction false} StoppedForAReason(d: Driver, es: seq<Event>)
    requires Boot(d)
    ensures var s := Run(d, es); s.macStopped ==> s.queuesStopped || AckDue(s)
  {
    BootInv(d);
    RunKeepsSound(d, es);
  }

  /** In orderly runs some channel has a frame left while the flag is set, and the reap of this frame
      will wake the queues. */
  lemma {:induction false} StoppedQueuesWillBeWoken(d: Driver, es: seq<Event>)
    requires Boot(d) && OrderlyRun(d, es)
    ensures var s := Run(d, es);
            && (s.macStopped ==> s.queuesStopped || AckDue(s))
            && (s.queuesStopped ==> Queue(s.low) != [] || Queue(s.high) != [])
  {
    Reachable(d, es);
    FramesAreQueued(Run(d, es).low);
    FramesAreQueued(Run(d, es).high);
  }

  ghost predicate AlwaysWakeable(d: Driver, es: seq<Event>)
    requires WfDriver(d)
    decreases |es|
  {
    Wakeable(d) && (es != [] ==> AlwaysWakeable(Step(d, es[0]), es[1..]))
  }

  ghost predicate NeverStopsForNothing(d: Driver, es: seq<Event>)
    requires WfDriver(d)
    decreases |es|
  {
    es == [] || (!StopsForNothing(d, es[0]) && NeverStopsForNothing(Step(d, es[0]), es[1..]))
  }

  /** Whatever the interleaving: stopped queues have someone to wake them at every point of a run if
      and only if no frame is refused by a ring test when no ring has a frame left. */
  lemma {:induction false} WakeableExactly(d: Driver, es: seq<Event>)
    requires SoundDriver(d) && Wakeable(d)
    ensures AlwaysWakeable(d, es) <==> NeverStopsForNothing(d, es)
    decreases |es|
  {
    if es != [] {
      StepKeepsWakeable(d, es[0]);
      StepKeepsSound(d, es[0]);
      if Wakeable(Step(d, es[0])) {
        WakeableExactly(Step(d, es[0]), es[1..]);
      }
    }
  }

  /** The descriptor of the oldest queued frame is complete: it is the first or second slot seen
      from the tail, and the DMA engine has passed it. */
  ghost predicate OldestComplete(ch: Channel)
    requires Wf(ch)
  {
    var r := ch.ring;
    var second := Next(r.tail, |r.slots|);
    !r.slots[r.tail].valid &&
    (r.slots[r.tail].skb.Some? || (r.slots[second].skb.Some? && !r.slots[second].valid))
  }

  function ReapSteps(es: seq<Event>, c: ChanId): nat {
    if es == [] then 0 else (if es[0] == ReapStep(c) then 1 else 0) + ReapSteps(es[1..], c)
  }

  predicate Awake(d: Driver) {
    !d.macStopped && !d.queuesStopped
  }

  predicate FrameDone(s: Slot) {
    !s.valid && s.skb.Some?
  }

  /** The reaper will deal with a frame in its step number `k` from here. */
  ghost predicate Near(ch: Channel, k: nat)
    requires Wf(ch)
  {
    && ch.walk.On?
    && var cur, slots := ch.walk.cur, ch.ring.slots;
    match k
    case 1 => ch.walk.phase == Body && FrameDone(slots[cur])
    case 2 => ch.walk.phase == Check && FrameDone(slots[cur])
    case 3 => ch.walk.phase == Body && !slots[cur].valid && slots[cur].skb.None? && FrameDone(slots[Next(cur, |slots|)])
    case _ => false
  }

  lemma ReapNears(ch: Channel, k: nat)
    requires SoundChannel(ch) && Near(ch, k)
    ensures k == 1 <==> Found(ch).Some?
    ensures k != 1 ==> Near(Reap(ch), k - 1)
  {
    assert SoundSlot(ch.ring.slots[ch.walk.cur], ch.walk.cur);
  }

  /** A transmit does not touch a slot with an skb, nor the one before it. */
  lemma AcceptStaysNear(ch: Channel, skb: Skb, k: nat)
    requires SoundChannel(ch) && Near(ch, k)
    ensures Near(Accept(ch, skb).0, k)
  {
    SoundAccept(ch, skb);
    TxVerdict(ch.ring, skb);
  }

  lemma NearAfter(d: Driver, e: Event, k: nat)
    requires SoundDriver(d) && Near(Get(d, Concerned(e)), k) && !e.ReapStep?
    ensures Near(ChannelAfter(d, e), k)
  {
    if e.Transmit? {
      AcceptStaysNear(Get(d, e.ch), e.skb, k);
    }
  }

  lemma ChannelStaysNear(d: Driver, c: ChanId, e: Event, k: nat)
    requires SoundDriver(d) && Near(Get(d, c), k) && e != ReapStep(c)
    ensures Near(Get(Step(d, e), c), k)
  {
    StepConcerns(d, e);
    if Concerned(e) == c {
      NearAfter(d, e, k);
    }
  }

  lemma FlagStays(d: Driver, c: ChanId, e: Event)
    requires SoundDriver(d) && d.queuesStopped && Get(d, c).walk.On?
    requires e == ReapStep(c) ==> Found(Get(d, c)).None?
    ensures Step(d, e).queuesStopped
  {
    match e
    case Transmit(c', skb) =>
      TransmitResult(d, c', skb);
      TransmitLeavesFlag(d, c', skb);
    case ReapStep(c') => QuietReapLeavesFlag(d, c');
    case Complete(_) =>
    case AckInd =>
    case BeginReap(_) =>
  }

  lemma TransmitLeavesFlag(d: Driver, c: ChanId, skb: Skb)
    requires WfDriver(d) && d.queuesStopped
    ensures Transmitted(d, c, skb).queuesStopped
  {
  }

  lemma QuietReapLeavesFlag(d: Driver, c: ChanId)
    requires WfDriver(d) && d.queuesStopped && Found(Get(d, c)).None?
    ensures ReapOne(d, c).queuesStopped
  {
  }

  /** The queues are awake, or will be with `k` more steps of the reaper. */
  ghost predicate Waking(d: Driver, c: ChanId, k: nat) {
    && SoundDriver(d)
    && if k == 0 then Awake(d) else d.queuesStopped && Near(Get(d, c), k)
  }

  lemma StepNears(d: Driver, c: ChanId, e: Event, k: nat)
    requires Waking(d, c, k) && k != 0
    ensures Waking(Step(d, e), c, if e == ReapStep(c) then k - 1 else k)
  {
    StepKeepsSound(d, e);
    if e == ReapStep(c) {
      ReapNears(Get(d, c), k);
      if k != 1 {
        StepConcerns(d, e);
        FlagStays(d, c, e);
      }
    } else {
      ChannelStaysNear(d, c, e, k);
      FlagStays(d, c, e);
    }
  }

  lemma {:induction false} WokenWithin(d: Driver, c: ChanId, es: seq<Event>, k: nat) returns (i: nat)
    requires Waking(d, c, k) && k <= ReapSteps(es, c)
    ensures i <= |es| && Awake(Run(d, es[..i]))
    decreases |es|
  {
    if k == 0 {
      i := 0;
    } else {
      StepNears(d, c, es[0], k);
      var j := WokenWithin(Step(d, es[0]), c, es[1..], if es[0] == ReapStep(c) then k - 1 else k);
      i := j + 1;
      RunBeginning(d, es, i);
    }
  }

  lemma RunBeginning(d: Driver, es: seq<Event>, i: nat)
    requires WfDriver(d) && 0 < i <= |es|
    ensures Run(d, es[..i]) == Run(Step(d, es[0]), es[1..][..i - 1])
  {
    assert es[..i][1..] == es[1..][..i - 1];
  }

  lemma FlagSurvivesBegin(d: Driver, c: ChanId)
    requires WfDriver(d)
    ensures Step(d, BeginReap(c)).queuesStopped == d.queuesStopped
  {
  }

  /** Whatever happens in between: if the ring-full flag is set, the next reap of a channel whose
      oldest frame is complete wakes the queues within its first three steps, whichever channel
      set the flag. */
  lemma NextReapWakesQueues(d: Driver, c: ChanId, es: seq<Event>) returns (i: nat)
    requires SoundDriver(d) && d.low.walk == Off && d.high.walk == Off
    requires d.queuesStopped && OldestComplete(Get(d, c)) && 3 <= ReapSteps(es, c)
    ensures i <= |es| && Awake(Run(Step(d, BeginReap(c)), es[..i]))
  {
    var s, ch := Step(d, BeginReap(c)), Get(d, c);
    var k := if ch.ring.slots[ch.ring.tail].skb.Some? then 1 else 3;
    StepKeepsSound(d, BeginReap(c));
    StepConcerns(d, BeginReap(c));
    assert Near(Begin(ch), k);
    FlagSurvivesBegin(d, c);
    i := WokenWithin(s, c, es, k);
  }

  lemma UnrollFour(d: Driver, e1: Event, e2: Event, e3: Event, e4: Event)
    requires WfDriver(d)
    ensures Run(d, [e1, e2]) == Step(Step(d, e1), e2)
    ensures Run(d, [e1, e2, e3, e4]) == Step(Step(Step(Step(d, e1), e2), e3), e4)
  {
    assert [e1, e2, e3, e4] == [e1, e2] + [e3, e4];
    RunConcat(d, [e1, e2], [e3, e4]);
    UnrollTwo(d, e1, e2);
    UnrollTwo(Step(Step(d, e1), e2), e3, e4);
  }

  lemma UnrollTwo(d: Driver, e1: Event, e2: Event)
    requires WfDriver(d)
    ensures Run(d, [e1, e2]) == Step(Step(d, e1), e2)
  {
    assert [e1, e2] == [e1] + [e2];
    RunConcat(d, [e1], [e2]);
    RunSingle(d, e1);
    RunSingle(Step(d, e1), e2);
  }

  lemma RunSingle(d: Driver, e: Event)
    requires WfDriver(d)
    ensures Run(d, [e]) == Step(d, e)
  {
    assert [e][1..] == [];
  }
}
