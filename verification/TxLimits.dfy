/** How far the results about the transmit side reach: when the ring-full flag means a full ring, and
    runs on a small ring in which the code does less than its design suggests. */
module TxLimits {
  import opened Common
  import opened Circle
  import opened TxRing
  import opened TxChannel
  import opened TxDriver
  import opened TxRelease
  import opened TxTheorems
  import opened TxDrain
  import opened TxCatchUp
  import opened TxWakeUp

  /* ---- "queues_stopped means that a ring is full" ---- */

  /** A queue is full: half as many frames as slots are to be dealt with. */
  ghost predicate Full(ch: Channel)
    requires Wf(ch)
  {
    |Queue(ch)| == Capacity(ch)
  }

  ghost predicate FlagMeansFull(d: Driver)
    requires WfDriver(d)
  {
    d.queuesStopped ==> Full(d.low) || Full(d.high)
  }

  /** A frame is refused by its ring in the time between the release of a frame and the dropping of
      the pointer to it, that is, after `skb_lock` has been given back, and the other ring has
      room. */
  ghost predicate Disturbs(d: Driver, e: Event)
    requires WfDriver(d)
  {
    && e.Transmit? && InClear(Get(d, e.ch)) && TestedFull(Get(d, e.ch).ring)
    && !Full(Get(d, Other(e.ch))) && (e.skb.wantsStatus ==> d.ackSkb.None?)
  }

  ghost predicate NeverDisturbed(d: Driver, es: seq<Event>)
    requires WfDriver(d)
    decreases |es|
  {
    es == [] || (!Disturbs(d, es[0]) && NeverDisturbed(Step(d, es[0]), es[1..]))
  }

  ghost predicate FlagAlwaysMeansFull(d: Driver, es: seq<Event>)
    requires WfDriver(d)
    decreases |es|
  {
    FlagMeansFull(d) && (es != [] ==> FlagAlwaysMeansFull(Step(d, es[0]), es[1..]))
  }

  lemma FullMeansTested(ch: Channel)
    requires ChanInv(ch)
    ensures Full(ch) <==> TestedFull(ch.ring) && !InClear(ch)
  {
    HeldBounds(ch);
  }

  lemma TransmitKeepsFlag(d: Driver, c: ChanId, skb: Skb)
    requires Inv(d) && RoomAhead(Get(d, c)) && FlagMeansFull(d)
    ensures FlagMeansFull(TxSkb(d, c, skb)) <==> !Disturbs(d, Transmit(c, skb))
  {
    var ch := Get(d, c);
    TransmitResult(d, c, skb);
    FullMeansTested(ch);
    if skb.wantsStatus && d.ackSkb.Some? {
      assert FlagMeansFull(Dropped(d, skb));
    } else if TestedFull(ch.ring) {
      RefusedKeepsFlag(d, c, skb);
    } else {
      AcceptedKeepsFlag(d, c, skb, Accept(ch, skb).0);
    }
  }

  lemma RefusedKeepsFlag(d: Driver, c: ChanId, skb: Skb)
    requires WfDriver(d)
    ensures FlagMeansFull(Refused(d, skb)) <==> Full(Get(d, c)) || Full(Get(d, Other(c)))
  {
  }

  lemma AcceptedKeepsFlag(d: Driver, c: ChanId, skb: Skb, ch': Channel)
    requires WfDriver(d) && FlagMeansFull(d) && !Full(Get(d, c)) && Wf(ch')
    ensures FlagMeansFull(Accepted(d, c, skb, ch'))
  {
  }

  lemma QuietKeepsFlag(d: Driver, c: ChanId, ch': Channel)
    requires WfDriver(d) && FlagMeansFull(d) && Wf(ch')
    requires Queue(ch') == Queue(Get(d, c)) && Capacity(ch') == Capacity(Get(d, c))
    ensures FlagMeansFull(Put(d, c, ch'))
  {
  }

  lemma ReapKeepsFlag(d: Driver, c: ChanId)
    requires Inv(d) && FlagMeansFull(d)
    ensures FlagMeansFull(ReapOne(d, c))
  {
    var ch := Get(d, c);
    if Found(ch).None? {
      ReapKeepsInv(ch);
      QuietKeepsFlag(d, c, Reap(ch));
      assert ReapOne(d, c) == Put(d, c, Reap(ch));
    } else {
      assert !ReapOne(d, c).queuesStopped;
    }
  }

  lemma StepKeepsFlag(d: Driver, e: Event)
    requires Inv(d) && Orderly(d, e) && FlagMeansFull(d)
    ensures FlagMeansFull(Step(d, e)) <==> !Disturbs(d, e)
  {
    match e
    case Transmit(c, skb) => TransmitKeepsFlag(d, c, skb);
    case Complete(c) =>
      DmaKeepsInv(Get(d, c));
      QuietKeepsFlag(d, c, DmaStep(Get(d, c)));
    case AckInd =>
    case BeginReap(c) =>
      if d.low.walk == Off && d.high.walk == Off {
        BeginKeepsInv(Get(d, c));
        QuietKeepsFlag(d, c, Begin(Get(d, c)));
      }
    case ReapStep(c) => ReapKeepsFlag(d, c);
  }

  lemma {:induction false} FlagExactly(d: Driver, es: seq<Event>)
    requires Inv(d) && FlagMeansFull(d) && OrderlyRun(d, es)
    ensures FlagAlwaysMeansFull(d, es) <==> NeverDisturbed(d, es)
    decreases |es|
  {
    if es != [] {
      StepKeepsFlag(d, es[0]);
      StepKeepsInv(d, es[0]);
      if FlagMeansFull(Step(d, es[0])) {
        FlagExactly(Step(d, es[0]), es[1..]);
      }
    }
  }

  /** In an orderly run the ring-full flag means a full queue at every point if and only if no frame
      is refused in that short time. */
  lemma {:induction false} FlagMeansFullExactly(d: Driver, es: seq<Event>)
    requires Boot(d) && OrderlyRun(d, es)
    ensures FlagAlwaysMeansFull(d, es) <==> NeverDisturbed(d, es)
  {
    BootInv(d);
    FlagExactly(d, es);
  }

  /* ---- Runs on a ring of four slots ---- */

  /** Four slots, two pairs of equal validity. */
  function Four(valid1: bool, skb1: Option<Skb>, valid2: bool, skb2: Option<Skb>): seq<Slot> {
    [Slot(valid1, None, 1), Slot(valid1, skb1, 0), Slot(valid2, None, 1), Slot(valid2, skb2, 0)]
  }

  const IDLE_RING := Ring(Four(false, None, false, None), 0, 0, 0)
  const IDLE := Channel(IDLE_RING, Off, [], [])
  const SMALL := Driver(IDLE, IDLE, false, false, None, multiset{}, multiset{}, multiset{})

  const A := Skb(1, false)
  const B := Skb(2, false)
  const C := Skb(3, false)

  /** A full ring: the frames A and B, sent or sent and completed. */
  function TwoSent(valid: bool): Ring {
    Ring(Four(valid, Some(A), valid, Some(B)), 0, 0, 0)
  }

  lemma SmallBoots()
    ensures Boot(SMALL)
  {
  }

  const SEND_TWO := [Transmit(High, A), Transmit(High, B)]
  const COMPLETE_ALL := [Complete(High), Complete(High), Complete(High), Complete(High)]
  const REAP_TWO := [ReapStep(High), ReapStep(High)]
  const BEGIN_AND_THREE := [BeginReap(High), ReapStep(High), ReapStep(High), ReapStep(High)]

  lemma SendOne(ch: Channel)
    requires Wf(ch) && ch.ring == IDLE_RING && (ch.walk == Off || ch.walk == On(3, Check, true))
    ensures Accept(ch, A)
         == (ch.(ring := Ring(Four(true, Some(A), false, None), 2, 0, 0),
                 accepted := ch.accepted + [A]), Ok)
  {
    assert RingTx(ch.ring, A).0.slots == Four(true, Some(A), false, None);
  }

  function CaughtUpWith(w: Walk): Walk {
    if w.On? then w.(circling := false) else w
  }

  lemma SendSecond(ch: Channel)
    requires Wf(ch) && ch.ring == Ring(Four(true, Some(A), false, None), 2, 0, 0)
    requires ch.walk == Off || ch.walk == On(3, Check, true)
    ensures Accept(ch, B) == (ch.(ring := TwoSent(true), walk := CaughtUpWith(ch.walk),
                                  accepted := ch.accepted + [B]), Ok)
  {
    assert RingTx(ch.ring, B).0.slots == TwoSent(true).slots;
  }

  lemma SendTwo(d: Driver)
    requires WfDriver(d) && d.high.ring == IDLE_RING && d.high.accepted == []
    requires d.high.walk == Off || d.high.walk == On(3, Check, true)
    ensures var d' := Run(d, SEND_TWO);
            && d'.high == d.high.(ring := TwoSent(true), walk := CaughtUpWith(d.high.walk), accepted := [A, B])
            && d'.low == d.low && d'.queuesStopped == d.queuesStopped && d'.macStopped == d.macStopped
            && d'.ackSkb == d.ackSkb
  {
    UnrollTwo(d, Transmit(High, A), Transmit(High, B));
    SendOne(d.high);
    SendSecond(Step(d, Transmit(High, A)).high);
  }

  lemma CompleteFour(d: Driver)
    requires WfDriver(d) && d.high.ring == TwoSent(true)
    ensures Run(d, COMPLETE_ALL) == Put(d, High, d.high.(ring := TwoSent(false)))
  {
    UnrollFour(d, Complete(High), Complete(High), Complete(High), Complete(High));
    var r2 := RingHw(RingHw(d.high.ring));
    assert r2 == Ring(Four(false, Some(A), true, Some(B)), 0, 0, 2);
    assert RingHw(RingHw(r2)) == TwoSent(false);
  }

  /** Reaper steps that find no frame concern their own channel only. */
  lemma QuietReap(d: Driver)
    requires WfDriver(d) && Found(d.high).None?
    ensures Step(d, ReapStep(High)) == Put(d, High, Reap(d.high))
  {
  }

  /** A reap that finds the ring empty goes on past the head. */
  lemma CirclePastHead()
    ensures Run(SMALL, BEGIN_AND_THREE) == Put(SMALL, High, IDLE.(walk := On(2, Check, true)))
  {
    UnrollFour(SMALL, BeginReap(High), ReapStep(High), ReapStep(High), ReapStep(High));
    var d1 := Step(SMALL, BeginReap(High));
    assert d1 == Put(SMALL, High, IDLE.(walk := On(0, Body, false)));
    QuietReap(d1);
    var d2 := Step(d1, ReapStep(High));
    assert d2 == Put(SMALL, High, IDLE.(walk := On(1, Check, true)));
    QuietReap(d2);
    var d3 := Step(d2, ReapStep(High));
    assert d3 == Put(SMALL, High, IDLE.(walk := On(1, Body, true)));
    QuietReap(d3);
  }

  /** A state in which the next frame leaves itself behind is reached by an orderly run. */
  lemma CatchingUpIsReachable()
    ensures Boot(SMALL) && OrderlyRun(SMALL, BEGIN_AND_THREE)
    ensures var ch := Run(SMALL, BEGIN_AND_THREE).high; !RoomAhead(ch) && LeavesOneBehind(ch)
  {
    SmallBoots();
    CirclePastHead();
    NoneHeld(View(IDLE_RING.slots, 0));
    NoTransmitIsOrderly(SMALL, BEGIN_AND_THREE);
  }

  lemma CircleFurther()
    ensures Run(Put(SMALL, High, IDLE.(walk := On(2, Check, true))), REAP_TWO)
         == Put(SMALL, High, IDLE.(walk := On(3, Check, true)))
  {
    var d := Put(SMALL, High, IDLE.(walk := On(2, Check, true)));
    UnrollTwo(d, ReapStep(High), ReapStep(High));
    QuietReap(d);
    QuietReap(Step(d, ReapStep(High)));
  }

  lemma ReapSecondFrame(d: Driver)
    requires WfDriver(d) && d.high.ring == TwoSent(false) && d.high.walk == On(3, Check, false)
    ensures Run(d, REAP_TWO).high == d.high.(walk := On(3, Clear, false), reaped := d.high.reaped + [B])
    ensures Run(d, REAP_TWO).low == d.low && Run(d, REAP_TWO).ackSkb == d.ackSkb
    ensures !Run(d, REAP_TWO).queuesStopped
  {
    UnrollTwo(d, ReapStep(High), ReapStep(High));
    QuietReap(d);
  }

  const OVERTAKING := BEGIN_AND_THREE + REAP_TWO + SEND_TWO + COMPLETE_ALL + REAP_TWO

  lemma Then(d: Driver, es: seq<Event>, fs: seq<Event>, d1: Driver, d2: Driver)
    requires WfDriver(d) && WfDriver(d1) && Run(d, es) == d1 && Run(d1, fs) == d2
    ensures Run(d, es + fs) == d2
  {
    RunConcat(d, es, fs);
  }

  lemma Overtaking()
    ensures var d := Run(SMALL, OVERTAKING);
            && d.high == Channel(TwoSent(false), On(3, Clear, false), [A, B], [B])
            && d.low == IDLE && d.ackSkb.None? && !d.queuesStopped
  {
    var d2 := Put(SMALL, High, IDLE.(walk := On(3, Check, true)));
    CirclePastHead();
    CircleFurther();
    Then(SMALL, BEGIN_AND_THREE, REAP_TWO, Run(SMALL, BEGIN_AND_THREE), d2);
    var d3 := Run(d2, SEND_TWO);
    Then(SMALL, BEGIN_AND_THREE + REAP_TWO, SEND_TWO, d2, d3);
    SendTwo(d2);
    var d4 := Run(d3, COMPLETE_ALL);
    Then(SMALL, BEGIN_AND_THREE + REAP_TWO + SEND_TWO, COMPLETE_ALL, d3, d4);
    CompleteFour(d3);
    Then(SMALL, BEGIN_AND_THREE + REAP_TWO + SEND_TWO + COMPLETE_ALL, REAP_TWO, d4, Run(d4, REAP_TWO));
    ReapSecondFrame(d4);
  }

  /** Without the restriction on the interleaving the ring is not a FIFO: here two frames are
      transmitted and completed while a reap circles the empty ring, and the second one is reaped
      while the first is left behind. */
  lemma OvertakingTheReaperBreaksOrder()
    ensures Boot(SMALL) && !OrderlyRun(SMALL, OVERTAKING)
    ensures Run(SMALL, OVERTAKING).high.accepted == [A, B]
    ensures Run(SMALL, OVERTAKING).high.reaped == [B]
  {
    Overtaking();
    NotOrderly(OVERTAKING);
  }

  const BACK_TO_HEAD := [ReapStep(High), ReapStep(High), BeginReap(High), ReapStep(High)]
  const STOP_FOR_NOTHING := [ReapStep(High), ReapStep(High), Transmit(High, C), ReapStep(High)]

  lemma BackToHead(d: Driver)
    requires WfDriver(d) && d.high == Channel(TwoSent(false), On(3, Clear, false), [A, B], [B])
    requires d.low == IDLE && d.ackSkb.None?
    ensures var s := Run(d, BACK_TO_HEAD);
            && s.high == Channel(Ring(Four(false, Some(A), false, None), 0, 0, 0), On(1, Check, false), [A, B], [B])
            && s.low == IDLE && s.ackSkb.None?
  {
    UnrollFour(d, ReapStep(High), ReapStep(High), BeginReap(High), ReapStep(High));
    var r := Ring(Four(false, Some(A), false, None), 0, 0, 0);
    var d1 := Step(d, ReapStep(High));
    assert RingClear(d.high.ring, 3) == r;
    assert d1.high == Channel(r, On(0, Check, false), [A, B], [B]) && d1.low == IDLE;
    var d2 := Step(d1, ReapStep(High));
    assert d2.high == Channel(r, Off, [A, B], [B]) && d2.low == IDLE;
    var d3 := Step(d2, BeginReap(High));
    assert d3.high == Channel(r, On(0, Body, false), [A, B], [B]) && d3.low == IDLE;
  }

  lemma TransmitToFull(d: Driver, skb: Skb)
    requires WfDriver(d) && TestedFull(d.high.ring) && !skb.wantsStatus && d.high.ring.slots[d.high.ring.head].bd != 0
    ensures var s := Step(d, Transmit(High, skb));
            s.high == d.high && s.low == d.low && s.ackSkb == d.ackSkb && s.queuesStopped && s.macStopped
  {
  }

  lemma FindsFirst(d: Driver)
    requires WfDriver(d)
    requires d.high == Channel(Ring(Four(false, Some(A), false, None), 0, 0, 0), On(1, Check, false), [A, B], [B])
    ensures var s := Run(d, [ReapStep(High), ReapStep(High)]);
            && s.high == Channel(d.high.ring, On(1, Clear, false), [A, B], [B, A])
            && s.low == d.low && s.ackSkb == d.ackSkb
  {
    UnrollTwo(d, ReapStep(High), ReapStep(High));
    QuietReap(d);
    var d1 := Step(d, ReapStep(High));
    assert d1.high == d.high.(walk := On(1, Body, false));
    assert Found(d1.high) == Some(A);
  }

  lemma StoppedForNothing(d: Driver)
    requires WfDriver(d) && d.low == IDLE && d.ackSkb.None?
    requires d.high == Channel(Ring(Four(false, Some(A), false, None), 0, 0, 0), On(1, Check, false), [A, B], [B])
    ensures var s := Run(d, STOP_FOR_NOTHING);
            s.high.ring == IDLE_RING && s.low == IDLE && s.queuesStopped && s.macStopped && s.ackSkb.None?
  {
    FindsFirst(d);
    var d2 := Run(d, [ReapStep(High), ReapStep(High)]);
    RunConcat(d, [ReapStep(High), ReapStep(High)], [Transmit(High, C), ReapStep(High)]);
    assert [ReapStep(High), ReapStep(High)] + [Transmit(High, C), ReapStep(High)] == STOP_FOR_NOTHING;
    StopsAndClears(d2);
  }

  lemma StopsAndClears(d: Driver)
    requires WfDriver(d) && d.low == IDLE && d.ackSkb.None?
    requires d.high == Channel(Ring(Four(false, Some(A), false, None), 0, 0, 0), On(1, Clear, false), [A, B], [B, A])
    ensures var s := Run(d, [Transmit(High, C), ReapStep(High)]);
            s.high.ring == IDLE_RING && s.low == IDLE && s.queuesStopped && s.macStopped && s.ackSkb.None?
  {
    UnrollTwo(d, Transmit(High, C), ReapStep(High));
    TransmitToFull(d, C);
    assert RingClear(d.high.ring, 1) == IDLE_RING;
    QuietReap(Step(d, Transmit(High, C)));
  }

  lemma LosesIt()
    ensures var s := Run(SMALL, OVERTAKING + BACK_TO_HEAD + STOP_FOR_NOTHING);
            && s.high.ring == IDLE_RING && s.low == IDLE && s.queuesStopped && s.macStopped && s.ackSkb.None?
  {
    Overtaking();
    var d1 := Run(SMALL, OVERTAKING);
    BackToHead(d1);
    var d2 := Run(d1, BACK_TO_HEAD);
    StoppedForNothing(d2);
    Then(SMALL, OVERTAKING, BACK_TO_HEAD, d1, d2);
    Then(SMALL, OVERTAKING + BACK_TO_HEAD, STOP_FOR_NOTHING, d2, Run(d2, STOP_FOR_NOTHING));
  }

  /** Nor are stopped queues always woken: the same run goes on to leave both rings empty and the
      queues stopped, and no completion, acknowledgement or reap will ever wake them. */
  lemma OvertakingTheReaperLosesWakeUp()
    ensures var s := Run(SMALL, OVERTAKING + BACK_TO_HEAD + STOP_FOR_NOTHING);
            && Boot(SMALL) && StoppedForGood(s) && s.queuesStopped
            && s.high.ring == IDLE_RING && s.low.ring == IDLE_RING
  {
    SmallBoots();
    LosesIt();
    SoundReachable(SMALL, OVERTAKING + BACK_TO_HEAD + STOP_FOR_NOTHING);
    EmptyIsLost(Run(SMALL, OVERTAKING + BACK_TO_HEAD + STOP_FOR_NOTHING));
    LostExactly(Run(SMALL, OVERTAKING + BACK_TO_HEAD + STOP_FOR_NOTHING));
  }

  lemma EmptyIsLost(d: Driver)
    requires WfDriver(d) && d.high.ring == IDLE_RING && d.low.ring == IDLE_RING && d.macStopped && d.ackSkb.None?
    ensures Lost(d)
  {
  }

  lemma NotOrderly(es: seq<Event>)
    ensures Boot(SMALL)
    ensures var ch := Run(SMALL, es).high;
            ch.accepted == [A, B] && ch.reaped == [B] ==> !OrderlyRun(SMALL, es)
  {
    SmallBoots();
    if OrderlyRun(SMALL, es) {
      FramesLeaveInOrder(SMALL, es, High);
      HeadsDiffer(Queue(Run(SMALL, es).high));
    }
  }

  lemma HeadsDiffer(q: seq<Skb>)
    ensures [A, B] != [B] + q
  {
    assert [A, B][0] != ([B] + q)[0];
  }

  /** Two frames sent and completed, and a reap that has just released the first. */
  const UP_TO_RELEASE := SEND_TWO + COMPLETE_ALL + BEGIN_AND_THREE

  lemma UpToRelease()
    ensures var d := Run(SMALL, UP_TO_RELEASE);
            && d.high == Channel(TwoSent(false), On(1, Clear, false), [A, B], [A])
            && d.low == IDLE && !d.queuesStopped
  {
    var d1 := Run(SMALL, SEND_TWO);
    SendTwo(SMALL);
    var d2 := Run(d1, COMPLETE_ALL);
    CompleteFour(d1);
    Then(SMALL, SEND_TWO, COMPLETE_ALL, d1, d2);
    var d3 := Run(d2, BEGIN_AND_THREE);
    Then(SMALL, SEND_TWO + COMPLETE_ALL, BEGIN_AND_THREE, d2, d3);
    ReapUpToRelease(d2);
  }

  lemma ReapUpToRelease(d: Driver)
    requires WfDriver(d) && d.low == IDLE && d.high == Channel(TwoSent(false), Off, [A, B], [])
    requires !d.queuesStopped
    ensures var d' := Run(d, BEGIN_AND_THREE);
            && d'.high == Channel(TwoSent(false), On(1, Clear, false), [A, B], [A])
            && d'.low == IDLE && !d'.queuesStopped
  {
    UnrollFour(d, BeginReap(High), ReapStep(High), ReapStep(High), ReapStep(High));
    var d1 := Step(d, BeginReap(High));
    assert d1 == Put(d, High, d.high.(walk := On(0, Body, false)));
    QuietReap(d1);
    var d2 := Step(d1, ReapStep(High));
    assert d2 == Put(d, High, d.high.(walk := On(1, Check, false)));
    QuietReap(d2);
    var d3 := Step(d2, ReapStep(High));
    assert d3 == Put(d, High, d.high.(walk := On(1, Body, false)));
  }

  /** If a frame is transmitted between the release and the dropping of the pointer, the flag is
      set for a ring that has room the moment after. (A frame is left to clear it: see
      StoppedQueuesWillBeWoken.) */
  lemma FlagCanOutliveFullRing()
    ensures var s := Run(SMALL, UP_TO_RELEASE + [Transmit(High, C), ReapStep(High)]);
            && Boot(SMALL) && InClear(Run(SMALL, UP_TO_RELEASE).high)
            && s.queuesStopped && !TestedFull(s.low.ring) && !TestedFull(s.high.ring)
  {
    SmallBoots();
    UpToRelease();
    var d := Run(SMALL, UP_TO_RELEASE);
    Then(SMALL, UP_TO_RELEASE, [Transmit(High, C), ReapStep(High)], d,
         Run(d, [Transmit(High, C), ReapStep(High)]));
    TransmitThenClear(d);
  }

  lemma TransmitThenClear(d: Driver)
    requires WfDriver(d) && d.low == IDLE
    requires d.high == Channel(TwoSent(false), On(1, Clear, false), [A, B], [A])
    ensures var s := Run(d, [Transmit(High, C), ReapStep(High)]);
            s.queuesStopped && !TestedFull(s.low.ring) && !TestedFull(s.high.ring)
  {
    UnrollTwo(d, Transmit(High, C), ReapStep(High));
    TransmitToFull(d, C);
    QuietReap(Step(d, Transmit(High, C)));
    assert Reap(d.high).ring.slots[1].skb == None;
  }

  const D := Skb(4, true)

  /** A status-requesting frame can meet a full ring: here the acknowledgement then releases a
      frame that has been freed already. */
  lemma StatusFrameCanBeReleasedTwice()
    ensures Boot(SMALL) && !NeverStranded(Run(SMALL, SEND_TWO), [Transmit(High, D)])
    ensures Run(SMALL, SEND_TWO + [Transmit(High, D), AckInd]).released[D] >= 2
  {
    SmallBoots();
    SendTwo(SMALL);
    SoundReachable(SMALL, SEND_TWO);
    StatusFrameOnFullRing(Run(SMALL, SEND_TWO));
    RunConcat(SMALL, SEND_TWO, [Transmit(High, D), AckInd]);
  }

  lemma StatusFrameOnFullRing(d: Driver)
    requires SoundDriver(d) && d.high.ring == TwoSent(true) && d.high.walk == Off && d.ackSkb.None?
    ensures !NeverStranded(d, [Transmit(High, D)])
    ensures Run(d, [Transmit(High, D), AckInd]).released[D] >= 2
  {
    assert d.high.ring.slots[1].skb.Some?;
    RefusedStatusFrameIsReleasedTwice(d, High, D);
  }

  lemma NotStranded(d: Driver, e: Event, f: Event)
    requires WfDriver(d) && !StatusRefused(d, e) && !f.Transmit?
    ensures NeverStranded(d, [e, f])
  {
    assert [e, f][1..] == [f] && [f][1..] == [];
  }

  /** An acknowledgement can come before the reap: here it releases a frame that the ring still
      points to, although no frame has been refused. */
  lemma AckCanComeBeforeReap()
    ensures var s := Run(SMALL, [Transmit(High, D), AckInd]);
            && Boot(SMALL) && NeverStranded(SMALL, [Transmit(High, D), AckInd])
            && s.released[D] == 1 && s.high.ring.slots[1].skb == Some(D)
            && !NoneDangling(Record(s))
  {
    SmallBoots();
    var d1 := Step(SMALL, Transmit(High, D));
    UnrollTwo(SMALL, Transmit(High, D), AckInd);
    assert RingTx(IDLE_RING, D) == (Ring(Four(true, Some(D), false, None), 2, 0, 0), Ok) by {
      assert RingTx(IDLE_RING, D).0.slots == Four(true, Some(D), false, None);
    }
    NotStranded(SMALL, Transmit(High, D), AckInd);
    var s := Step(d1, AckInd);
    assert Unreaped(s.high)[1].skb == Some(D);
    BagMember(Unreaped(s.high), D);
  }
}
