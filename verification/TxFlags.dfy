/** When mac80211's queues are stopped, when the ring-full flag is set, and whom the slot for the
    acknowledgement belongs to, told from the events of a run. */
module TxFlags {
  import opened Common
  import opened Circle
  import opened TxRing
  import opened TxChannel
  import opened TxDriver

  /* ---- What one event does ---- */

  /** A frame that requests its status finds the slot for the acknowledgement free. */
  predicate TakesSlot(d: Driver, e: Event) {
    e.Transmit? && e.skb.wantsStatus && d.ackSkb == None
  }

  /** A frame that may be sent finds an skb in the slot behind the head of its ring. */
  predicate MeetsFullRing(d: Driver, e: Event)
    requires WfDriver(d)
  {
    && e.Transmit? && !(e.skb.wantsStatus && d.ackSkb != None)
    && var r := Get(d, e.ch).ring; r.slots[Next(r.head, |r.slots|)].skb != None
  }

  /** The loop body of the reaper stands before a completed descriptor with an skb. */
  predicate DealsWithFrame(d: Driver, e: Event)
    requires WfDriver(d)
  {
    && e.ReapStep?
    && var ch := Get(d, e.ch);
    && ch.walk.On? && ch.walk.phase == Body
    && !ch.ring.slots[ch.walk.cur].valid && ch.ring.slots[ch.walk.cur].skb != None
  }

  predicate StopsQueues(d: Driver, e: Event)
    requires WfDriver(d)
  {
    TakesSlot(d, e) || MeetsFullRing(d, e)
  }

  /** The reaper wakes the queues for a frame only if the ring-full flag is set. */
  predicate WakesQueues(d: Driver, e: Event)
    requires WfDriver(d)
  {
    (e == AckInd && d.ackSkb != None) || (DealsWithFrame(d, e) && d.queuesStopped)
  }

  /** From `d` to `s` the queues, the flag and the slot have changed as the event `e` says. */
  predicate Changes(d: Driver, e: Event, s: Driver)
    requires WfDriver(d)
  {
    && (s.macStopped <==> StopsQueues(d, e) || (d.macStopped && !WakesQueues(d, e)))
    && (s.queuesStopped <==> MeetsFullRing(d, e) || (d.queuesStopped && !DealsWithFrame(d, e)))
    && s.ackSkb == if TakesSlot(d, e) then Some(e.skb) else if e == AckInd then None else d.ackSkb
  }

  /** Under every interleaving, exactly these events change the state of the queues, the ring-full flag
      and the slot for the acknowledgement. */
  lemma FlagsChangeExactly(d: Driver, e: Event)
    requires SoundDriver(d)
    ensures Changes(d, e, Step(d, e))
  {
    match e
    case Transmit(c, skb) =>
      TransmitResult(d, c, skb);
      TransmitChanges(d, c, skb);
    case Complete(c) => CompleteChanges(d, c);
    case AckInd => AckChanges(d);
    case BeginReap(c) => BeginChanges(d, c);
    case ReapStep(c) => ReapChanges(d, c);
  }

  lemma TransmitChanges(d: Driver, c: ChanId, skb: Skb)
    requires WfDriver(d)
    ensures Changes(d, Transmit(c, skb), Transmitted(d, c, skb))
  {
    if skb.wantsStatus && d.ackSkb.Some? {
      assert Changes(d, Transmit(c, skb), Dropped(d, skb));
    } else if TestedFull(Get(d, c).ring) {
      assert Changes(d, Transmit(c, skb), Refused(d, skb));
    } else {
      AcceptChanges(d, c, skb, Accept(Get(d, c), skb).0);
    }
  }

  lemma AcceptChanges(d: Driver, c: ChanId, skb: Skb, ch': Channel)
    requires WfDriver(d) && !(skb.wantsStatus && d.ackSkb.Some?) && !TestedFull(Get(d, c).ring)
    ensures Changes(d, Transmit(c, skb), Accepted(d, c, skb, ch'))
  {
  }

  lemma CompleteChanges(d: Driver, c: ChanId)
    requires WfDriver(d)
    ensures Changes(d, Complete(c), Put(d, c, DmaStep(Get(d, c))))
  {
  }

  lemma AckChanges(d: Driver)
    requires WfDriver(d)
    ensures Changes(d, AckInd, TxAckInd(d))
  {
  }

  lemma BeginChanges(d: Driver, c: ChanId)
    requires WfDriver(d)
    ensures Changes(d, BeginReap(c), BeginOne(d, c))
  {
  }

  lemma ReapChanges(d: Driver, c: ChanId)
    requires WfDriver(d)
    ensures Changes(d, ReapStep(c), ReapOne(d, c))
  {
  }

  /* ---- Whole runs ---- */

  lemma {:induction false} RunTake(d: Driver, es: seq<Event>, n: nat)
    requires WfDriver(d) && n < |es|
    ensures Run(d, es[..n + 1]) == Step(Run(d, es[..n]), es[n])
  {
    assert es[..n + 1] == es[..n] + [es[n]];
    RunConcat(d, es[..n], [es[n]]);
    assert [es[n]][1..] == [];
  }

  /** The events of a run are what changes the queues, the flag and the slot. */
  lemma {:induction false} ChangesAt(d: Driver, es: seq<Event>, n: nat)
    requires SoundDriver(d) && n < |es|
    ensures Changes(Run(d, es[..n]), es[n], Run(d, es[..n + 1]))
  {
    RunKeepsSound(d, es[..n]);
    FlagsChangeExactly(Run(d, es[..n]), es[n]);
    RunTake(d, es, n);
  }

  /** For each event of a run, whether it stops the queues, and so on. */
  ghost function Stops(d: Driver, es: seq<Event>): (r: seq<bool>)
    requires WfDriver(d)
    ensures |r| == |es|
  {
    seq(|es|, i requires 0 <= i < |es| => StopsQueues(Run(d, es[..i]), es[i]))
  }

  ghost function Wakes(d: Driver, es: seq<Event>): (r: seq<bool>)
    requires WfDriver(d)
    ensures |r| == |es|
  {
    seq(|es|, i requires 0 <= i < |es| => WakesQueues(Run(d, es[..i]), es[i]))
  }

  ghost function Refuses(d: Driver, es: seq<Event>): (r: seq<bool>)
    requires WfDriver(d)
    ensures |r| == |es|
  {
    seq(|es|, i requires 0 <= i < |es| => MeetsFullRing(Run(d, es[..i]), es[i]))
  }

  ghost function Deals(d: Driver, es: seq<Event>): (r: seq<bool>)
    requires WfDriver(d)
    ensures |r| == |es|
  {
    seq(|es|, i requires 0 <= i < |es| => DealsWithFrame(Run(d, es[..i]), es[i]))
  }

  ghost function Takes(d: Driver, es: seq<Event>, x: Skb): (r: seq<bool>)
    requires WfDriver(d)
    ensures |r| == |es|
  {
    seq(|es|, i requires 0 <= i < |es| => TakesSlot(Run(d, es[..i]), es[i]) && es[i].skb == x)
  }

  function Acknowledges(es: seq<Event>): (r: seq<bool>)
    ensures |r| == |es|
  {
    seq(|es|, i requires 0 <= i < |es| => es[i] == AckInd)
  }

  lemma RunNone(d: Driver, es: seq<Event>)
    requires WfDriver(d)
    ensures Run(d, es[..0]) == d
  {
  }

  lemma StoppedNext(d: Driver, es: seq<Event>, k: nat)
    requires SoundDriver(d) && k < |es|
    ensures Run(d, es[..k + 1]).macStopped <==> Stops(d, es)[k] || (Run(d, es[..k]).macStopped && !Wakes(d, es)[k])
  {
    ChangesAt(d, es, k);
  }

  /** In every run: mac80211's queues are stopped exactly if a frame that took the slot for the
      acknowledgement or met a full ring has stopped them, and since then neither has an
      acknowledgement arrived for the slot nor a frame been reaped while the ring-full flag was set. */
  lemma {:induction false} QueuesStoppedExactly(d: Driver, es: seq<Event>, n: nat)
    requires SoundDriver(d) && n <= |es|
    ensures Run(d, es[..n]).macStopped <==> LeftSet(d.macStopped, Stops(d, es), Wakes(d, es), n)
  {
    if n == 0 {
      RunNone(d, es);
    } else {
      QueuesStoppedExactly(d, es, n - 1);
      StoppedNext(d, es, n - 1);
      LeftSetNext(d.macStopped, Stops(d, es), Wakes(d, es), n - 1);
    }
  }

  lemma FullNext(d: Driver, es: seq<Event>, k: nat)
    requires SoundDriver(d) && k < |es|
    ensures Run(d, es[..k + 1]).queuesStopped <==> Refuses(d, es)[k] || (Run(d, es[..k]).queuesStopped && !Deals(d, es)[k])
  {
    ChangesAt(d, es, k);
  }

  /** In every run: the ring-full flag is set exactly if a frame has met a full ring and no frame, of
      either ring, has been dealt with since. */
  lemma {:induction false} FlagSetExactly(d: Driver, es: seq<Event>, n: nat)
    requires SoundDriver(d) && n <= |es|
    ensures Run(d, es[..n]).queuesStopped <==> LeftSet(d.queuesStopped, Refuses(d, es), Deals(d, es), n)
  {
    if n == 0 {
      RunNone(d, es);
    } else {
      FlagSetExactly(d, es, n - 1);
      FullNext(d, es, n - 1);
      LeftSetNext(d.queuesStopped, Refuses(d, es), Deals(d, es), n - 1);
    }
  }

  lemma SlotNext(d: Driver, es: seq<Event>, k: nat, x: Skb)
    requires SoundDriver(d) && k < |es|
    ensures Run(d, es[..k + 1]).ackSkb == Some(x)
       <==> Takes(d, es, x)[k] || (Run(d, es[..k]).ackSkb == Some(x) && !Acknowledges(es)[k])
  {
    ChangesAt(d, es, k);
  }

  /** In every run: the slot for the acknowledgement belongs to the frame that has found it free, until
      the next acknowledgement, whichever frame that is meant for. */
  lemma {:induction false} SlotBelongsExactly(d: Driver, es: seq<Event>, n: nat, x: Skb)
    requires SoundDriver(d) && n <= |es|
    ensures Run(d, es[..n]).ackSkb == Some(x) <==> LeftSet(d.ackSkb == Some(x), Takes(d, es, x), Acknowledges(es), n)
  {
    if n == 0 {
      RunNone(d, es);
    } else {
      SlotBelongsExactly(d, es, n - 1, x);
      SlotNext(d, es, n - 1, x);
      LeftSetNext(d.ackSkb == Some(x), Takes(d, es, x), Acknowledges(es), n - 1);
    }
  }

  ghost predicate NeverRefused(d: Driver, es: seq<Event>)
    requires WfDriver(d)
    decreases |es|
  {
    es == [] || (!MeetsFullRing(d, es[0]) && NeverRefused(Step(d, es[0]), es[1..]))
  }

  /** A reap does not wake the queues for a frame whose status is to come: they stay stopped until the
      acknowledgement, unless a frame has met a full ring. */
  lemma {:induction false} StoppedUntilAcknowledged(d: Driver, es: seq<Event>)
    requires SoundDriver(d) && d.macStopped && d.ackSkb.Some? && !d.queuesStopped
    requires AckInd !in es && NeverRefused(d, es)
    ensures var s := Run(d, es); s.macStopped && s.ackSkb == d.ackSkb && !s.queuesStopped
    decreases |es|
  {
    if es != [] {
      assert es[0] != AckInd;
      FlagsChangeExactly(d, es[0]);
      StepKeepsSound(d, es[0]);
      StoppedUntilAcknowledged(Step(d, es[0]), es[1..]);
    }
  }

  /* ---- What has been handed over ---- */

  /** The skbs that mac80211 has handed to the driver, accepted or not. */
  ghost function HandedOver(es: seq<Event>): multiset<Skb> {
    if es == [] then multiset{}
    else (if es[0].Transmit? then multiset{es[0].skb} else multiset{}) + HandedOver(es[1..])
  }

  lemma GivenTransmitted(d: Driver, c: ChanId, skb: Skb)
    requires WfDriver(d)
    ensures Transmitted(d, c, skb).given == d.given + multiset{skb}
  {
  }

  lemma GivenStep(d: Driver, e: Event)
    requires SoundDriver(d)
    ensures Step(d, e).given == d.given + if e.Transmit? then multiset{e.skb} else multiset{}
  {
    if e.Transmit? {
      TransmitResult(d, e.ch, e.skb);
      GivenTransmitted(d, e.ch, e.skb);
    } else {
      GivenStays(d, e);
    }
  }

  lemma GivenStays(d: Driver, e: Event)
    requires WfDriver(d) && !e.Transmit?
    ensures Step(d, e).given == d.given
  {
  }

  /** The books begin with all of them. */
  lemma {:induction false} GivenIsHandedOver(d: Driver, es: seq<Event>)
    requires SoundDriver(d)
    ensures Run(d, es).given == d.given + HandedOver(es)
    decreases |es|
  {
    if es != [] {
      GivenStep(d, es[0]);
      StepKeepsSound(d, es[0]);
      GivenIsHandedOver(Step(d, es[0]), es[1..]);
    }
  }
}
