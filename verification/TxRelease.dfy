/** When the driver gives back the skbs it has been handed, under every interleaving. */
module TxRelease {
  import opened Common
  import opened Circle
  import opened TxRing
  import opened TxChannel
  import opened TxDriver

  lemma SoundReachable(d: Driver, es: seq<Event>)
    requires Boot(d)
    ensures SoundDriver(Run(d, es))
  {
    BootInv(d);
    RunKeepsSound(d, es);
  }

  /** In every run the head is on a slot with a BD buffer and the slot behind it has none; a frame
      is refused with an error only if it asks for a second outstanding status. */
  lemma BdErrorsNeverOccur(d: Driver, es: seq<Event>, c: ChanId, skb: Skb)
    requires Boot(d)
    ensures var s := Run(d, es);
            var r := Get(s, c).ring;
            && r.slots[r.head].bd != 0 && r.slots[Next(r.head, |r.slots|)].bd == 0
            && (StartTx(s, c, skb).1 == EInval <==> skb.wantsStatus && s.ackSkb.Some?)
  {
    SoundReachable(d, es);
    var s := Run(d, es);
    TxVerdict(Get(s, c).ring, skb);
    StartTxVerdict(s, c, skb);
  }

  /** What the two errors would do in any other state: without a BD at the head nothing is changed; with one
      behind the head, where there is no skb, the frame is left half sent, and the head stays. */
  lemma BdErrors(d: Driver, c: ChanId, skb: Skb)
    requires WfDriver(d) && !(skb.wantsStatus && d.ackSkb.Some?)
    ensures var (s, ret), r := StartTx(d, c, skb), Get(d, c).ring;
            var nx, r' := Next(r.head, |r.slots|), Get(s, c).ring;
            if r.slots[r.head].bd == 0 then ret == EInval && s == d
            else r.slots[nx].skb.None? && r.slots[nx].bd != 0 ==>
              && ret == EInval && r'.head == r.head && Get(s, c).accepted == Get(d, c).accepted
              && r'.slots[nx] == r.slots[nx].(skb := Some(skb))
              && r'.slots[r.head] == r.slots[r.head].(skb := None, valid := true)
  {
  }

  /* ---- The books ---- */

  /** What the books say about skbs: `rings` are the skbs stored in the rings, without one that has
      just been dealt with. */
  datatype Ledger = Ledger(given: multiset<Skb>, released: multiset<Skb>, stranded: multiset<Skb>,
                           rings: multiset<Skb>, ack: Option<Skb>)

  datatype Entry = Take(skb: Skb) | Refuse(skb: Skb) | Drop(skb: Skb) | Reaped(skb: Skb) | Ack | Nothing

  ghost function Record(d: Driver): Ledger
    requires WfDriver(d)
  {
    Ledger(d.given, d.released, d.stranded, ChannelBag(d.low, false) + ChannelBag(d.high, false), d.ackSkb)
  }

  /** What an event means for the books. */
  ghost function Booked(d: Driver, e: Event): Entry
    requires WfDriver(d)
  {
    match e
    case Transmit(c, skb) =>
      if skb.wantsStatus && d.ackSkb.Some? then Drop(skb)
      else if TestedFull(Get(d, c).ring) then Refuse(skb)
      else Take(skb)
    case AckInd => Ack
    case ReapStep(c) => Dealt(Found(Get(d, c)))
    case _ => Nothing
  }

  ghost function Dealt(found: Option<Skb>): Entry {
    if found.Some? then Reaped(found.value) else Nothing
  }

  ghost function Book(l: Ledger, e: Entry): Ledger {
    match e
    case Take(x) => l.(given := l.given + multiset{x}, rings := l.rings + multiset{x},
                       ack := if x.wantsStatus then Some(x) else l.ack)
    case Refuse(x) => l.(given := l.given + multiset{x}, released := l.released + multiset{x},
                         stranded := if x.wantsStatus then l.stranded + multiset{x} else l.stranded,
                         ack := if x.wantsStatus then Some(x) else l.ack)
    case Drop(x) => l.(given := l.given + multiset{x}, released := l.released + multiset{x})
    case Reaped(x) => l.(rings := l.rings - multiset{x},
                         released := if x.wantsStatus then l.released else l.released + multiset{x})
    case Ack => l.(released := l.released + AckOwned(l.ack), ack := None)
    case Nothing => l
  }

  lemma BookTransmit(d: Driver, c: ChanId, skb: Skb)
    requires SoundDriver(d)
    ensures Record(Transmitted(d, c, skb)) == Book(Record(d), Booked(d, Transmit(c, skb)))
    ensures Bookable(Record(d), Booked(d, Transmit(c, skb)))
  {
    if Booked(d, Transmit(c, skb)).Take? {
      AcceptBag(Get(d, c), skb, false);
      BookTaken(d, c, skb, Accept(Get(d, c), skb).0);
    }
  }

  lemma BookTaken(d: Driver, c: ChanId, skb: Skb, ch': Channel)
    requires WfDriver(d) && Wf(ch')
    requires ChannelBag(ch', false) == ChannelBag(Get(d, c), false) + multiset{skb}
    ensures Record(Accepted(d, c, skb, ch')) == Book(Record(d), Take(skb))
  {
  }

  lemma BookReaped(d: Driver, c: ChanId, skb: Skb, ch': Channel)
    requires WfDriver(d) && Wf(ch')
    requires ChannelBag(Get(d, c), false) == ChannelBag(ch', false) + multiset{skb}
    ensures Record(Release(Put(d, c, ch'), skb)) == Book(Record(d), Reaped(skb))
    ensures skb in Record(d).rings
  {
    Less(ChannelBag(ch', false), ChannelBag(Get(d, Other(c)), false), skb);
  }

  lemma Less(a: multiset<Skb>, b: multiset<Skb>, x: Skb)
    ensures (a + multiset{x}) + b - multiset{x} == a + b == b + a == b + (a + multiset{x}) - multiset{x}
  {
  }

  lemma BookQuiet(d: Driver, c: ChanId, ch': Channel)
    requires WfDriver(d) && Wf(ch') && ChannelBag(ch', false) == ChannelBag(Get(d, c), false)
    ensures Record(Put(d, c, ch')) == Record(d)
  {
  }

  lemma BookReapWith(d: Driver, c: ChanId, ch': Channel, found: Option<Skb>)
    requires WfDriver(d) && Wf(ch')
    requires ChannelBag(Get(d, c), false)
          == ChannelBag(ch', false) + if found.Some? then multiset{found.value} else multiset{}
    ensures Record(Settle(Put(d, c, ch'), found)) == Book(Record(d), Dealt(found))
    ensures Bookable(Record(d), Dealt(found))
  {
    if found.Some? {
      BookReaped(d, c, found.value, ch');
    } else {
      BookQuiet(d, c, ch');
    }
  }

  lemma BookReap(d: Driver, c: ChanId)
    requires WfDriver(d)
    ensures Record(ReapOne(d, c)) == Book(Record(d), Dealt(Found(Get(d, c))))
    ensures Bookable(Record(d), Dealt(Found(Get(d, c))))
  {
    ReapBag(Get(d, c), false);
    BookReapWith(d, c, Reap(Get(d, c)), Found(Get(d, c)));
  }

  lemma BookBegin(d: Driver, c: ChanId)
    requires WfDriver(d)
    ensures Record(BeginOne(d, c)) == Record(d)
  {
    if d.low.walk == Off && d.high.walk == Off {
      assert Unreaped(Begin(Get(d, c))) == Unreaped(Get(d, c));
      BookQuiet(d, c, Begin(Get(d, c)));
    }
  }

  lemma BookComplete(d: Driver, c: ChanId)
    requires WfDriver(d)
    ensures Record(Put(d, c, DmaStep(Get(d, c)))) == Record(d)
  {
    DmaBag(Get(d, c), false);
    BookQuiet(d, c, DmaStep(Get(d, c)));
  }

  lemma BookAck(d: Driver)
    requires WfDriver(d)
    ensures Record(TxAckInd(d)) == Book(Record(d), Ack)
  {
  }

  /** The event is entered in the books. */
  ghost predicate IsBooked(d: Driver, e: Event, s: Driver)
    requires WfDriver(d)
  {
    WfDriver(s) && Record(s) == Book(Record(d), Booked(d, e)) && Bookable(Record(d), Booked(d, e))
  }

  lemma TransmitIsBooked(d: Driver, c: ChanId, skb: Skb)
    requires SoundDriver(d)
    ensures IsBooked(d, Transmit(c, skb), TxSkb(d, c, skb))
  {
    BookTransmit(d, c, skb);
    TransmitResult(d, c, skb);
  }

  lemma ReapIsBooked(d: Driver, c: ChanId)
    requires WfDriver(d)
    ensures IsBooked(d, ReapStep(c), ReapOne(d, c))
  {
    BookReap(d, c);
    assert Booked(d, ReapStep(c)) == Dealt(Found(Get(d, c)));
  }

  lemma UnbookedIsBooked(d: Driver, e: Event, s: Driver)
    requires WfDriver(d) && WfDriver(s) && Record(s) == Record(d) && (e.Complete? || e.BeginReap?)
    ensures IsBooked(d, e, s)
  {
  }

  lemma StepIsBooked(d: Driver, e: Event)
    requires SoundDriver(d)
    ensures IsBooked(d, e, Step(d, e))
  {
    match e
    case Transmit(c, skb) => TransmitIsBooked(d, c, skb);
    case Complete(c) =>
      BookComplete(d, c);
      UnbookedIsBooked(d, e, Put(d, c, DmaStep(Get(d, c))));
    case AckInd => BookAck(d);
    case BeginReap(c) =>
      BookBegin(d, c);
      UnbookedIsBooked(d, e, BeginOne(d, c));
    case ReapStep(c) => ReapIsBooked(d, c);
  }

  /** The reaper deals only with skbs that are stored, and the slot for the acknowledgement is free
      when it is used. */
  ghost predicate Bookable(l: Ledger, e: Entry) {
    && (e.Reaped? ==> e.skb in l.rings)
    && (e.Take? || e.Refuse? ==> e.skb.wantsStatus ==> l.ack.None?)
  }

  /* ---- Conservation ---- */

  /** A status-requesting frame meets a full ring after it has got hold of the slot for the
      acknowledgement. */
  ghost predicate StatusRefused(d: Driver, e: Event)
    requires WfDriver(d)
  {
    e.Transmit? && e.skb.wantsStatus && d.ackSkb.None? && TestedFull(Get(d, e.ch).ring)
  }

  ghost predicate NeverStranded(d: Driver, es: seq<Event>)
    requires WfDriver(d)
    decreases |es|
  {
    es == [] || (!StatusRefused(d, es[0]) && NeverStranded(Step(d, es[0]), es[1..]))
  }

  lemma StrandedStep(d: Driver, e: Event)
    requires SoundDriver(d)
    ensures SoundDriver(Step(d, e))
    ensures Step(d, e).stranded == d.stranded + if StatusRefused(d, e) then multiset{e.skb} else multiset{}
  {
    StepKeepsSound(d, e);
    StepIsBooked(d, e);
    RefusedMeans(d, e);
    StrandedEntry(Record(d), Booked(d, e));
    assert Record(Step(d, e)).stranded == Step(d, e).stranded;
  }

  lemma RefusedMeans(d: Driver, e: Event)
    requires WfDriver(d)
    ensures StatusRefused(d, e) <==> Booked(d, e).Refuse? && Booked(d, e).skb.wantsStatus
    ensures StatusRefused(d, e) ==> Booked(d, e).skb == e.skb
    ensures AckedEarly(d, e) <==> Booked(d, e).Ack? && d.ackSkb.Some? && d.ackSkb.value in Record(d).rings
  {
  }

  lemma StrandedEntry(l: Ledger, e: Entry)
    ensures Book(l, e).stranded
         == l.stranded + if e.Refuse? && e.skb.wantsStatus then multiset{e.skb} else multiset{}
  {
  }

  lemma {:induction false} StrandedExactly(d: Driver, es: seq<Event>)
    requires SoundDriver(d)
    ensures d.stranded <= Run(d, es).stranded
    ensures Run(d, es).stranded == d.stranded <==> NeverStranded(d, es)
    decreases |es|
  {
    if es != [] {
      StrandedStep(d, es[0]);
      StrandedExactly(Step(d, es[0]), es[1..]);
      if StatusRefused(d, es[0]) {
        assert d.stranded[es[0].skb] < Run(d, es).stranded[es[0].skb];
      }
    }
  }

  /** Conservation: what was handed to the driver has been released, or is stored in a ring for the
      reaper to release, or waits for its acknowledgement. It holds after a run if and only if no
      status-requesting frame was refused on a full ring. */
  lemma {:induction false} NothingLostOrDoubled(d: Driver, es: seq<Event>)
    requires Boot(d)
    ensures var s := Run(d, es); s.given == s.released + InFlight(s) <==> NeverStranded(d, es)
  {
    BootInv(d);
    SoundReachable(d, es);
    StrandedExactly(d, es);
    var s := Run(d, es);
    BalancedExactly(s.given, s.stranded, s.released + InFlight(s));
  }

  lemma BalancedExactly(given: multiset<Skb>, stranded: multiset<Skb>, rest: multiset<Skb>)
    requires given + stranded == rest
    ensures given == rest <==> stranded == multiset{}
  {
    if given == rest {
      forall x: Skb ensures stranded[x] == 0 {
        assert (given + stranded)[x] == given[x] + stranded[x];
      }
    }
  }

  /** Exactly once: when every skb handed over is a different one, no skb is ever released twice, or
      released and still to be released, if and only if no status-requesting frame was refused on
      a full ring; each skb that is not to be released any more has been released. */
  lemma {:induction false} ReleasedExactlyOnce(d: Driver, es: seq<Event>)
    requires Boot(d)
    requires forall x: Skb :: Run(d, es).given[x] <= 1
    ensures var s := Run(d, es);
            && (NeverStranded(d, es) <==> forall x: Skb :: s.released[x] + InFlight(s)[x] <= 1)
            && forall x: Skb :: x in s.given && x !in InFlight(s) ==> s.released[x] >= 1
  {
    BootInv(d);
    BootTracked(d);
    SoundReachable(d, es);
    StrandedExactly(d, es);
    RunKeepsTracked(d, es);
    var s := Run(d, es);
    forall x: Skb ensures s.given[x] + s.stranded[x] == s.released[x] + InFlight(s)[x] {
      assert (s.given + s.stranded)[x] == (s.released + InFlight(s))[x];
    }
    if s.stranded != multiset{} {
      var x :| x in s.stranded;
      assert s.given[x] == 1;
      assert s.released[x] + InFlight(s)[x] > 1;
    }
  }

  /** What goes wrong otherwise: the acknowledgement releases the refused frame a second time. */
  lemma RefusedStatusFrameIsReleasedTwice(d: Driver, c: ChanId, skb: Skb)
    requires SoundDriver(d) && StatusRefused(d, Transmit(c, skb))
    ensures Run(d, [Transmit(c, skb), AckInd]).released[skb] >= 2
  {
    var d1 := Step(d, Transmit(c, skb));
    TransmitResult(d, c, skb);
    assert [Transmit(c, skb), AckInd][1..] == [AckInd];
    AckReleases(d1, skb);
  }

  lemma AckReleases(d: Driver, skb: Skb)
    requires WfDriver(d) && d.ackSkb == Some(skb)
    ensures Run(d, [AckInd]).released[skb] == d.released[skb] + 1
  {
    assert [AckInd][1..] == [];
    assert Run(d, [AckInd]) == TxAckInd(d);
  }

  /* ---- Pointers to released skbs ---- */

  /** No pointer in a ring, outside the short time between release and clearing, and no
      `tx_ack_skb` refers to an skb that has been released. */
  ghost predicate NoneDangling(l: Ledger) {
    forall x: Skb :: x in l.released ==> x !in l.rings && l.ack != Some(x)
  }

  ghost predicate NeverDangling(d: Driver, es: seq<Event>)
    requires WfDriver(d)
    decreases |es|
  {
    NoneDangling(Record(d)) && (es != [] ==> NeverDangling(Step(d, es[0]), es[1..]))
  }

  /** The acknowledgement of a frame comes before its ring slot has been reaped. */
  ghost predicate AckedEarly(d: Driver, e: Event)
    requires WfDriver(d)
  {
    e.AckInd? && d.ackSkb.Some? && d.ackSkb.value in Record(d).rings
  }

  ghost predicate NeverAckedEarly(d: Driver, es: seq<Event>)
    requires WfDriver(d)
    decreases |es|
  {
    es == [] || (!AckedEarly(d, es[0]) && NeverAckedEarly(Step(d, es[0]), es[1..]))
  }

  /** Everything the books mention has been handed to the driver. */
  ghost predicate Tracked(l: Ledger) {
    && l.rings <= l.given && l.stranded <= l.given
    && (forall x: Skb :: x in l.released ==> x in l.given)
    && (l.ack.Some? ==> l.ack.value.wantsStatus && l.ack.value in l.given)
  }

  lemma GivenKeepsTracked(l: Ledger, e: Entry)
    requires Tracked(l) && Bookable(l, e) && (e.Take? || e.Refuse? || e.Drop?)
    ensures Tracked(Book(l, e)) && l.given <= Book(l, e).given
  {
  }

  lemma ReapedKeepsTracked(l: Ledger, x: Skb)
    requires Tracked(l) && x in l.rings
    ensures Tracked(Book(l, Reaped(x)))
  {
  }

  lemma AckKeepsTracked(l: Ledger)
    requires Tracked(l)
    ensures Tracked(Book(l, Ack))
  {
  }

  lemma BookKeepsTracked(l: Ledger, e: Entry)
    requires Tracked(l) && Bookable(l, e)
    ensures Tracked(Book(l, e)) && l.given <= Book(l, e).given
  {
    match e
    case Reaped(x) => ReapedKeepsTracked(l, x);
    case Ack => AckKeepsTracked(l);
    case Nothing =>
    case _ => GivenKeepsTracked(l, e);
  }

  lemma TrackedStep(d: Driver, e: Event)
    requires SoundDriver(d) && Tracked(Record(d))
    ensures SoundDriver(Step(d, e)) && Tracked(Record(Step(d, e))) && d.given <= Step(d, e).given
  {
    StepKeepsSound(d, e);
    StepIsBooked(d, e);
    BookKeepsTracked(Record(d), Booked(d, e));
    assert Record(Step(d, e)).given == Step(d, e).given;
  }

  lemma {:induction false} RunKeepsTracked(d: Driver, es: seq<Event>)
    requires SoundDriver(d) && Tracked(Record(d))
    ensures WfDriver(Run(d, es)) && Tracked(Record(Run(d, es))) && d.given <= Run(d, es).given
    decreases |es|
  {
    if es != [] {
      TrackedStep(d, es[0]);
      RunKeepsTracked(Step(d, es[0]), es[1..]);
    }
  }

  lemma BootTracked(d: Driver)
    requires Boot(d)
    ensures SoundDriver(d) && Tracked(Record(d)) && NoneDangling(Record(d))
  {
    BootInv(d);
    EmptyBag(d.low.ring.slots, false);
    EmptyBag(d.high.ring.slots, false);
  }

  /** With distinct skbs there are two entries that leave a pointer to a released skb. */
  lemma DanglingEntry(l: Ledger, e: Entry)
    requires Tracked(l) && Bookable(l, e) && NoneDangling(l) && forall x: Skb :: Book(l, e).given[x] <= 1
    ensures NoneDangling(Book(l, e))
       <==> !(e.Refuse? && e.skb.wantsStatus) && !(e.Ack? && l.ack.Some? && l.ack.value in l.rings)
  {
    var l' := Book(l, e);
    if e.Refuse? && e.skb.wantsStatus {
      assert e.skb in l'.released && l'.ack == Some(e.skb);
    } else if e.Ack? && l.ack.Some? && l.ack.value in l.rings {
      assert l.ack.value in l'.released && l.ack.value in l'.rings;
    } else {
      forall x: Skb | x in l'.released ensures x !in l'.rings && l'.ack != Some(x) {
        assert l'.given[x] <= 1;
      }
    }
  }

  lemma DanglingStep(d: Driver, e: Event)
    requires SoundDriver(d) && Tracked(Record(d)) && NoneDangling(Record(d))
    requires forall x: Skb :: Step(d, e).given[x] <= 1
    ensures NoneDangling(Record(Step(d, e))) <==> !StatusRefused(d, e) && !AckedEarly(d, e)
  {
    StepIsBooked(d, e);
    RefusedMeans(d, e);
    assert Record(Step(d, e)).given == Step(d, e).given;
    DanglingEntry(Record(d), Booked(d, e));
  }

  lemma {:induction false} DanglingExactly(d: Driver, es: seq<Event>)
    requires SoundDriver(d) && Tracked(Record(d)) && NoneDangling(Record(d))
    requires forall x: Skb :: Run(d, es).given[x] <= 1
    ensures NeverDangling(d, es) <==> NeverStranded(d, es) && NeverAckedEarly(d, es)
    decreases |es|
  {
    if es != [] {
      var s := Step(d, es[0]);
      TrackedStep(d, es[0]);
      RunKeepsTracked(s, es[1..]);
      assert forall x: Skb :: s.given[x] <= Run(d, es).given[x];
      DanglingStep(d, es[0]);
      if NoneDangling(Record(s)) {
        DanglingExactly(s, es[1..]);
      }
    }
  }

  /** When every skb handed over is a different one, the driver never keeps a pointer to an skb it
      has released, at any point of a run, if and only if no status-requesting frame is refused on
      a full ring and no acknowledgement comes before the reap of its frame. */
  lemma {:induction false} NeverDanglingExactly(d: Driver, es: seq<Event>)
    requires Boot(d)
    requires forall x: Skb :: Run(d, es).given[x] <= 1
    ensures NeverDangling(d, es) <==> NeverStranded(d, es) && NeverAckedEarly(d, es)
  {
    BootTracked(d);
    DanglingExactly(d, es);
  }
}
