/** The transmit side of the driver as one transition system (dxe.c, txrx.c, main.c).

    Two channels share the `queues_stopped` flag and the single `tx_ack_skb` slot. mac80211 hands
    over frames, the DMA engine completes descriptors, the firmware acknowledges, and the
    interrupt handler reaps; any of them may step between any two steps of a reap.
 */
module TxDriver {
  import opened Common
  import opened Circle
  import opened TxRing
  import opened TxChannel

  datatype ChanId = Low | High

  /** `macStopped` is the state of the mac80211 queues. The last three fields are history: every
      skb handed to the driver, every skb it has given back, and every status-requesting skb it
      refused because a ring was full. */
  datatype Driver = Driver(low: Channel, high: Channel,
                           queuesStopped: bool, macStopped: bool, ackSkb: Option<Skb>,
                           given: multiset<Skb>, released: multiset<Skb>, stranded: multiset<Skb>)

  datatype Event =
    | Transmit(ch: ChanId, skb: Skb)
    | Complete(ch: ChanId)
    | AckInd
    | BeginReap(ch: ChanId)
    | ReapStep(ch: ChanId)

  function Get(d: Driver, c: ChanId): Channel {
    if c == Low then d.low else d.high
  }

  function Put(d: Driver, c: ChanId, ch: Channel): Driver {
    if c == Low then d.(low := ch) else d.(high := ch)
  }

  function Other(c: ChanId): ChanId {
    if c == Low then High else Low
  }

  predicate WfDriver(d: Driver) {
    Wf(d.low) && Wf(d.high)
  }

  /* ---- Transitions ---- */

  /** `wcn36xx_dxe_tx_frame`. */
  function TxFrame(d: Driver, c: ChanId, skb: Skb): (res: (Driver, Ret))
    requires WfDriver(d)
    ensures WfDriver(res.0)
  {
    var (ch', ret) := Accept(Get(d, c), skb);
    (Put(d, c, ch').(queuesStopped := d.queuesStopped || ret == EBusy,
                     macStopped := d.macStopped || ret == EBusy), ret)
  }

  /** `wcn36xx_start_tx`: only one status request can be outstanding, and while it is, the
      mac80211 queues are stopped. */
  function StartTx(d: Driver, c: ChanId, skb: Skb): (res: (Driver, Ret))
    requires WfDriver(d)
    ensures WfDriver(res.0)
  {
    var ring := Get(d, c).ring;
    if ring.slots[ring.head].bd == 0 then
      (d, EInval)
    else if skb.wantsStatus && d.ackSkb.Some? then
      (d, EInval)
    else if skb.wantsStatus then
      TxFrame(d.(ackSkb := Some(skb), macStopped := true), c, skb)
    else
      TxFrame(d, c, skb)
  }

  /** `wcn36xx_tx`: the skb is freed here if it was not accepted. */
  function TxSkb(d: Driver, c: ChanId, skb: Skb): (d': Driver)
    requires WfDriver(d)
    ensures WfDriver(d')
  {
    var (d1, ret) := StartTx(d, c, skb);
    var d2 := d1.(given := d.given + multiset{skb});
    if ret == Ok then d2
    else if ret == EBusy && skb.wantsStatus then
      d2.(released := d.released + multiset{skb}, stranded := d.stranded + multiset{skb})
    else
      d2.(released := d.released + multiset{skb})
  }

  /** `wcn36xx_dxe_tx_ack_ind`. */
  function TxAckInd(d: Driver): (d': Driver)
    requires WfDriver(d)
    ensures WfDriver(d')
  {
    if d.ackSkb.None? then d
    else d.(ackSkb := None, released := d.released + multiset{d.ackSkb.value}, macStopped := false)
  }

  /** What the loop body of `reap_tx_dxes` does with the skb it finds: it is freed unless its TX
      status is still to come, and the queues are woken if the ring-full flag is set. */
  function Release(d: Driver, skb: Skb): (d': Driver)
    requires WfDriver(d)
    ensures WfDriver(d')
  {
    d.(released := if skb.wantsStatus then d.released else d.released + multiset{skb},
       queuesStopped := false,
       macStopped := if d.queuesStopped then false else d.macStopped)
  }

  /** One step of `reap_tx_dxes`. */
  function ReapOne(d: Driver, c: ChanId): (d': Driver)
    requires WfDriver(d)
    ensures WfDriver(d')
  {
    Settle(Put(d, c, Reap(Get(d, c))), Found(Get(d, c)))
  }

  function Settle(d: Driver, found: Option<Skb>): (d': Driver)
    requires WfDriver(d)
    ensures WfDriver(d')
  {
    if found.Some? then Release(d, found.value) else d
  }

  /** The interrupt handler serves one channel at a time and is never entered twice. */
  function BeginOne(d: Driver, c: ChanId): (d': Driver)
    requires WfDriver(d)
    ensures WfDriver(d')
  {
    if d.low.walk == Off && d.high.walk == Off then Put(d, c, Begin(Get(d, c))) else d
  }

  function Step(d: Driver, e: Event): (d': Driver)
    requires WfDriver(d)
    ensures WfDriver(d')
  {
    match e
    case Transmit(c, skb) => TxSkb(d, c, skb)
    case Complete(c) => Put(d, c, DmaStep(Get(d, c)))
    case AckInd => TxAckInd(d)
    case BeginReap(c) => BeginOne(d, c)
    case ReapStep(c) => ReapOne(d, c)
  }

  function Run(d: Driver, es: seq<Event>): (d': Driver)
    requires WfDriver(d)
    ensures WfDriver(d')
    decreases |es|
  {
    if es == [] then d else Run(Step(d, es[0]), es[1..])
  }

  lemma {:induction false} RunConcat(d: Driver, es: seq<Event>, fs: seq<Event>)
    requires WfDriver(d)
    ensures Run(d, es + fs) == Run(Run(d, es), fs)
    decreases |es|
  {
    if es == [] {
      assert es + fs == fs;
    } else {
      assert (es + fs)[1..] == es[1..] + fs;
      RunConcat(Step(d, es[0]), es[1..], fs);
    }
  }

  /** The state after `wcn36xx_dxe_init`. */
  ghost predicate Boot(d: Driver) {
    && CleanChannel(d.low) && CleanChannel(d.high)
    && !d.queuesStopped && !d.macStopped && d.ackSkb == None
    && d.given == multiset{} && d.released == multiset{} && d.stranded == multiset{}
  }

  /** The restriction on the interleaving, see RoomAhead. */
  predicate Orderly(d: Driver, e: Event)
    requires WfDriver(d)
  {
    e.Transmit? ==> RoomAhead(Get(d, e.ch))
  }

  predicate OrderlyRun(d: Driver, es: seq<Event>)
    requires WfDriver(d)
    decreases |es|
  {
    es == [] || (Orderly(d, es[0]) && OrderlyRun(Step(d, es[0]), es[1..]))
  }

  /* ---- The skbs the driver has to give back ---- */

  /** What a slot contributes: its skb, or with `plain` only one whose release is not left to the
      acknowledgement. */
  ghost function Share(s: Slot, plain: bool): multiset<Skb> {
    if s.skb.None? || (plain && s.skb.value.wantsStatus) then multiset{} else multiset{s.skb.value}
  }

  ghost function Bag(slots: seq<Slot>, plain: bool): multiset<Skb> {
    if slots == [] then multiset{} else Share(slots[0], plain) + Bag(slots[1..], plain)
  }

  lemma {:induction false} BagUpdate(slots: seq<Slot>, i: nat, x: Slot, plain: bool)
    requires i < |slots|
    ensures Bag(slots[i := x], plain) + Share(slots[i], plain) == Bag(slots, plain) + Share(x, plain)
  {
    if i == 0 {
      assert slots[i := x][1..] == slots[1..];
    } else {
      var rest := slots[1..];
      assert slots[i := x][1..] == rest[i - 1 := x];
      BagUpdate(rest, i - 1, x, plain);
      RegroupBags(Share(slots[0], plain), Bag(rest[i - 1 := x], plain), Share(slots[i], plain));
      RegroupBags(Share(slots[0], plain), Bag(rest, plain), Share(x, plain));
    }
  }

  lemma RegroupBags(a: multiset<Skb>, b: multiset<Skb>, c: multiset<Skb>)
    ensures (a + b) + c == a + (b + c)
  {
  }

  lemma {:induction false} BagOfPointers(a: seq<Slot>, b: seq<Slot>, plain: bool)
    requires |a| == |b| && forall k :: 0 <= k < |a| ==> a[k].skb == b[k].skb
    ensures Bag(a, plain) == Bag(b, plain)
  {
    if a != [] {
      BagOfPointers(a[1..], b[1..], plain);
    }
  }

  lemma {:induction false} BagMember(slots: seq<Slot>, x: Skb)
    ensures x in Bag(slots, false) <==> exists i :: 0 <= i < |slots| && slots[i].skb == Some(x)
  {
    if slots != [] {
      BagMember(slots[1..], x);
      if i :| 0 <= i < |slots| && slots[i].skb == Some(x) {
        assert i > 0 ==> slots[i] == slots[1..][i - 1];
      }
      if x in Bag(slots[1..], false) {
        var i :| 0 <= i < |slots[1..]| && slots[1..][i].skb == Some(x);
        assert slots[i + 1].skb == Some(x);
      }
    }
  }

  /** What a channel holds and has not dealt with. */
  ghost function ChannelBag(ch: Channel, plain: bool): multiset<Skb>
    requires Wf(ch)
  {
    Bag(Unreaped(ch), plain)
  }

  ghost function SkbShare(skb: Skb, plain: bool): multiset<Skb> {
    Share(Slot(false, Some(skb), 0), plain)
  }

  lemma AcceptBag(ch: Channel, skb: Skb, plain: bool)
    requires SoundChannel(ch) && !TestedFull(ch.ring)
    ensures ChannelBag(Accept(ch, skb).0, plain) == ChannelBag(ch, plain) + SkbShare(skb, plain)
  {
    AcceptPointers(ch, skb);
    var s, s', i := Unreaped(ch), Unreaped(Accept(ch, skb).0), ch.ring.head + 1;
    var x := s[i].(skb := Some(skb));
    BagUpdate(s, i, x, plain);
    BagOfPointers(s[i := x], s', plain);
  }

  /** A frame accepted changes one skb pointer. */
  lemma AcceptPointers(ch: Channel, skb: Skb)
    requires SoundChannel(ch) && !TestedFull(ch.ring)
    ensures var s, s', i := Unreaped(ch), Unreaped(Accept(ch, skb).0), ch.ring.head + 1;
            && i < |s| == |s'| && s[i].skb.None? && s'[i].skb == Some(skb)
            && forall k :: 0 <= k < |s| && k != i ==> s'[k].skb == s[k].skb
  {
    SoundAccept(ch, skb);
    TxVerdict(ch.ring, skb);
  }

  lemma DmaBag(ch: Channel, plain: bool)
    requires Wf(ch)
    ensures ChannelBag(DmaStep(ch), plain) == ChannelBag(ch, plain)
  {
    BagOfPointers(Unreaped(ch), Unreaped(DmaStep(ch)), plain);
  }

  lemma ReapBag(ch: Channel, plain: bool)
    requires Wf(ch)
    ensures ChannelBag(ch, plain)
         == ChannelBag(Reap(ch), plain) + if Found(ch).Some? then SkbShare(Found(ch).value, plain) else multiset{}
  {
    if Found(ch).Some? {
      BagUpdate(ch.ring.slots, ch.walk.cur, ch.ring.slots[ch.walk.cur].(skb := None), plain);
    } else {
      assert Unreaped(Reap(ch)) == Unreaped(ch);
    }
  }

  ghost function AckOwned(ack: Option<Skb>): multiset<Skb> {
    if ack.Some? then multiset{ack.value} else multiset{}
  }

  /** Every skb the driver still has to give back. */
  ghost function InFlight(d: Driver): multiset<Skb>
    requires WfDriver(d)
  {
    ChannelBag(d.low, true) + ChannelBag(d.high, true) + AckOwned(d.ackSkb)
  }

  /* ---- What holds under every interleaving ---- */

  /** No skb appears or disappears; the status frames refused on a full ring count twice, because
      `tx_ack_skb` goes on pointing at them after they have been freed. */
  ghost predicate Balanced(d: Driver)
    requires WfDriver(d)
  {
    d.given + d.stranded == d.released + InFlight(d)
  }

  /** An acknowledgement is due: `tx_ack_skb` refers to a frame that a ring has taken. (After a
      status frame has been refused on a full ring, it refers to one that is never sent.) */
  predicate AckDue(d: Driver) {
    d.ackSkb.Some? && (d.ackSkb.value in d.low.accepted || d.ackSkb.value in d.high.accepted)
  }

  /** mac80211's queues are stopped for a reason. */
  predicate Explained(d: Driver) {
    d.macStopped ==> d.queuesStopped || AckDue(d)
  }

  ghost predicate SoundDriver(d: Driver) {
    && SoundChannel(d.low) && SoundChannel(d.high)
    && (d.low.walk == Off || d.high.walk == Off)
    && Balanced(d) && Explained(d)
  }

  /** Changing the books on both sides by the same amount keeps them balanced. */
  lemma Books(given: multiset<Skb>, stranded: multiset<Skb>, released: multiset<Skb>, flight: multiset<Skb>,
              given': multiset<Skb>, stranded': multiset<Skb>, released': multiset<Skb>, flight': multiset<Skb>)
    requires given + stranded == released + flight
    requires forall x: Skb :: given'[x] + stranded'[x] + released[x] + flight[x]
                           == given[x] + stranded[x] + released'[x] + flight'[x]
    ensures given' + stranded' == released' + flight'
  {
    forall x: Skb ensures (given' + stranded')[x] == (released' + flight')[x] {
      assert (given + stranded)[x] == (released + flight)[x];
    }
  }

  /** When a transmit fails and how. The errors for a missing and for a misplaced BD buffer never
      occur. */
  lemma StartTxVerdict(d: Driver, c: ChanId, skb: Skb)
    requires SoundDriver(d)
    ensures StartTx(d, c, skb).1 ==
            if skb.wantsStatus && d.ackSkb.Some? then EInval
            else if TestedFull(Get(d, c).ring) then EBusy
            else Ok
  {
    TxVerdict(Get(d, c).ring, skb);
    SoundAccept(Get(d, c), skb);
  }

  /** The slot for the acknowledgement after a frame has got past the check of that slot. */
  function AckAfter(d: Driver, skb: Skb): Option<Skb> {
    if skb.wantsStatus then Some(skb) else d.ackSkb
  }

  /** The new state when the acknowledgement slot is taken. */
  function Dropped(d: Driver, skb: Skb): Driver {
    d.(given := d.given + multiset{skb}, released := d.released + multiset{skb})
  }

  /** The new state when the ring is full. */
  function Refused(d: Driver, skb: Skb): Driver {
    d.(queuesStopped := true, macStopped := true, ackSkb := AckAfter(d, skb),
       given := d.given + multiset{skb}, released := d.released + multiset{skb},
       stranded := if skb.wantsStatus then d.stranded + multiset{skb} else d.stranded)
  }

  /** The new state when the ring takes the frame and becomes `ch'`. */
  function Accepted(d: Driver, c: ChanId, skb: Skb, ch': Channel): Driver {
    Put(d, c, ch').(macStopped := d.macStopped || skb.wantsStatus,
                    ackSkb := AckAfter(d, skb), given := d.given + multiset{skb})
  }

  /** The new state in each of the three cases. */
  function Transmitted(d: Driver, c: ChanId, skb: Skb): (d': Driver)
    requires WfDriver(d)
    ensures WfDriver(d')
  {
    if skb.wantsStatus && d.ackSkb.Some? then Dropped(d, skb)
    else if TestedFull(Get(d, c).ring) then Refused(d, skb)
    else Accepted(d, c, skb, Accept(Get(d, c), skb).0)
  }

  lemma DroppedResult(d: Driver, c: ChanId, skb: Skb)
    requires WfDriver(d) && skb.wantsStatus && d.ackSkb.Some?
    ensures TxSkb(d, c, skb) == Dropped(d, skb)
  {
  }

  lemma FrameResult(d: Driver, c: ChanId, skb: Skb)
    requires WfDriver(d) && SoundChannel(Get(d, c))
    ensures TxFrame(d, c, skb) ==
            if TestedFull(Get(d, c).ring) then (d.(queuesStopped := true, macStopped := true), EBusy)
            else (Put(d, c, Accept(Get(d, c), skb).0), Ok)
  {
    TxVerdict(Get(d, c).ring, skb);
    SoundAccept(Get(d, c), skb);
  }

  lemma StartedResult(d: Driver, c: ChanId, skb: Skb) returns (d1: Driver)
    requires WfDriver(d) && SoundChannel(Get(d, c)) && !(skb.wantsStatus && d.ackSkb.Some?)
    ensures d1 == d.(ackSkb := AckAfter(d, skb), macStopped := d.macStopped || skb.wantsStatus)
    ensures StartTx(d, c, skb) == TxFrame(d1, c, skb)
  {
    TxVerdict(Get(d, c).ring, skb);
    d1 := d.(ackSkb := AckAfter(d, skb), macStopped := d.macStopped || skb.wantsStatus);
  }

  lemma StartedTransmits(d: Driver, c: ChanId, skb: Skb)
    requires WfDriver(d) && SoundChannel(Get(d, c)) && !(skb.wantsStatus && d.ackSkb.Some?)
    ensures TxSkb(d, c, skb) == Transmitted(d, c, skb)
  {
    var d1 := StartedResult(d, c, skb);
    FrameResult(d1, c, skb);
  }

  lemma TransmitResult(d: Driver, c: ChanId, skb: Skb)
    requires SoundDriver(d)
    ensures TxSkb(d, c, skb) == Transmitted(d, c, skb)
  {
    if skb.wantsStatus && d.ackSkb.Some? {
      DroppedResult(d, c, skb);
    } else {
      StartedTransmits(d, c, skb);
    }
  }

  lemma TransmitKeepsSound(d: Driver, c: ChanId, skb: Skb)
    requires SoundDriver(d)
    ensures SoundDriver(Transmitted(d, c, skb))
  {
    if skb.wantsStatus && d.ackSkb.Some? {
      DroppedKeepsSound(d, skb);
    } else if TestedFull(Get(d, c).ring) {
      RefusedKeepsSound(d, skb);
    } else {
      SoundAccept(Get(d, c), skb);
      AcceptBag(Get(d, c), skb, true);
      AcceptedKeepsSound(d, c, skb, Accept(Get(d, c), skb).0);
    }
  }

  lemma DroppedKeepsSound(d: Driver, skb: Skb)
    requires SoundDriver(d)
    ensures SoundDriver(Dropped(d, skb))
  {
    var d' := Dropped(d, skb);
    Books(d.given, d.stranded, d.released, InFlight(d), d'.given, d'.stranded, d'.released, InFlight(d'));
  }

  lemma RefusedKeepsSound(d: Driver, skb: Skb)
    requires SoundDriver(d) && (skb.wantsStatus ==> d.ackSkb.None?)
    ensures SoundDriver(Refused(d, skb))
  {
    var d' := Refused(d, skb);
    Books(d.given, d.stranded, d.released, InFlight(d), d'.given, d'.stranded, d'.released, InFlight(d'));
  }

  lemma AcceptedKeepsSound(d: Driver, c: ChanId, skb: Skb, ch': Channel)
    requires SoundDriver(d) && (skb.wantsStatus ==> d.ackSkb.None?)
    requires SoundChannel(ch') && (Get(d, c).walk == Off ==> ch'.walk == Off)
    requires ch'.accepted == Get(d, c).accepted + [skb]
    requires ChannelBag(ch', true) == ChannelBag(Get(d, c), true) + SkbShare(skb, true)
    ensures SoundDriver(Accepted(d, c, skb, ch'))
  {
    var d' := Accepted(d, c, skb, ch');
    Books(d.given, d.stranded, d.released, InFlight(d), d'.given, d'.stranded, d'.released, InFlight(d'));
  }

  lemma QuietKeepsSound(d: Driver, c: ChanId, ch': Channel)
    requires SoundDriver(d) && SoundChannel(ch') && (Get(d, Other(c)).walk == Off || ch'.walk == Off)
    requires ch'.accepted == Get(d, c).accepted
    requires ChannelBag(ch', true) == ChannelBag(Get(d, c), true)
    ensures SoundDriver(Put(d, c, ch'))
  {
  }

  lemma ReleaseKeepsSound(d: Driver, c: ChanId, skb: Skb, ch': Channel)
    requires SoundDriver(d) && SoundChannel(ch') && Get(d, Other(c)).walk == Off
    requires ch'.accepted == Get(d, c).accepted
    requires ChannelBag(Get(d, c), true) == ChannelBag(ch', true) + SkbShare(skb, true)
    ensures SoundDriver(Release(Put(d, c, ch'), skb))
  {
    var d' := Release(Put(d, c, ch'), skb);
    Books(d.given, d.stranded, d.released, InFlight(d), d'.given, d'.stranded, d'.released, InFlight(d'));
  }

  lemma ReapKeepsSound(d: Driver, c: ChanId)
    requires SoundDriver(d)
    ensures SoundDriver(ReapOne(d, c))
  {
    var ch := Get(d, c);
    ReapAlone(ch);
    if Found(ch).Some? {
      ReleaseKeepsSound(d, c, Found(ch).value, Reap(ch));
    } else {
      QuietKeepsSound(d, c, Reap(ch));
    }
  }

  lemma ReapAlone(ch: Channel)
    requires SoundChannel(ch)
    ensures SoundChannel(Reap(ch)) && Reap(ch).accepted == ch.accepted && (ch.walk == Off ==> Reap(ch).walk == Off)
    ensures ChannelBag(ch, true)
         == ChannelBag(Reap(ch), true) + if Found(ch).Some? then SkbShare(Found(ch).value, true) else multiset{}
    ensures Found(ch).Some? ==> ch.walk != Off
  {
    SoundReap(ch);
    ReapBag(ch, true);
  }

  lemma StepKeepsSound(d: Driver, e: Event)
    requires SoundDriver(d)
    ensures SoundDriver(Step(d, e))
  {
    match e
    case Transmit(c, skb) =>
      TransmitResult(d, c, skb);
      TransmitKeepsSound(d, c, skb);
    case Complete(c) => CompleteKeepsSound(d, c);
    case AckInd => AckKeepsSound(d);
    case BeginReap(c) => BeginKeepsSound(d, c);
    case ReapStep(c) => ReapKeepsSound(d, c);
  }

  lemma CompleteKeepsSound(d: Driver, c: ChanId)
    requires SoundDriver(d)
    ensures SoundDriver(Put(d, c, DmaStep(Get(d, c))))
  {
    SoundDma(Get(d, c));
    DmaBag(Get(d, c), true);
    QuietKeepsSound(d, c, DmaStep(Get(d, c)));
  }

  lemma BeginKeepsSound(d: Driver, c: ChanId)
    requires SoundDriver(d)
    ensures SoundDriver(BeginOne(d, c))
  {
    if d.low.walk == Off && d.high.walk == Off {
      assert Unreaped(Begin(Get(d, c))) == Unreaped(Get(d, c));
      QuietKeepsSound(d, c, Begin(Get(d, c)));
    }
  }

  lemma AckKeepsSound(d: Driver)
    requires SoundDriver(d)
    ensures SoundDriver(TxAckInd(d))
  {
    var d' := TxAckInd(d);
    Books(d.given, d.stranded, d.released, InFlight(d), d'.given, d'.stranded, d'.released, InFlight(d'));
  }

  lemma {:induction false} RunKeepsSound(d: Driver, es: seq<Event>)
    requires SoundDriver(d)
    ensures SoundDriver(Run(d, es))
    decreases |es|
  {
    if es != [] {
      StepKeepsSound(d, es[0]);
      RunKeepsSound(Step(d, es[0]), es[1..]);
    }
  }

  lemma {:induction false} EmptyBag(slots: seq<Slot>, plain: bool)
    requires forall k :: 0 <= k < |slots| ==> slots[k].skb.None?
    ensures Bag(slots, plain) == multiset{}
  {
    if slots != [] {
      EmptyBag(slots[1..], plain);
    }
  }

  /* ---- What a step does to the channels ---- */

  /** The channel that an event is about; an acknowledgement is about neither. */
  function Concerned(e: Event): ChanId {
    if e == AckInd then Low else e.ch
  }

  function ChannelAfter(d: Driver, e: Event): (ch': Channel)
    requires WfDriver(d)
    ensures Wf(ch')
  {
    var ch := Get(d, Concerned(e));
    match e
    case Transmit(c, skb) =>
      if (skb.wantsStatus && d.ackSkb.Some?) || TestedFull(ch.ring) then ch else Accept(ch, skb).0
    case Complete(c) => DmaStep(ch)
    case AckInd => ch
    case BeginReap(c) => if d.low.walk == Off && d.high.walk == Off then Begin(ch) else ch
    case ReapStep(c) => Reap(ch)
  }

  /** The event changes its own channel like that, and the other channel not at all. */
  ghost predicate ConcernsOne(d: Driver, e: Event, s: Driver)
    requires WfDriver(d)
  {
    Get(s, Concerned(e)) == ChannelAfter(d, e) && Get(s, Other(Concerned(e))) == Get(d, Other(Concerned(e)))
  }

  lemma CompleteConcerns(d: Driver, c: ChanId)
    requires WfDriver(d)
    ensures ConcernsOne(d, Complete(c), Put(d, c, DmaStep(Get(d, c))))
  {
  }

  lemma BeginConcerns(d: Driver, c: ChanId)
    requires WfDriver(d)
    ensures ConcernsOne(d, BeginReap(c), BeginOne(d, c))
  {
  }

  lemma ReapConcerns(d: Driver, c: ChanId)
    requires WfDriver(d)
    ensures ConcernsOne(d, ReapStep(c), ReapOne(d, c))
  {
  }

  lemma StepConcerns(d: Driver, e: Event)
    requires SoundDriver(d)
    ensures ConcernsOne(d, e, Step(d, e))
  {
    match e
    case Transmit(c, skb) =>
      TransmitResult(d, c, skb);
      TransmitConcerns(d, c, skb);
    case Complete(c) => CompleteConcerns(d, c);
    case AckInd =>
    case BeginReap(c) => BeginConcerns(d, c);
    case ReapStep(c) => ReapConcerns(d, c);
  }

  lemma TransmitConcerns(d: Driver, c: ChanId, skb: Skb)
    requires WfDriver(d)
    ensures ConcernsOne(d, Transmit(c, skb), Transmitted(d, c, skb))
  {
  }

  /* ---- Stopped queues ---- */

  /** A ring has a frame left to be dealt with. */
  ghost predicate HasFrame(ch: Channel)
    requires Wf(ch)
  {
    exists i :: 0 <= i < |Unreaped(ch)| && Unreaped(ch)[i].skb.Some?
  }

  /** While the ring-full flag is set, there is someone who will wake the queues: the reap of a
      frame that is still in a ring. */
  ghost predicate Wakeable(d: Driver)
    requires WfDriver(d)
  {
    d.queuesStopped ==> HasFrame(d.low) || HasFrame(d.high)
  }

  /** A frame sets the ring-full flag although no ring has a frame left: the one skb pointer behind
      the head belongs to a frame that has been dealt with. */
  ghost predicate StopsForNothing(d: Driver, e: Event)
    requires WfDriver(d)
  {
    && e.Transmit? && TestedFull(Get(d, e.ch).ring) && (e.skb.wantsStatus ==> d.ackSkb.None?)
    && !HasFrame(d.low) && !HasFrame(d.high)
  }

  lemma StepKeepsWakeable(d: Driver, e: Event)
    requires SoundDriver(d) && Wakeable(d)
    ensures Wakeable(Step(d, e)) <==> !StopsForNothing(d, e)
  {
    match e
    case Transmit(c, skb) =>
      TransmitResult(d, c, skb);
      TransmitKeepsWakeable(d, c, skb);
    case Complete(c) => CompleteKeepsWakeable(d, c);
    case AckInd =>
    case BeginReap(c) => BeginKeepsWakeable(d, c);
    case ReapStep(c) => ReapKeepsWakeable(d, c);
  }

  lemma CompleteKeepsWakeable(d: Driver, c: ChanId)
    requires WfDriver(d) && Wakeable(d)
    ensures Wakeable(Put(d, c, DmaStep(Get(d, c))))
  {
    QuietKeepsWakeable(d, c, DmaStep(Get(d, c)));
  }

  lemma BeginKeepsWakeable(d: Driver, c: ChanId)
    requires WfDriver(d) && Wakeable(d)
    ensures Wakeable(BeginOne(d, c))
  {
    if d.low.walk == Off && d.high.walk == Off {
      QuietKeepsWakeable(d, c, Begin(Get(d, c)));
    }
  }

  lemma ReapKeepsWakeable(d: Driver, c: ChanId)
    requires WfDriver(d) && Wakeable(d)
    ensures Wakeable(ReapOne(d, c))
  {
    if Found(Get(d, c)).None? {
      QuietKeepsWakeable(d, c, Reap(Get(d, c)));
    }
  }

  lemma QuietKeepsWakeable(d: Driver, c: ChanId, ch': Channel)
    requires WfDriver(d) && Wakeable(d) && Wf(ch') && |ch'.ring.slots| == |Get(d, c).ring.slots|
    requires forall i :: 0 <= i < |ch'.ring.slots| ==> Unreaped(ch')[i].skb == Unreaped(Get(d, c))[i].skb
    ensures Wakeable(Put(d, c, ch'))
  {
    var ch := Get(d, c);
    if HasFrame(ch) {
      var i :| 0 <= i < |Unreaped(ch)| && Unreaped(ch)[i].skb.Some?;
      assert Unreaped(ch')[i].skb.Some?;
    }
  }

  lemma TransmitKeepsWakeable(d: Driver, c: ChanId, skb: Skb)
    requires SoundDriver(d) && Wakeable(d)
    ensures Wakeable(Transmitted(d, c, skb)) <==> !StopsForNothing(d, Transmit(c, skb))
  {
    var ch := Get(d, c);
    if skb.wantsStatus && d.ackSkb.Some? {
      assert Wakeable(Dropped(d, skb));
    } else if TestedFull(ch.ring) {
      assert Wakeable(Refused(d, skb)) <==> HasFrame(d.low) || HasFrame(d.high);
    } else {
      AcceptHasFrame(ch, skb);
      AcceptedKeepsWakeable(d, c, skb, Accept(ch, skb).0);
    }
  }

  lemma AcceptHasFrame(ch: Channel, skb: Skb)
    requires SoundChannel(ch) && !TestedFull(ch.ring)
    ensures Wf(Accept(ch, skb).0) && HasFrame(Accept(ch, skb).0)
  {
    AcceptPointers(ch, skb);
    assert Unreaped(Accept(ch, skb).0)[ch.ring.head + 1].skb == Some(skb);
  }

  lemma AcceptedKeepsWakeable(d: Driver, c: ChanId, skb: Skb, ch': Channel)
    requires WfDriver(d) && Wakeable(d) && Wf(ch') && HasFrame(ch')
    ensures Wakeable(Accepted(d, c, skb, ch'))
  {
  }

  /* ---- The invariant of orderly runs ---- */

  ghost predicate Inv(d: Driver) {
    SoundDriver(d) && ChanInv(d.low) && ChanInv(d.high) && Wakeable(d)
  }

  lemma {:induction false} SkbsAreStored(slots: seq<Slot>, t: nat)
    requires t < |slots|
    ensures Skbs(View(slots, t)) != [] <==> exists i :: 0 <= i < |slots| && slots[i].skb.Some?
  {
    var u, n := View(slots, t), |slots|;
    NoneHeld(u);
    forall k | 0 <= k < n ensures u[k] == slots[Rot(t, k, n)] {
      ViewAt(slots, t, k);
    }
    if i :| 0 <= i < n && slots[i].skb.Some? {
      assert u[Gap(t, i, n)].skb.Some?;
    }
  }

  /** The frames that a ring has left to be dealt with are those of its queue. */
  lemma QueueIsUnreaped(ch: Channel)
    requires ChanInv(ch)
    ensures Skbs(View(Unreaped(ch), Pos(ch))) == Queue(ch)
  {
    HeldBounds(ch);
    if InClear(ch) {
      var t := ch.walk.cur;
      ViewAt(ch.ring.slots, t, 0);
      ViewUpdate(ch.ring.slots, t, 0, ch.ring.slots[t].(skb := None));
      FirstDropped(View(ch.ring.slots, t));
    }
  }

  lemma FirstDropped(v: seq<Slot>)
    requires v != [] && v[0].skb.Some?
    ensures Skbs(v[0 := v[0].(skb := None)]) == Skbs(v)[1..]
  {
    assert v[0 := v[0].(skb := None)][1..] == v[1..];
  }

  lemma FramesAreQueued(ch: Channel)
    requires ChanInv(ch)
    ensures HasFrame(ch) <==> Queue(ch) != []
  {
    QueueIsUnreaped(ch);
    SkbsAreStored(Unreaped(ch), Pos(ch));
  }

  lemma FullHasFrame(ch: Channel)
    requires ChanInv(ch) && TestedFull(ch.ring)
    ensures HasFrame(ch)
  {
    HeldBounds(ch);
    FramesAreQueued(ch);
  }

  lemma ChannelKeepsInv(d: Driver, e: Event)
    requires WfDriver(d) && ChanInv(Get(d, Concerned(e))) && Orderly(d, e)
    ensures ChanInv(ChannelAfter(d, e))
  {
    match e
    case Transmit(c, skb) => AcceptKeepsInv(Get(d, c), skb);
    case Complete(c) => DmaKeepsInv(Get(d, c));
    case AckInd =>
    case BeginReap(c) => if d.low.walk == Off && d.high.walk == Off { BeginKeepsInv(Get(d, c)); }
    case ReapStep(c) => ReapKeepsInv(Get(d, c));
  }

  lemma BothKeepInv(d: Driver, s: Driver, c: ChanId)
    requires ChanInv(d.low) && ChanInv(d.high) && ChanInv(Get(s, c)) && Get(s, Other(c)) == Get(d, Other(c))
    ensures ChanInv(s.low) && ChanInv(s.high)
  {
  }

  lemma ChannelsKeepInv(d: Driver, e: Event)
    requires SoundDriver(d) && ChanInv(d.low) && ChanInv(d.high) && Orderly(d, e)
    ensures ChanInv(Step(d, e).low) && ChanInv(Step(d, e).high)
  {
    StepConcerns(d, e);
    ChannelKeepsInv(d, e);
    BothKeepInv(d, Step(d, e), Concerned(e));
  }

  lemma NeverForNothing(d: Driver, e: Event)
    requires Inv(d)
    ensures !StopsForNothing(d, e)
  {
    if e.Transmit? && TestedFull(Get(d, e.ch).ring) {
      FullHasFrame(Get(d, e.ch));
    }
  }

  lemma StepKeepsInv(d: Driver, e: Event)
    requires Inv(d) && Orderly(d, e)
    ensures Inv(Step(d, e))
  {
    StepKeepsSound(d, e);
    ChannelsKeepInv(d, e);
    NeverForNothing(d, e);
    StepKeepsWakeable(d, e);
  }

  lemma {:induction false} RunKeepsInv(d: Driver, es: seq<Event>)
    requires Inv(d) && OrderlyRun(d, es)
    ensures Inv(Run(d, es))
    decreases |es|
  {
    if es != [] {
      StepKeepsInv(d, es[0]);
      RunKeepsInv(Step(d, es[0]), es[1..]);
    }
  }

  lemma BootInv(d: Driver)
    requires Boot(d)
    ensures Inv(d)
  {
    CleanInv(d.low);
    CleanInv(d.high);
    EmptyBag(d.low.ring.slots, true);
    EmptyBag(d.high.ring.slots, true);
  }
}
