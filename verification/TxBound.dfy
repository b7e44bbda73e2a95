/** How long a reap can take: the loop of `reap_tx_dxes` is bounded by the slots of the ring and the
    frames that are transmitted meanwhile, whatever the interleaving. */
module TxBound {
  import opened Common
  import opened Circle
  import opened TxRing
  import opened TxChannel
  import opened TxDriver

  /** The slots that the reaper can still pass before it is at the head. */
  ghost function Ahead(ch: Channel): (k: nat)
    requires Wf(ch)
  {
    if ch.walk == Off then 0
    else
      var g := Gap(ch.walk.cur, ch.ring.head, |ch.ring.slots|);
      if g == 0 && ch.walk.phase == Body then |ch.ring.slots| else g
  }

  /** With its next step the reaper passes a slot, that is, runs the loop body to its end. */
  predicate Passes(ch: Channel)
    requires Wf(ch)
  {
    InClear(ch) || (ch.walk.On? && ch.walk.phase == Body && !ch.ring.slots[ch.walk.cur].valid && Found(ch).None?)
  }

  lemma ReapAhead(ch: Channel)
    requires SoundChannel(ch)
    ensures Ahead(Reap(ch)) + (if Passes(ch) then 1 else 0) <= Ahead(ch)
    ensures Passes(ch) ==> Ahead(Reap(ch)) + 1 == Ahead(ch)
  {
    if InClear(ch) {
      assert SoundSlot(ch.ring.slots[ch.walk.cur], ch.walk.cur);
    }
  }

  lemma AcceptAhead(ch: Channel, skb: Skb)
    requires SoundChannel(ch)
    ensures Ahead(Accept(ch, skb).0) <= Ahead(ch) + if TestedFull(ch.ring) then 0 else 2
  {
    SoundAccept(ch, skb);
    TxVerdict(ch.ring, skb);
  }

  /** A frame goes into the ring of channel `c`. */
  predicate Sends(d: Driver, e: Event, c: ChanId)
    requires WfDriver(d)
  {
    && e.Transmit? && e.ch == c && !TestedFull(Get(d, c).ring) && !(e.skb.wantsStatus && d.ackSkb.Some?)
  }

  function Sent(d: Driver, es: seq<Event>, c: ChanId): nat
    requires WfDriver(d)
    decreases |es|
  {
    if es == [] then 0 else One(Sends(d, es[0], c)) + Sent(Step(d, es[0]), es[1..], c)
  }

  /** How many slots the reaper of channel `c` passes. */
  function Passed(d: Driver, es: seq<Event>, c: ChanId): nat
    requires WfDriver(d)
    decreases |es|
  {
    if es == [] then 0
    else One(es[0] == ReapStep(c) && Passes(Get(d, c))) + Passed(Step(d, es[0]), es[1..], c)
  }

  lemma AheadAfter(d: Driver, e: Event)
    requires SoundDriver(d) && !e.BeginReap?
    ensures var ch, c := Get(d, Concerned(e)), Concerned(e);
            Ahead(ChannelAfter(d, e)) + One(e == ReapStep(c) && Passes(ch)) <= Ahead(ch) + 2 * One(Sends(d, e, c))
  {
    var ch := Get(d, Concerned(e));
    match e
    case Transmit(_, skb) => AcceptAhead(ch, skb);
    case ReapStep(_) => ReapAhead(ch);
    case Complete(_) =>
    case AckInd =>
  }

  lemma AheadStep(d: Driver, e: Event, c: ChanId)
    requires SoundDriver(d) && e != BeginReap(c)
    ensures Ahead(Get(Step(d, e), c)) + One(e == ReapStep(c) && Passes(Get(d, c)))
         <= Ahead(Get(d, c)) + 2 * One(Sends(d, e, c))
  {
    StepConcerns(d, e);
    if !e.BeginReap? {
      AheadAfter(d, e);
    }
  }

  lemma {:induction false} PassedAtMost(d: Driver, es: seq<Event>, c: ChanId)
    requires SoundDriver(d) && BeginReap(c) !in es
    ensures Passed(d, es, c) <= Ahead(Get(d, c)) + 2 * Sent(d, es, c)
    decreases |es|
  {
    if es != [] {
      AheadStep(d, es[0], c);
      StepKeepsSound(d, es[0]);
      PassedAtMost(Step(d, es[0]), es[1..], c);
    }
  }

  /** Under every interleaving, a reap passes at most as many slots as the ring has, and two more for
      each frame that its ring takes meanwhile. */
  lemma {:induction false} ReapIsBounded(d: Driver, c: ChanId, es: seq<Event>)
    requires SoundDriver(d) && d.low.walk == Off && d.high.walk == Off && BeginReap(c) !in es
    ensures var s := Step(d, BeginReap(c));
            Passed(s, es, c) <= |Get(d, c).ring.slots| + 2 * Sent(s, es, c)
  {
    var s := Step(d, BeginReap(c));
    StepKeepsSound(d, BeginReap(c));
    StepConcerns(d, BeginReap(c));
    PassedAtMost(s, es, c);
  }
}
