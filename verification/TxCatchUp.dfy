/** What a frame does that is transmitted while the reaper circles an empty ring, and the exact
    condition under which the frames of a ring stay in order. */
module TxCatchUp {
  import opened Common
  import opened Circle
  import opened TxRing
  import opened TxChannel
  import opened TxDriver
  import opened TxTheorems
  import opened TxDrain

  /* ---- Catching up ---- */

  /** What is known of a channel when the reaper has been caught up with and has stopped. */
  ghost predicate CaughtOut(ch: Channel, skb: Skb, ch': Channel, now: nat)
    requires Wf(ch)
  {
    && Placed(ch', now) && ch'.walk == Off
    && ch'.accepted == ch.reaped + HeldBy(ch) + [skb] && ch'.reaped == ch.reaped
    && Left(ch', now) == HeldBy(ch) + (if now == 0 then [skb] else [])
    && Taken(ch'.ring, Pos(ch'), now) == (if now == 0 then [] else [skb])
    && (now == 0 ==> !TestedFull(ch'.ring))
  }

  lemma CatchUpChannel(ch: Channel, skb: Skb) returns (now: nat)
    requires ChanInv(ch) && CatchesUp(ch)
    ensures Accept(ch, skb).1 == Ok && Found(Accept(ch, skb).0).None?
    ensures now + Room(ch) == 2 && CaughtOut(ch, skb, Reap(Accept(ch, skb).0), now)
  {
    var used: nat :| InOrder(ch, used);
    CircleHasRoom(ch, used);
    InOrderFacts(ch, used);
    now := AcceptCatchingUp(ch, used, skb);
    SoundAccept(ch, skb);
    CaughtUpStops(ch, used, skb);
    assert [] + HeldBy(ch) == HeldBy(ch);
    StoppedShort(ch, skb, Accept(ch, skb).0, now);
  }

  lemma StoppedShort(ch: Channel, skb: Skb, ch1: Channel, now: nat)
    requires Wf(ch) && Placed(ch1, now) && Stopping(ch1) && !ch1.walk.circling
    requires ch1.accepted == ch.reaped + HeldBy(ch) + [skb] && ch1.reaped == ch.reaped
    requires Left(ch1, now) == HeldBy(ch) + (if now == 0 then [skb] else [])
    requires Taken(ch1.ring, Pos(ch1), now) == (if now == 0 then [] else [skb])
    requires now == 0 ==> !TestedFull(ch1.ring)
    ensures CaughtOut(ch, skb, Reap(ch1), now)
  {
    var u := StopPlaced(ch1, now);
  }

  /** A frame puts the head level with a circling reaper or past it. Then the reaper stops at once,
      and the frames from its old position up to it are left behind. */
  lemma CatchUpAndStop(d: Driver, c: ChanId, skb: Skb) returns (now: nat, s: Driver)
    requires Inv(d) && CatchesUp(Get(d, c)) && (skb.wantsStatus ==> d.ackSkb.None?)
    ensures s == Run(Step(d, Transmit(c, skb)), [ReapStep(c)]) && OrderlyRun(Step(d, Transmit(c, skb)), [ReapStep(c)])
    ensures SoundDriver(s) && Get(s, Other(c)) == Get(d, Other(c)) && Get(s, Other(c)).walk == Off
    ensures s.ackSkb == AckAfter(d, skb)
    ensures now + Room(Get(d, c)) == 2 && CaughtOut(Get(d, c), skb, Get(s, c), now)
  {
    now := CatchUpChannel(Get(d, c), skb);
    PassesAckCheck(d, c, skb);
    OtherIsOff(d, c);
    s := OneReap(Step(d, Transmit(c, skb)), c);
  }

  lemma OneReap(d: Driver, c: ChanId) returns (s: Driver)
    requires SoundDriver(d)
    ensures s == Run(d, [ReapStep(c)]) && OrderlyRun(d, [ReapStep(c)])
    ensures SoundDriver(s) && Elsewhere(d, s, c) && Get(s, c) == Reap(Get(d, c))
  {
    s := Step(d, ReapStep(c));
    QuietEvent(d, Reaper, c);
    NoTransmitIsOrderly(d, [ReapStep(c)]);
  }

  lemma OtherIsOff(d: Driver, c: ChanId)
    requires SoundDriver(d) && Get(d, c).walk.On?
    ensures Get(d, Other(c)).walk == Off
  {
  }

  /** A frame that gets past the check of the slot for the acknowledgement. */
  lemma PassesAckCheck(d: Driver, c: ChanId, skb: Skb)
    requires SoundDriver(d) && (skb.wantsStatus ==> d.ackSkb.None?)
    ensures var s := Step(d, Transmit(c, skb));
            && SoundDriver(s) && Get(s, Other(c)) == Get(d, Other(c)) && Get(s, c) == Accept(Get(d, c), skb).0
            && s.ackSkb == AckAfter(d, skb) && (TestedFull(Get(d, c).ring) ==> s.macStopped)
  {
    StepKeepsSound(d, Transmit(c, skb));
    StepConcerns(d, Transmit(c, skb));
    TransmitResult(d, c, skb);
    SoundAccept(Get(d, c), skb);
  }

  lemma PlainAccept(d: Driver, c: ChanId, skb: Skb)
    requires SoundDriver(d) && !skb.wantsStatus
    ensures var s := Step(d, Transmit(c, skb));
            && SoundDriver(s) && Elsewhere(d, s, c) && Get(s, c) == Accept(Get(d, c), skb).0
            && (TestedFull(Get(d, c).ring) ==> s.macStopped)
  {
    PassesAckCheck(d, c, skb);
  }

  /** A circling reaper has at least one free pair of slots before it. */
  lemma CircleHasRoom(ch: Channel, used: nat)
    requires InOrder(ch, used) && CatchesUp(ch)
    ensures !TestedFull(ch.ring) && !InClear(ch)
    ensures Room(ch) == 2 ==> used + 4 <= |ch.ring.slots|
    ensures used % 2 == 0 && Room(ch) == Gap(ch.ring.tail, ch.walk.cur, |ch.ring.slots|) - used
  {
    WalkInOrder(ch, used);
    FrontParity(ch.ring, ch.ring.tail, used);
    CircleArithmetic(ch.ring, ch.ring.tail, ch.walk.cur, used);
    NoneOutside(ch, used, used + 1);
  }

  lemma CircleArithmetic(r: Ring, t: nat, cur: nat, used: nat)
    requires WfRing(r) && t < |r.slots| && cur < |r.slots| && used < |r.slots| && r.head == Rot(t, used, |r.slots|)
    requires used % 2 == 0 && used <= Gap(t, cur, |r.slots|)
    ensures used + 2 <= |r.slots| && Rot(t, used + 1, |r.slots|) == Next(r.head, |r.slots|)
    ensures Gap(r.head, cur, |r.slots|) == Gap(t, cur, |r.slots|) - used
    ensures Gap(r.head, cur, |r.slots|) == 2 ==> used + 4 <= |r.slots|
  {
  }

  lemma CaughtUpStops(ch: Channel, used: nat, skb: Skb)
    requires InOrder(ch, used) && CatchesUp(ch)
    ensures var ch' := Accept(ch, skb).0;
            && Stopping(ch') && !ch'.walk.circling && Found(ch').None?
            && (Room(ch) == 2 ==> !TestedFull(ch'.ring))
  {
    CircleHasRoom(ch, used);
    SoundAccept(ch, skb);
    TxVerdict(ch.ring, skb);
    var n, t := |ch.ring.slots|, ch.ring.tail;
    if Room(ch) == 2 {
      NoneOutside(ch, used, used + 3);
      assert Rot(t, used + 3, n) == Next(Accept(ch, skb).0.ring.head, n);
    }
  }

  function Another(q: seq<Skb>): (x: Skb)
    ensures !x.wantsStatus && (q != [] ==> x != q[0])
  {
    if q == [] then Skb(0, false) else Skb(q[0].id + 1, false)
  }

  lemma WrongFirst(done: seq<Skb>, q: seq<Skb>, x: Skb, rest: seq<Skb>)
    requires q != [] && q[0] != x
    ensures !(done + [x] <= done + q + rest)
  {
    assert (done + [x])[|done|] == x && (done + q + rest)[|done|] == q[0];
  }

  lemma DrainedOutOfOrder(ch: Channel, used: nat, ch': Channel, x: Skb, q: seq<Skb>)
    requires Passed(ch, ch.ring.tail, used, ch') && Span(ch.ring, ch.ring.tail, used) == [x]
    requires ch.accepted == ch.reaped + q + [x] && q != [] && q[0] != x
    ensures !(ch'.reaped <= ch'.accepted)
  {
    WrongFirst(ch.reaped, q, x, [x]);
  }

  /** With nothing but frames left behind in the ring, the next frame overtakes them. */
  lemma OvertakenByNext(s: Driver, c: ChanId, q: seq<Skb>) returns (fs: seq<Event>)
    requires SoundDriver(s) && s.low.walk == Off && s.high.walk == Off && Placed(Get(s, c), 0)
    requires q != [] && !TestedFull(Get(s, c).ring) && Get(s, c).accepted == Get(s, c).reaped + q
    ensures OrderlyRun(s, fs)
    ensures var ch := Get(Run(s, fs), c); !(ch.reaped <= ch.accepted)
  {
    var x, s1 := Another(q), Step(s, Transmit(c, Another(q)));
    NextPlaced(s, c, x);
    var es, s2 := Drain(s1, c, 2);
    RunCons(s, Transmit(c, x), es);
    fs := [Transmit(c, x)] + es;
    DrainedOutOfOrder(Get(s1, c), 2, Get(s2, c), x, q);
  }

  lemma NextPlaced(s: Driver, c: ChanId, x: Skb)
    requires SoundDriver(s) && s.low.walk == Off && s.high.walk == Off && Placed(Get(s, c), 0)
    requires !TestedFull(Get(s, c).ring) && !x.wantsStatus
    ensures var s1 := Step(s, Transmit(c, x));
            var ch, ch1 := Get(s, c), Get(s1, c);
            && SoundDriver(s1) && Elsewhere(s, s1, c) && ch1.walk == Off && Placed(ch1, 2)
            && Taken(ch1.ring, Pos(ch1), 2) == [x] && Left(ch1, 2) == Left(ch, 0)
            && ch1.accepted == ch.accepted + [x] && ch1.reaped == ch.reaped
  {
    PlainAccept(s, c, x);
    FirstPlaced(Get(s, c), x);
  }

  lemma FirstPlaced(ch: Channel, x: Skb)
    requires Placed(ch, 0) && ch.walk == Off && !TestedFull(ch.ring)
    ensures var ch1 := Accept(ch, x).0;
            && ch1.walk == Off && Placed(ch1, 2)
            && Taken(ch1.ring, Pos(ch1), 2) == [x] && Left(ch1, 2) == Left(ch, 0)
            && ch1.accepted == ch.accepted + [x] && ch1.reaped == ch.reaped
  {
    AcceptRecords(ch, x);
    AcceptPlaced(ch, 0, x);
    NoneTaken(ch.ring, Pos(ch), x);
  }

  lemma AcceptRecords(ch: Channel, x: Skb)
    requires SoundChannel(ch) && ch.walk == Off && !TestedFull(ch.ring)
    ensures var ch1 := Accept(ch, x).0;
            ch1.walk == Off && ch1.accepted == ch.accepted + [x] && ch1.reaped == ch.reaped
  {
    SoundAccept(ch, x);
  }

  lemma NoneTaken(r: Ring, t: nat, x: Skb)
    requires Front(r, t, 0)
    ensures Taken(r, t, 0) + [x] == [x]
  {
  }

  lemma CatchUpLeavesSome(ch: Channel, skb: Skb, now: nat)
    requires ChanInv(ch) && !RoomAhead(ch) && now + Room(ch) == 2
    ensures HeldBy(ch) + (if now == 0 then [skb] else []) != []
  {
    var used: nat :| InOrder(ch, used);
    CircleHasRoom(ch, used);
    InOrderFacts(ch, used);
    TakenCount(ch.ring, Pos(ch), used);
  }

  /** If frames are left behind, one that has been accepted later leaves before them. */
  lemma OvertakesThoseLeftBehind(d: Driver, c: ChanId) returns (skb: Skb, es: seq<Event>)
    requires Inv(d) && !RoomAhead(Get(d, c))
    ensures OrderlyRun(Step(d, Transmit(c, skb)), es)
    ensures var ch := Get(Run(Step(d, Transmit(c, skb)), es), c); !(ch.reaped <= ch.accepted)
  {
    var q := HeldBy(Get(d, c));
    skb := Another(q);
    var d1 := Step(d, Transmit(c, skb));
    var now, s := CatchUpAndStop(d, c, skb);
    CatchUpLeavesSome(Get(d, c), skb, now);
    var fs := OvertakesFromStop(Get(d, c), s, c, skb, now);
    OrderlyConcat(d1, [ReapStep(c)], fs);
    es := [ReapStep(c)] + fs;
  }

  lemma OvertakesFromStop(ch: Channel, s: Driver, c: ChanId, skb: Skb, now: nat) returns (fs: seq<Event>)
    requires Wf(ch) && SoundDriver(s) && Get(s, Other(c)).walk == Off && CaughtOut(ch, skb, Get(s, c), now)
    requires if now == 0 then true else HeldBy(ch) != [] && HeldBy(ch)[0] != skb
    ensures OrderlyRun(s, fs)
    ensures var ch := Get(Run(s, fs), c); !(ch.reaped <= ch.accepted)
  {
    if now == 0 {
      assert ch.reaped + HeldBy(ch) + [skb] == ch.reaped + (HeldBy(ch) + [skb]);
      fs := OvertakenByNext(s, c, HeldBy(ch) + [skb]);
    } else {
      var s';
      fs, s' := Drain(s, c, now);
      DrainedOutOfOrder(Get(s, c), now, Get(s', c), skb, HeldBy(ch));
    }
  }

  /** After a transmit on channel `c`, whatever the frame, its frames leave in order in every orderly
      continuation. */
  ghost predicate StaysInOrder(d: Driver, c: ChanId)
    requires WfDriver(d)
  {
    forall skb: Skb, es: seq<Event> ::
      OrderlyRun(Step(d, Transmit(c, skb)), es) ==>
        var ch := Get(Run(Step(d, Transmit(c, skb)), es), c); ch.reaped <= ch.accepted
  }

  lemma InOrderExactly(d: Driver, c: ChanId)
    requires Inv(d)
    ensures StaysInOrder(d, c) <==> RoomAhead(Get(d, c))
  {
    if RoomAhead(Get(d, c)) {
      forall skb: Skb, es: seq<Event> | OrderlyRun(Step(d, Transmit(c, skb)), es)
        ensures var ch := Get(Run(Step(d, Transmit(c, skb)), es), c); ch.reaped <= ch.accepted
      {
        StepKeepsInv(d, Transmit(c, skb));
        RunKeepsInv(Step(d, Transmit(c, skb)), es);
      }
    } else {
      var skb, es := OvertakesThoseLeftBehind(d, c);
      assert !StaysInOrder(d, c);
    }
  }

  /** The restriction on the interleaving is the weakest one: in every state reached by an orderly
      run, a transmit keeps the frames of its channel in order if and only if there is room
      between the head and a circling reaper, or the reaper has passed just the first slot of the
      empty ring. */
  lemma {:induction false} RoomAheadExactly(d: Driver, es: seq<Event>, c: ChanId)
    requires Boot(d) && OrderlyRun(d, es)
    ensures StaysInOrder(Run(d, es), c) <==> RoomAhead(Get(Run(d, es), c))
  {
    Reachable(d, es);
    InOrderExactly(Run(d, es), c);
  }
}
