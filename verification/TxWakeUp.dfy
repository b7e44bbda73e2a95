/** Which frames, transmitted while the reaper circles an empty ring, can leave mac80211's queues
    stopped for good. */
module TxWakeUp {
  import opened Common
  import opened Circle
  import opened TxRing
  import opened TxChannel
  import opened TxDriver
  import opened TxTheorems
  import opened TxDrain
  import opened TxCatchUp

  /** The queues are stopped, no acknowledgement is due, and no ring has a frame that a reap could
      find: nothing will wake them. */
  ghost predicate Lost(d: Driver)
    requires WfDriver(d)
  {
    d.macStopped && d.ackSkb.None? && !HasFrame(d.low) && !HasFrame(d.high)
  }

  /** The frame transmitted now catches up with the circling reaper, and exactly one frame will be
      left behind. */
  ghost predicate LeavesOneBehind(ch: Channel)
    requires Wf(ch)
  {
    CatchesUp(ch) && if Room(ch) == 2 then |HeldBy(ch)| == 0 else |HeldBy(ch)| == 1
  }

  /* ---- For good ---- */

  /** Nothing but a transmit could still wake the queues, and none will come: mac80211 does not hand
      over frames while they are stopped. */
  ghost predicate StoppedForGood(d: Driver)
    requires WfDriver(d)
  {
    forall es: seq<Event> :: NoTransmit(es) ==> Run(d, es).macStopped
  }

  lemma FoundHasFrame(ch: Channel)
    requires Wf(ch) && Found(ch).Some?
    ensures HasFrame(ch)
  {
    assert Unreaped(ch)[ch.walk.cur].skb.Some?;
  }

  lemma QuietHasNone(ch: Channel, ch': Channel)
    requires Wf(ch) && Wf(ch') && !HasFrame(ch) && |ch'.ring.slots| == |ch.ring.slots|
    requires forall i :: 0 <= i < |ch.ring.slots| ==> Unreaped(ch')[i].skb == Unreaped(ch)[i].skb
    ensures !HasFrame(ch')
  {
    forall i | 0 <= i < |Unreaped(ch')| ensures Unreaped(ch')[i].skb.None? {
      assert Unreaped(ch)[i].skb.None?;
    }
  }

  lemma ReapStaysDone(ch: Channel)
    requires Wf(ch) && !HasFrame(ch)
    ensures !HasFrame(Reap(ch))
  {
    if Found(ch).Some? {
      FoundHasFrame(ch);
    }
    QuietHasNone(ch, Reap(ch));
  }

  lemma ChannelStaysDone(d: Driver, e: Event)
    requires WfDriver(d) && !e.Transmit? && !HasFrame(Get(d, Concerned(e)))
    ensures !HasFrame(ChannelAfter(d, e))
  {
    var ch := Get(d, Concerned(e));
    match e
    case Complete(_) => QuietHasNone(ch, DmaStep(ch));
    case AckInd =>
    case BeginReap(_) => if d.low.walk == Off && d.high.walk == Off { QuietHasNone(ch, Begin(ch)); }
    case ReapStep(_) => ReapStaysDone(ch);
  }

  lemma LostStep(d: Driver, e: Event)
    requires SoundDriver(d) && Lost(d) && !e.Transmit?
    ensures Lost(Step(d, e))
  {
    ChannelStaysDone(d, e);
    StepConcerns(d, e);
    if e.ReapStep? && Found(Get(d, e.ch)).Some? {
      FoundHasFrame(Get(d, e.ch));
    }
    FlagsStay(d, e);
  }

  lemma FlagsStay(d: Driver, e: Event)
    requires WfDriver(d) && d.ackSkb.None? && d.macStopped && !e.Transmit?
    requires e.ReapStep? ==> Found(Get(d, e.ch)).None?
    ensures Step(d, e).macStopped && Step(d, e).ackSkb.None?
  {
  }

  lemma {:induction false} LostRun(d: Driver, es: seq<Event>)
    requires SoundDriver(d) && Lost(d) && NoTransmit(es)
    ensures Lost(Run(d, es))
    decreases |es|
  {
    if es != [] {
      assert !es[0].Transmit?;
      LostStep(d, es[0]);
      StepKeepsSound(d, es[0]);
      LostRun(Step(d, es[0]), es[1..]);
    }
  }

  /** The number of frames that have been reaped. */
  ghost function Done(d: Driver): nat {
    |d.low.reaped| + |d.high.reaped|
  }

  /** With the flag set, the release of a frame wakes the queues. */
  lemma ReleaseStep(d: Driver, e: Event)
    requires WfDriver(d) && d.queuesStopped && !e.Transmit?
    ensures !Step(d, e).macStopped || (Step(d, e).queuesStopped && Done(Step(d, e)) == Done(d))
  {
    match e
    case Complete(_) =>
    case AckInd =>
    case BeginReap(_) =>
    case ReapStep(c) => if Found(Get(d, c)).None? { assert Reap(Get(d, c)).reaped == Get(d, c).reaped; }
  }

  lemma {:induction false} ReleaseWakes(d: Driver, es: seq<Event>) returns (i: nat)
    requires WfDriver(d) && d.queuesStopped && NoTransmit(es) && Done(Run(d, es)) != Done(d)
    ensures i <= |es| && !Run(d, es[..i]).macStopped
    decreases |es|
  {
    assert !es[0].Transmit?;
    ReleaseStep(d, es[0]);
    var s := Step(d, es[0]);
    if !s.macStopped {
      i := 1;
      assert es[..1] == [es[0]];
      RunSingle(d, es[0]);
    } else {
      var j := ReleaseWakes(s, es[1..]);
      i := j + 1;
      RunBeginning(d, es, i);
    }
  }

  /** If a ring has a frame left, the reaper can get to it. */
  lemma SomethingIsReaped(d: Driver, c: ChanId) returns (es: seq<Event>)
    requires SoundDriver(d) && HasFrame(Get(d, c))
    ensures NoTransmit(es) && Done(Run(d, es)) != Done(d)
  {
    var e1, s := OthersFinish(d, c);
    var e2, t := ReapedHere(s, c);
    RunConcat(d, e1, e2);
    es := e1 + e2;
    MoreDone(d, t, c);
  }

  lemma OthersFinish(d: Driver, c: ChanId) returns (es: seq<Event>, s: Driver)
    requires SoundDriver(d)
    ensures SoundDriver(s) && s == Run(d, es) && NoTransmit(es)
    ensures Get(s, c) == Get(d, c) && Get(s, Other(c)).walk == Off
    ensures |Get(s, Other(c)).reaped| >= |Get(d, Other(c)).reaped|
  {
    es, s := FinishWalk(d, Other(c));
    OtherWay(d, s, c);
  }

  lemma OtherWay(d: Driver, s: Driver, c: ChanId)
    requires Elsewhere(d, s, Other(c))
    ensures Get(s, c) == Get(d, c)
  {
  }

  lemma ReapedHere(d: Driver, c: ChanId) returns (es: seq<Event>, s: Driver)
    requires SoundDriver(d) && HasFrame(Get(d, c)) && Get(d, Other(c)).walk == Off
    ensures QuietTo(d, es, s, c) && |Get(s, c).reaped| > |Get(d, c).reaped|
  {
    var e1, s1 := FinishWalk(d, c);
    var e2, s2 := EmptyRing(s1, c);
    QuietFurther(d, e1, s1, e2, s2, c);
    es, s := e1 + e2, s2;
    SomethingWas(Get(d, c), Get(s1, c), Get(s2, c));
  }

  lemma SomethingWas(ch: Channel, ch1: Channel, ch2: Channel)
    requires Wf(ch) && HasFrame(ch) && Finished(ch, ch1) && Emptied(ch1, ch2)
    ensures |ch2.reaped| > |ch.reaped|
  {
    var i :| 0 <= i < |Unreaped(ch)| && Unreaped(ch)[i].skb.Some?;
    assert ch1.reaped == ch.reaped ==> ch1.ring.slots[i].skb.Some?;
    assert |ch2.reaped| == |ch.reaped| ==> ch1.reaped == ch.reaped && ch2.reaped == ch1.reaped;
  }

  lemma MoreDone(d: Driver, s: Driver, c: ChanId)
    requires |Get(s, c).reaped| > |Get(d, c).reaped| && |Get(s, Other(c)).reaped| >= |Get(d, Other(c)).reaped|
    ensures Done(s) > Done(d)
  {
  }

  /** Exactly which states those are: the queues are stopped, no acknowledgement can come, and no ring
      has a frame left. From every other state in which the queues are stopped, completions, an
      acknowledgement or a reap can wake them. */
  lemma {:induction false} LostExactly(d: Driver)
    requires SoundDriver(d)
    ensures StoppedForGood(d) <==> Lost(d)
  {
    if Lost(d) {
      forall es: seq<Event> | NoTransmit(es) ensures Run(d, es).macStopped {
        LostRun(d, es);
      }
    } else {
      var es := CanBeWoken(d);
      assert !StoppedForGood(d);
    }
  }

  lemma CanBeWoken(d: Driver) returns (es: seq<Event>)
    requires SoundDriver(d) && !Lost(d)
    ensures NoTransmit(es) && !Run(d, es).macStopped
  {
    if !d.macStopped {
      es := [];
    } else if d.ackSkb.Some? {
      es := [AckInd];
      RunSingle(d, AckInd);
    } else {
      var fs := SomethingIsReaped(d, if HasFrame(d.low) then Low else High);
      var i := ReleaseWakes(d, fs);
      es := fs[..i];
    }
  }

  /* ---- A channel with frames left behind ---- */

  /** The reaper began at the head although the ring was not empty, and has not yet come back to the
      tail: all frames lie between it and the head. `u` slots from the tail to the head have been
      filled since. If it has passed no more than the first frame, another one is left. */
  ghost predicate Sweeping(ch: Channel, u: nat) {
    && SoundChannel(ch) && ch.walk.On? && !ch.walk.circling
    && Front(ch.ring, ch.ring.tail, u) && u % 2 == 0
    && var j := Gap(ch.ring.tail, ch.walk.cur, |ch.ring.slots|);
       var left := |Behind(ch.ring, ch.ring.tail, u)|;
       && 0 < j && u <= j
       && (forall k :: u <= k < j < |ch.ring.slots| ==> View(ch.ring.slots, ch.ring.tail)[k].skb.None?)
       && (if j == 1 then u == 0 && 2 <= left && ch.ring.slots[ch.walk.cur].skb.Some? else 4 <= j || 1 <= left)
  }

  /** The number of frames left behind is not one. While the reaper circles it may become one, but
      then the reaper will pick that frame up. */
  ghost predicate Ordinary(ch: Channel, used: nat) {
    && Placed(ch, used)
    && (ch.walk.On? && ch.walk.circling ==> Gap(ch.ring.tail, ch.walk.cur, |ch.ring.slots|) == 1 ==> |Left(ch, used)| != 1)
    && (ch.walk == Off || !ch.walk.circling ==> |Left(ch, used)| != 1)
  }

  ghost predicate Tame(ch: Channel) {
    (exists used: nat :: Ordinary(ch, used)) || (exists u: nat :: Sweeping(ch, u))
  }

  lemma InvariantIsTame(ch: Channel)
    requires ChanInv(ch)
    ensures Tame(ch)
  {
    var used: nat :| InOrder(ch, used);
    assert Ordinary(ch, used);
  }

  /* ---- Transmitting ---- */

  lemma AcceptTame(ch: Channel, skb: Skb)
    requires Tame(ch) && RoomAhead(ch)
    ensures Tame(Accept(ch, skb).0)
  {
    SoundAccept(ch, skb);
    if !TestedFull(ch.ring) {
      if used: nat :| Ordinary(ch, used) {
        AcceptOrdinary(ch, used, skb);
      } else {
        var u: nat :| Sweeping(ch, u);
        AcceptSweeping(ch, u, skb);
      }
    }
  }

  lemma AcceptOrdinary(ch: Channel, used: nat, skb: Skb)
    requires Ordinary(ch, used) && RoomAhead(ch) && !TestedFull(ch.ring)
    ensures Tame(Accept(ch, skb).0)
  {
    if CatchesUp(ch) {
      var now := AcceptCatchingUp(ch, used, skb);
      assert used == 0;
      assert Left(Accept(ch, skb).0, now) == Left(ch, used);
      assert Ordinary(Accept(ch, skb).0, now);
    } else {
      AcceptPlaced(ch, used, skb);
      assert Ordinary(Accept(ch, skb).0, used + 2);
    }
  }

  lemma AcceptSweeping(ch: Channel, u: nat, skb: Skb)
    requires Sweeping(ch, u) && !TestedFull(ch.ring)
    ensures Tame(Accept(ch, skb).0)
  {
    if u + 2 <= Gap(ch.ring.tail, ch.walk.cur, |ch.ring.slots|) {
      SweepBehindHead(ch, u, skb);
    } else {
      HeadPassesSweep(ch, u, skb);
    }
  }

  lemma SweepBehindHead(ch: Channel, u: nat, skb: Skb)
    requires Sweeping(ch, u) && !TestedFull(ch.ring) && u + 2 <= Gap(ch.ring.tail, ch.walk.cur, |ch.ring.slots|)
    ensures Sweeping(Accept(ch, skb).0, u + 2)
  {
    SoundAccept(ch, skb);
    NotAtFirstFrame(ch, u);
    FrontTx(ch.ring, ch.ring.tail, u, skb);
    AcceptBehindSweep(ch, u, skb);
  }

  lemma HeadPassesSweep(ch: Channel, u: nat, skb: Skb)
    requires Sweeping(ch, u) && !TestedFull(ch.ring) && u + 2 > Gap(ch.ring.tail, ch.walk.cur, |ch.ring.slots|)
    ensures Ordinary(Accept(ch, skb).0, u + 2 - Gap(ch.ring.tail, ch.walk.cur, |ch.ring.slots|))
  {
    var t, n := ch.ring.tail, |ch.ring.slots|;
    var j := Gap(t, ch.walk.cur, n);
    SoundAccept(ch, skb);
    NotAtFirstFrame(ch, u);
    CatchUp(ch.ring, t, u, j, skb);
    TakenCount(ch.ring, t, u);
    PassedSweep(ch, u, j, Accept(ch, skb).0);
  }

  lemma PassedSweep(ch: Channel, u: nat, j: nat, ch': Channel)
    requires Sweeping(ch, u) && j == Gap(ch.ring.tail, ch.walk.cur, |ch.ring.slots|) && 1 != j < u + 2
    requires SoundChannel(ch') && ch'.walk == ch.walk && Front(ch'.ring, ch.walk.cur, u + 2 - j)
    requires |Behind(ch'.ring, ch.walk.cur, u + 2 - j)| == |Behind(ch.ring, ch.ring.tail, u)| + (u + 1) / 2
    ensures Ordinary(ch', u + 2 - j)
  {
  }

  /** At its first frame, the sweeping reaper keeps the ring full. */
  lemma NotAtFirstFrame(ch: Channel, u: nat)
    requires Sweeping(ch, u) && !TestedFull(ch.ring)
    ensures Gap(ch.ring.tail, ch.walk.cur, |ch.ring.slots|) != 1
  {
    BehindHead(ch.ring, ch.ring.tail, u);
    ViewAt(ch.ring.slots, ch.ring.tail, 1);
  }

  lemma AcceptBehindSweep(ch: Channel, u: nat, skb: Skb)
    requires Sweeping(ch, u) && !TestedFull(ch.ring)
    ensures var t, j := ch.ring.tail, Gap(ch.ring.tail, ch.walk.cur, |ch.ring.slots|);
            forall k :: u + 2 <= k < j ==> View(Accept(ch, skb).0.ring.slots, t)[k].skb.None?
  {
    var t, n := ch.ring.tail, |ch.ring.slots|;
    var ch' := Accept(ch, skb).0;
    SoundAccept(ch, skb);
    FrontTx(ch.ring, t, u, skb);
    forall k | u + 2 <= k < Gap(t, ch.walk.cur, n) ensures View(ch'.ring.slots, t)[k].skb.None? {
      OtherSlotsStay(ch, skb, t, u, k);
    }
  }

  lemma OtherSlotsStay(ch: Channel, skb: Skb, t: nat, u: nat, k: nat)
    requires SoundChannel(ch) && !TestedFull(ch.ring) && Front(ch.ring, t, u) && u + 2 <= k < |ch.ring.slots|
    ensures View(Accept(ch, skb).0.ring.slots, t)[k] == View(ch.ring.slots, t)[k]
  {
    var n := |ch.ring.slots|;
    SoundAccept(ch, skb);
    TxVerdict(ch.ring, skb);
    ViewAt(ch.ring.slots, t, k);
    ViewAt(Accept(ch, skb).0.ring.slots, t, k);
    assert Rot(t, k, n) != Rot(t, u, n) && Rot(t, k, n) != Next(Rot(t, u, n), n);
  }

  /* ---- Reaping ---- */

  lemma DmaTame(ch: Channel)
    requires Tame(ch)
    ensures Tame(DmaStep(ch))
  {
    if used: nat :| Ordinary(ch, used) {
      DmaPlaced(ch, used);
      assert Ordinary(DmaStep(ch), used);
    } else {
      var u: nat :| Sweeping(ch, u);
      DmaSweeping(ch, u);
    }
  }

  lemma DmaSweeping(ch: Channel, u: nat)
    requires Sweeping(ch, u)
    ensures Sweeping(DmaStep(ch), u)
  {
    var t := ch.ring.tail;
    SoundDma(ch);
    FrontHw(ch.ring, t, u);
    forall k | 0 <= k < |ch.ring.slots|
      ensures View(DmaStep(ch).ring.slots, t)[k].skb == View(ch.ring.slots, t)[k].skb
    {
      ViewAt(ch.ring.slots, t, k);
      ViewAt(DmaStep(ch).ring.slots, t, k);
    }
  }

  lemma BeginTame(ch: Channel)
    requires Tame(ch) && ch.walk == Off
    ensures Tame(Begin(ch))
  {
    var used: nat :| Ordinary(ch, used);
    BeginPlaced(ch, used);
    assert Ordinary(Begin(ch), used);
  }

  lemma ReapTame(ch: Channel)
    requires Tame(ch)
    ensures Tame(Reap(ch))
  {
    if ch.walk.On? {
      if used: nat :| Ordinary(ch, used) {
        ReapOrdinary(ch, used);
      } else {
        var u: nat :| Sweeping(ch, u);
        ReapSweeping(ch, u);
      }
    }
  }

  lemma ReapOrdinary(ch: Channel, used: nat)
    requires Ordinary(ch, used) && ch.walk.On?
    ensures Tame(Reap(ch))
  {
    if Found(ch).Some? {
      FoundPlaced(ch, used);
      assert Ordinary(Reap(ch), used);
    } else if Stopping(ch) {
      var used' := StopPlaced(ch, used);
      assert Ordinary(Reap(ch), used');
    } else if ch.walk.phase == Check {
      CheckPlaced(ch, used);
      assert Ordinary(Reap(ch), used);
    } else if Sweeps(ch) && used == 0 {
      BeginSweep(ch);
      assert Sweeping(Reap(ch), 0);
    } else {
      AdvanceOrdinary(ch, used);
    }
  }

  lemma AdvanceOrdinary(ch: Channel, used: nat)
    requires Ordinary(ch, used) && ch.walk.On? && (Sweeps(ch) ==> used > 0)
    requires InClear(ch) || (ch.walk.phase == Body && !ch.ring.slots[ch.walk.cur].valid && Found(ch).None?)
    ensures Tame(Reap(ch))
  {
    var used' := AdvancePlaced(ch, used);
    if ch.walk.circling && !Reap(ch).walk.circling {
      ComesRound(ch, used);
    }
    assert Ordinary(Reap(ch), used');
  }

  /** The circling reaper comes back to the tail: it has passed everything outside the stretch. */
  lemma ComesRound(ch: Channel, used: nat)
    requires Placed(ch, used) && Placed(Reap(ch), used) && ch.walk.On? && ch.walk.circling
    requires InClear(ch) || (ch.walk.phase == Body && !ch.ring.slots[ch.walk.cur].valid && Found(ch).None?)
    requires !Reap(ch).walk.circling
    ensures Left(Reap(ch), used) == []
  {
    var t, n := ch.ring.tail, |ch.ring.slots|;
    var j := Gap(t, ch.walk.cur, n);
    CircleOnView(ch, j);
    assert j + 1 == n;
    NothingLeft(Reap(ch), used);
  }

  /** The reaper has come round. */
  lemma NothingLeft(ch: Channel, used: nat)
    requires Placed(ch, used)
    requires forall k :: used <= k < |ch.ring.slots| ==> View(ch.ring.slots, Pos(ch))[k].skb.None?
    ensures Left(ch, used) == []
  {
    NoneHeld(View(ch.ring.slots, Pos(ch))[used..]);
  }

  lemma BeginSweep(ch: Channel)
    requires Ordinary(ch, 0) && Sweeps(ch)
    ensures Sweeping(Reap(ch), 0)
  {
    SoundReap(ch);
    TxVerdict(ch.ring, Skb(0, false));
    var v := View(ch.ring.slots, ch.ring.tail);
    ViewAt(ch.ring.slots, ch.ring.tail, 0);
    ViewAt(ch.ring.slots, ch.ring.tail, 1);
    NoneHeld(v[0..]);
    assert v[0..][1] == v[1];
  }

  lemma ReapSweeping(ch: Channel, u: nat)
    requires Sweeping(ch, u)
    ensures Tame(Reap(ch))
  {
    SoundReap(ch);
    if Found(ch).Some? {
      assert Sweeping(Reap(ch), u);
    } else if Stopping(ch) {
      StopSweeping(ch, u);
    } else if ch.walk.phase == Check {
      assert Sweeping(Reap(ch), u);
    } else {
      SweepOn(ch, u);
    }
  }

  lemma StopSweeping(ch: Channel, u: nat)
    requires Sweeping(ch, u) && Stopping(ch)
    ensures Tame(Stop(ch))
  {
    StopKeepsSound(ch.ring, ch.walk.cur);
    if ch.ring.slots[ch.walk.cur].valid {
      StopAtValid(ch, u);
    } else {
      RotatedAtHead(ch.ring, ch.ring.tail, u);
      TakenCount(ch.ring, ch.ring.tail, u);
      assert Ordinary(Stop(ch), 0);
    }
  }

  lemma StopAtValid(ch: Channel, u: nat)
    requires Sweeping(ch, u) && ch.ring.slots[ch.walk.cur].valid && Sound(Stop(ch).ring)
    ensures Tame(Stop(ch))
  {
    var r, t, cur, n := ch.ring, ch.ring.tail, ch.walk.cur, |ch.ring.slots|;
    var j := Gap(t, cur, n);
    var used' := if cur == r.head then n else Gap(cur, r.head, n);
    ValidIsFront(r, cur);
    ViewRot(r.slots, t, j);
    NoneBehind(View(r.slots, t), View(r.slots, cur), u, j, used');
    StoppedInFront(ch, used');
  }

  lemma StoppedInFront(ch: Channel, used: nat)
    requires Wf(ch) && ch.walk.On? && Front(ch.ring, ch.walk.cur, used) && Behind(ch.ring, ch.walk.cur, used) == []
    requires Sound(Stop(ch).ring)
    ensures Ordinary(Stop(ch), used)
  {
  }

  /** Seen from the head, all frames are left behind. */
  lemma RotatedAtHead(r: Ring, t: nat, u: nat)
    requires Front(r, t, u) && u < |r.slots|
    ensures Front(r, r.head, 0) && |Behind(r, r.head, 0)| == |Behind(r, t, u)| + |Taken(r, t, u)|
  {
    ViewRot(r.slots, t, u);
    var v, w := View(r.slots, t), View(r.slots, r.head);
    assert w[0..] == v[u..] + v[..u];
    SkbsConcat(v[u..], v[..u]);
  }

  lemma SweepOn(ch: Channel, u: nat)
    requires Sweeping(ch, u)
    requires InClear(ch) || (ch.walk.phase == Body && !ch.ring.slots[ch.walk.cur].valid && Found(ch).None?)
    ensures Tame(Reap(ch))
  {
    SoundReap(ch);
    var t, n := ch.ring.tail, |ch.ring.slots|;
    var j := Gap(t, ch.walk.cur, n);
    var v, v' := View(ch.ring.slots, t), View(Reap(ch).ring.slots, t);
    CircleOnView(ch, j);
    CircleOnLeft(v, v', u, j);
    SweptOn(ch, Reap(ch), u, j);
  }

  lemma SweptOn(ch: Channel, ch': Channel, u: nat, j: nat)
    requires Sweeping(ch, u) && SoundChannel(ch') && j == Gap(ch.ring.tail, ch.walk.cur, |ch.ring.slots|)
    requires ch'.ring.head == ch.ring.head && ch'.ring.tail == ch.ring.tail && |ch'.ring.slots| == |ch.ring.slots|
    requires ch'.walk == On(Next(ch.walk.cur, |ch.ring.slots|), Check, false)
    requires var v, v' := View(ch.ring.slots, ch.ring.tail), View(ch'.ring.slots, ch.ring.tail);
             && v' == v[j := v[j].(skb := None)] && v[j] == ch.ring.slots[ch.walk.cur]
             && Skbs(v[u..]) == Stored(v[j]) + Skbs(v'[u..])
    ensures Tame(ch')
  {
    FrontStays(ch.ring, ch'.ring, ch.ring.tail, u);
    if j + 1 == |ch.ring.slots| {
      NothingLeftAtTail(ch', u);
      assert Ordinary(ch', u);
    } else {
      FrontParity(ch.ring, ch.ring.tail, u);
      SweptSlot(ch, j);
      SweepsFurther(ch, ch', u, j);
    }
  }

  lemma SweepsFurther(ch: Channel, ch': Channel, u: nat, j: nat)
    requires Sweeping(ch, u) && SoundChannel(ch') && j == Gap(ch.ring.tail, ch.walk.cur, |ch.ring.slots|)
    requires j + 1 < |ch.ring.slots| == |ch'.ring.slots| && ch'.ring.tail == ch.ring.tail
    requires ch'.walk == On(Next(ch.walk.cur, |ch.ring.slots|), Check, false) && Front(ch'.ring, ch.ring.tail, u)
    requires forall k :: u <= k < j + 1 ==> View(ch'.ring.slots, ch.ring.tail)[k].skb.None?
    requires Behind(ch.ring, ch.ring.tail, u) == Stored(ch.ring.slots[ch.walk.cur]) + Behind(ch'.ring, ch.ring.tail, u)
    requires ch.ring.slots[ch.walk.cur].skb.Some? ==> j % 2 == 1
    ensures Sweeping(ch', u)
  {
    assert Gap(ch'.ring.tail, ch'.walk.cur, |ch'.ring.slots|) == j + 1;
    FewerLeft(|Behind(ch.ring, ch.ring.tail, u)|, |Behind(ch'.ring, ch.ring.tail, u)|, ch.ring.slots[ch.walk.cur], j);
  }

  /** The counting: once the reaper has passed the first slot, another frame is left, or it has passed
      two pairs. */
  lemma FewerLeft(left: nat, left': nat, s: Slot, j: nat)
    requires left == |Stored(s)| + left' && 0 < j && (s.skb.Some? ==> j % 2 == 1)
    requires if j == 1 then 2 <= left && s.skb.Some? else 4 <= j || 1 <= left
    ensures 4 <= j + 1 || 1 <= left'
  {
  }

  lemma SweptSlot(ch: Channel, j: nat)
    requires SoundChannel(ch) && ch.walk.On? && j == Gap(ch.ring.tail, ch.walk.cur, |ch.ring.slots|)
    requires ch.ring.tail % 2 == 0
    ensures ch.ring.slots[ch.walk.cur].skb.Some? ==> j % 2 == 1
  {
    SlotAt(ch.ring, ch.ring.tail, j);
  }

  lemma NothingLeftAtTail(ch: Channel, u: nat)
    requires SoundChannel(ch) && Front(ch.ring, ch.ring.tail, u) && ch.walk == On(ch.ring.tail, Check, false)
    requires forall k :: u <= k < |ch.ring.slots| ==> View(ch.ring.slots, ch.ring.tail)[k].skb.None?
    ensures Placed(ch, u) && Left(ch, u) == []
  {
    NothingLeft(ch, u);
  }

  /* ---- Refused frames ---- */

  /** A full ring has a frame left besides the one being dealt with. */
  lemma FullIsNotDone(ch: Channel)
    requires Tame(ch) && TestedFull(ch.ring) && RoomAhead(ch)
    ensures HasFrame(ch)
  {
    var nx := Next(ch.ring.head, |ch.ring.slots|);
    if !InClear(ch) || ch.walk.cur != nx {
      assert Unreaped(ch)[nx].skb.Some?;
    } else if used: nat :| Ordinary(ch, used) {
      OrdinaryHasAnother(ch, used);
    } else {
      var u: nat :| Sweeping(ch, u);
      SweepHasAnother(ch, u);
    }
  }

  lemma OrdinaryHasAnother(ch: Channel, used: nat)
    requires Ordinary(ch, used) && RoomAhead(ch) && InClear(ch) && ch.walk.cur == Next(ch.ring.head, |ch.ring.slots|)
    ensures HasFrame(ch)
  {
    var n := |ch.ring.slots|;
    assert !ch.walk.circling;
    AlmostAllRound(ch.ring.head, ch.walk.cur, used, n);
    FrontSlot(ch.ring, ch.walk.cur, used, 2);
    ViewAt(ch.ring.slots, ch.walk.cur, 2);
    assert Unreaped(ch)[Rot(ch.walk.cur, 2, n)].skb.Some?;
  }

  lemma AlmostAllRound(head: nat, cur: nat, used: nat, n: nat)
    requires 4 <= n && head < n && cur == Next(head, n) && used <= n && head == Rot(cur, used, n)
    ensures used == n - 1 && Rot(cur, 2, n) != cur
  {
  }

  lemma SweepHasAnother(ch: Channel, u: nat)
    requires Sweeping(ch, u) && InClear(ch) && ch.walk.cur == Next(ch.ring.head, |ch.ring.slots|)
    ensures HasFrame(ch)
  {
    var k: nat;
    if u == 0 {
      k := SecondBehind(ch);
    } else {
      FirstSent(ch, u);
      k := 1;
    }
    ViewAt(ch.ring.slots, ch.ring.tail, k);
    assert Unreaped(ch)[Rot(ch.ring.tail, k, |ch.ring.slots|)].skb.Some?;
  }

  lemma FirstSent(ch: Channel, u: nat)
    requires Sweeping(ch, u) && 0 < u
    ensures 1 < u && View(ch.ring.slots, ch.ring.tail)[1].skb.Some?
    ensures Gap(ch.ring.tail, ch.walk.cur, |ch.ring.slots|) != 1
  {
    FrontSlot(ch.ring, ch.ring.tail, u, 1);
  }

  /** With the reaper at the first frame and nothing transmitted since, there is a second one. */
  lemma SecondBehind(ch: Channel) returns (k: nat)
    requires Sweeping(ch, 0) && Gap(ch.ring.tail, ch.walk.cur, |ch.ring.slots|) == 1
    ensures 2 <= k < |ch.ring.slots| && View(ch.ring.slots, ch.ring.tail)[k].skb.Some?
  {
    var v := View(ch.ring.slots, ch.ring.tail);
    ViewAt(ch.ring.slots, ch.ring.tail, 0);
    TxVerdict(ch.ring, Skb(0, false));
    assert v[0..] == v[..1] + ([v[1]] + v[2..]);
    OneAfterNone(v[..1], v[1], v[2..]);
    NoneHeld(v[2..]);
    var i :| 0 <= i < |v[2..]| && v[2..][i].skb.Some?;
    k := i + 2;
  }

  /* ---- Continuations that are safe ---- */

  ghost predicate TameDriver(d: Driver) {
    SoundDriver(d) && Tame(d.low) && Tame(d.high) && Wakeable(d)
  }

  lemma ChannelStaysTame(d: Driver, e: Event)
    requires SoundDriver(d) && Tame(Get(d, Concerned(e))) && Orderly(d, e)
    ensures Tame(ChannelAfter(d, e))
  {
    var ch := Get(d, Concerned(e));
    match e
    case Transmit(c, skb) => AcceptTame(ch, skb);
    case Complete(c) => DmaTame(ch);
    case AckInd =>
    case BeginReap(c) => if d.low.walk == Off && d.high.walk == Off { BeginTame(ch); }
    case ReapStep(c) => ReapTame(ch);
  }

  lemma BothTame(d: Driver, s: Driver, c: ChanId)
    requires Tame(d.low) && Tame(d.high) && Tame(Get(s, c)) && Get(s, Other(c)) == Get(d, Other(c))
    ensures Tame(s.low) && Tame(s.high)
  {
  }

  lemma StepStaysTame(d: Driver, e: Event)
    requires TameDriver(d) && Orderly(d, e)
    ensures TameDriver(Step(d, e))
  {
    ChannelStaysTame(d, e);
    StepConcerns(d, e);
    BothTame(d, Step(d, e), Concerned(e));
    StepKeepsSound(d, e);
    if e.Transmit? && TestedFull(Get(d, e.ch).ring) {
      FullIsNotDone(Get(d, e.ch));
    }
    StepKeepsWakeable(d, e);
  }

  lemma {:induction false} RunStaysTame(d: Driver, es: seq<Event>)
    requires TameDriver(d) && OrderlyRun(d, es)
    ensures TameDriver(Run(d, es))
    decreases |es|
  {
    if es != [] {
      StepStaysTame(d, es[0]);
      RunStaysTame(Step(d, es[0]), es[1..]);
    }
  }

  /** A frame that leaves none or several frames behind. */
  lemma TransmitIsTame(d: Driver, c: ChanId, skb: Skb)
    requires Inv(d) && !LeavesOneBehind(Get(d, c))
    ensures TameDriver(Step(d, Transmit(c, skb)))
  {
    var ch := Get(d, c);
    InvariantIsTame(d.low);
    InvariantIsTame(d.high);
    if RoomAhead(ch) {
      StepStaysTame(d, Transmit(c, skb));
    } else {
      CatchingUpIsTame(ch, skb);
      TransmitResult(d, c, skb);
      StepKeepsSound(d, Transmit(c, skb));
      StepKeepsWakeable(d, Transmit(c, skb));
    }
  }

  lemma CatchingUpIsTame(ch: Channel, skb: Skb)
    requires ChanInv(ch) && CatchesUp(ch) && !LeavesOneBehind(ch)
    ensures !TestedFull(ch.ring) && Tame(Accept(ch, skb).0)
  {
    var used: nat :| InOrder(ch, used);
    CircleHasRoom(ch, used);
    InOrderFacts(ch, used);
    var now := AcceptCatchingUp(ch, used, skb);
    assert Ordinary(Accept(ch, skb).0, now);
  }

  /* ---- Losing the wake-up ---- */

  ghost predicate OnlyFrame(slots: seq<Slot>, i: nat, x: Skb) {
    i < |slots| && forall k :: 0 <= k < |slots| ==> slots[k].skb == if k == i then Some(x) else None
  }

  /** No reap is under way, channel `c` is at rest with its head at its tail, and its only frame is
      left behind in slot `i`. */
  ghost predicate OneLeft(d: Driver, c: ChanId, i: nat, x: Skb) {
    && SoundDriver(d) && Get(d, Other(c)).walk == Off && !HasFrame(Get(d, Other(c))) && d.ackSkb.None?
    && AtRest(Get(d, c)) && NoneValid(Get(d, c)) && OnlyFrame(Get(d, c).ring.slots, i, x)
  }

  lemma {:induction false} OnlySkb(v: seq<Slot>, x: Skb) returns (i: nat)
    requires Skbs(v) == [x]
    ensures OnlyFrame(v, i, x)
  {
    if v[0].skb.Some? {
      i := 0;
      assert Stored(v[0]) + Skbs(v[1..]) == [x];
      assert Stored(v[0])[0] == (Stored(v[0]) + Skbs(v[1..]))[0];
      assert |Stored(v[0]) + Skbs(v[1..])| == 1 + |Skbs(v[1..])|;
      NoneHeld(v[1..]);
      assert forall k :: 0 < k < |v| ==> v[k] == v[1..][k - 1];
    } else {
      assert [] + Skbs(v[1..]) == Skbs(v[1..]);
      var k := OnlySkb(v[1..], x);
      i := k + 1;
      assert forall k :: 0 < k < |v| ==> v[k] == v[1..][k - 1];
    }
  }

  /** With everything before the head reaped, the frame left behind is the only one. */
  lemma OneRemains(ch: Channel, used: nat, ch': Channel, x: Skb) returns (i: nat)
    requires Placed(ch, used) && ch.walk == Off && Left(ch, used) == [x] && Passed(ch, ch.ring.tail, used, ch')
    ensures OnlyFrame(ch'.ring.slots, i, x)
  {
    var t, n, v := ch.ring.tail, |ch.ring.slots|, View(ch.ring.slots, ch.ring.tail);
    var k := OnlySkb(v[used..], x);
    i := Rot(t, used + k, n);
    forall m | 0 <= m < n ensures ch'.ring.slots[m].skb == if m == i then Some(x) else None {
      var g := Gap(t, m, n);
      ViewAt(ch.ring.slots, t, g);
      if used <= g {
        assert v[used..][g - used] == v[g];
      }
    }
  }

  /** A new frame goes through the ring, and the head gets nearer to the frame left behind. */
  lemma NextFrame(d: Driver, c: ChanId, i: nat, x: Skb) returns (es: seq<Event>)
    requires OneLeft(d, c, i, x) && !TestedFull(Get(d, c).ring)
    ensures OrderlyRun(d, es) && OneLeft(Run(d, es), c, i, x)
    ensures Nearer(Get(d, c).ring, Get(Run(d, es), c).ring, i)
  {
    var b := Skb(0, false);
    var d1 := Step(d, Transmit(c, b));
    PlainAccept(d, c, b);
    AcceptHasNext(Get(d, c), b);
    var fs, s := Drain(d1, c, 2);
    RunCons(d, Transmit(c, b), fs);
    es := [Transmit(c, b)] + fs;
    Throughput(Get(d, c), Get(d1, c), Get(s, c), i, x, b);
  }

  ghost predicate Nearer(r: Ring, r': Ring, i: nat) {
    && WfRing(r) && WfRing(r') && |r'.slots| == |r.slots| && i < |r.slots|
    && Gap(r'.head, i, |r.slots|) < Gap(r.head, i, |r.slots|)
  }

  ghost predicate HasNext(r: Ring, r': Ring, b: Skb) {
    && WfRing(r) && |r'.slots| == |r.slots| && r.head + 1 < |r.slots| && r'.tail == r.tail
    && r'.head == Next(r.head + 1, |r.slots|)
    && forall k :: 0 <= k < |r.slots| ==> r'.slots[k].skb == if k == r.head + 1 then Some(b) else r.slots[k].skb
  }

  lemma AcceptHasNext(ch: Channel, b: Skb)
    requires SoundChannel(ch) && !TestedFull(ch.ring)
    ensures HasNext(ch.ring, Accept(ch, b).0.ring, b)
    ensures Accept(ch, b).0.ring.head == Rot(ch.ring.head, 2, |ch.ring.slots|)
    ensures ch.walk == Off ==> Accept(ch, b).0.walk == Off
  {
    SoundAccept(ch, b);
    TxVerdict(ch.ring, b);
  }

  lemma Throughput(ch: Channel, ch1: Channel, ch2: Channel, i: nat, x: Skb, b: Skb)
    requires SoundChannel(ch) && OnlyFrame(ch.ring.slots, i, x) && !TestedFull(ch.ring) && AtRest(ch)
    requires HasNext(ch.ring, ch1.ring, b) && Passed(ch1, ch.ring.tail, 2, ch2)
    ensures OnlyFrame(ch2.ring.slots, i, x) && Nearer(ch.ring, ch2.ring, i)
  {
    var n, t := |ch.ring.slots|, ch.ring.head;
    HeadGetsNearer(ch.ring, i);
    assert Gap(t, t, n) == 0 && Gap(t, t + 1, n) == 1;
    forall k | 0 <= k < n ensures ch2.ring.slots[k].skb == if k == i then Some(x) else None {
      assert Gap(t, k, n) < 2 <==> k == t || k == t + 1;
    }
  }

  lemma HeadGetsNearer(r: Ring, i: nat)
    requires Sound(r) && i < |r.slots| && r.slots[i].skb.Some? && !TestedFull(r)
    ensures r.head + 1 < |r.slots| && Gap(Next(r.head + 1, |r.slots|), i, |r.slots|) < Gap(r.head, i, |r.slots|)
    ensures i != r.head && i != r.head + 1
  {
    TxVerdict(r, Skb(0, false));
    assert SoundSlot(r.slots[i], i);
  }

  /** The head goes round until it meets the frame left behind. */
  lemma {:induction false} HeadMeetsFrame(d: Driver, c: ChanId, i: nat, x: Skb) returns (es: seq<Event>)
    requires OneLeft(d, c, i, x)
    ensures OrderlyRun(d, es) && OneLeft(Run(d, es), c, i, x) && TestedFull(Get(Run(d, es), c).ring)
    decreases Gap(Get(d, c).ring.head, i, |Get(d, c).ring.slots|)
  {
    if TestedFull(Get(d, c).ring) {
      es := [];
    } else {
      var e1 := NextFrame(d, c, i, x);
      var e2 := HeadMeetsFrame(Run(d, e1), c, i, x);
      OrderlyConcat(d, e1, e2);
      es := e1 + e2;
    }
  }

  /** The reaper begins at the head, finds the frame, and has just released it. */
  lemma ReapUpToClear(ch: Channel, x: Skb)
    requires SoundChannel(ch) && AtRest(ch) && NoneValid(ch) && TestedFull(ch.ring)
    requires OnlyFrame(ch.ring.slots, Next(ch.ring.head, |ch.ring.slots|), x)
    ensures QuietRun(Begin(ch), [Reaper, Reaper, Reaper])
         == ch.(walk := On(Next(ch.ring.head, |ch.ring.slots|), Clear, false), reaped := ch.reaped + [x])
  {
    var nx := Next(ch.ring.head, |ch.ring.slots|);
    TxVerdict(ch.ring, x);
    var c1 := Begin(ch);
    QuietCons(c1, Reaper, [Reaper, Reaper]);
    var c2 := Reap(c1);
    assert c2 == ch.(walk := On(nx, Check, false));
    QuietCons(c2, Reaper, [Reaper]);
    var c3 := Reap(c2);
    assert c3 == ch.(walk := On(nx, Body, false));
    QuietCons(c3, Reaper, []);
    assert [Reaper] + [Reaper, Reaper] == [Reaper, Reaper, Reaper] && [Reaper] + [Reaper] == [Reaper, Reaper];
    assert [Reaper] + [] == [Reaper];
  }

  /** Then the next frame stops the queues for nothing. */
  lemma StopForNothing(d: Driver, c: ChanId, i: nat, x: Skb) returns (es: seq<Event>)
    requires OneLeft(d, c, i, x) && TestedFull(Get(d, c).ring)
    ensures OrderlyRun(d, es) && Lost(Run(d, es))
  {
    var ch, b, three := Get(d, c), Skb(0, false), [Reaper, Reaper, Reaper];
    assert i == Next(ch.ring.head, |ch.ring.slots|);
    BeginAlone(d, c);
    var d1 := Step(d, BeginReap(c));
    var d2 := QuietEvents(d1, three, c);
    ReapUpToClear(ch, x);
    es := [BeginReap(c)] + EventsOf(three, c);
    QuietFurther(d, [BeginReap(c)], d1, EventsOf(three, c), d2, c);
    NoTransmitIsOrderly(d, es);
    RefusedInClear(d2, c, i, x, b);
    RunCons(d2, Transmit(c, b), []);
    OrderlyConcat(d, es, [Transmit(c, b)] + []);
    es := es + ([Transmit(c, b)] + []);
  }

  lemma RefusedInClear(d: Driver, c: ChanId, i: nat, x: Skb, b: Skb)
    requires SoundDriver(d) && !b.wantsStatus && d.ackSkb.None? && !HasFrame(Get(d, Other(c)))
    requires OnlyFrame(Get(d, c).ring.slots, i, x) && Get(d, c).walk == On(i, Clear, false)
    requires i == Next(Get(d, c).ring.head, |Get(d, c).ring.slots|)
    ensures Orderly(d, Transmit(c, b)) && Lost(Step(d, Transmit(c, b)))
  {
    DealtWithAll(Get(d, c), i, x);
    TransmitResult(d, c, b);
    RefusedIsLost(d, c, b);
  }

  lemma DealtWithAll(ch: Channel, i: nat, x: Skb)
    requires Wf(ch) && OnlyFrame(ch.ring.slots, i, x) && ch.walk == On(i, Clear, false)
    ensures !HasFrame(ch)
  {
  }

  lemma RefusedIsLost(d: Driver, c: ChanId, b: Skb)
    requires WfDriver(d) && !b.wantsStatus && d.ackSkb.None? && !HasFrame(Get(d, c)) && !HasFrame(Get(d, Other(c)))
    ensures Lost(Refused(d, b))
  {
  }

  /** From the frames that the reaper has left behind to the state where one is left in the ring and
      nothing else is to be done. */
  lemma Tidy(d: Driver, c: ChanId, used: nat, x: Skb) returns (es: seq<Event>, i: nat)
    requires SoundDriver(d) && d.low.walk == Off && d.high.walk == Off
    requires Placed(Get(d, c), used) && Left(Get(d, c), used) == [x]
    ensures OrderlyRun(d, es) && OneLeft(Run(d, es), c, i, x)
  {
    var e1, s1 := EmptyRing(d, Other(c));
    OtherWay(d, s1, c);
    var e2, s2 := Drain(s1, c, used);
    i := OneRemains(Get(d, c), used, Get(s2, c), x);
    AckTidies(s2, c, i, x);
    OrderlyConcat(d, e1, e2);
    OrderlyConcat(d, e1 + e2, [AckInd]);
    es := e1 + e2 + [AckInd];
  }

  lemma AckTidies(s: Driver, c: ChanId, i: nat, x: Skb)
    requires SoundDriver(s) && Get(s, Other(c)).walk == Off && Empty(Get(s, Other(c)))
    requires AtRest(Get(s, c)) && NoneValid(Get(s, c)) && OnlyFrame(Get(s, c).ring.slots, i, x)
    ensures OrderlyRun(s, [AckInd]) && OneLeft(Run(s, [AckInd]), c, i, x)
  {
    AckKeepsSound(s);
    RunSingle(s, AckInd);
    RunCons(s, AckInd, []);
    assert [AckInd] + [] == [AckInd];
    EmptyHasNone(Get(s, Other(c)));
    AckOnly(s, c);
  }

  lemma AckOnly(s: Driver, c: ChanId)
    requires WfDriver(s)
    ensures Get(TxAckInd(s), c) == Get(s, c) && TxAckInd(s).ackSkb.None?
  {
  }

  /** If exactly one frame is left behind, there is an orderly continuation that loses the
      wake-up. */
  lemma LosesWakeUp(d: Driver, c: ChanId) returns (skb: Skb, es: seq<Event>)
    requires Inv(d) && LeavesOneBehind(Get(d, c))
    ensures OrderlyRun(Step(d, Transmit(c, skb)), es) && Lost(Run(Step(d, Transmit(c, skb)), es))
  {
    skb := Skb(0, false);
    var d1 := Step(d, Transmit(c, skb));
    var now, s := CatchUpAndStop(d, c, skb);
    var x := TheOneLeft(Get(d, c), skb, Get(s, c), now);
    var fs := LosesFromStop(s, c, now, x);
    OrderlyConcat(d1, [ReapStep(c)], fs);
    es := [ReapStep(c)] + fs;
  }

  lemma TheOneLeft(ch: Channel, skb: Skb, ch': Channel, now: nat) returns (x: Skb)
    requires Wf(ch) && LeavesOneBehind(ch) && CaughtOut(ch, skb, ch', now) && now + Room(ch) == 2
    ensures Left(ch', now) == [x]
  {
    var left := Left(ch', now);
    assert |left| == 1;
    x := left[0];
  }

  lemma LosesFromStop(s: Driver, c: ChanId, used: nat, x: Skb) returns (es: seq<Event>)
    requires SoundDriver(s) && s.low.walk == Off && s.high.walk == Off
    requires Placed(Get(s, c), used) && Left(Get(s, c), used) == [x]
    ensures OrderlyRun(s, es) && Lost(Run(s, es))
  {
    var e1, i := Tidy(s, c, used, x);
    var e2 := HeadMeetsFrame(Run(s, e1), c, i, x);
    var e3 := StopForNothing(Run(Run(s, e1), e2), c, i, x);
    OrderlyConcat(Run(s, e1), e2, e3);
    OrderlyConcat(s, e1, e2 + e3);
    es := e1 + (e2 + e3);
  }

  lemma TameIsNotLost(d: Driver)
    requires TameDriver(d)
    ensures !Lost(d)
  {
  }

  /** No orderly continuation of a transmit stops the queues for good. */
  ghost predicate NeverLost(d: Driver, c: ChanId)
    requires WfDriver(d)
  {
    forall skb: Skb, es: seq<Event> ::
      OrderlyRun(Step(d, Transmit(c, skb)), es) ==> !StoppedForGood(Run(Step(d, Transmit(c, skb)), es))
  }

  lemma NeverLostExactly(d: Driver, c: ChanId)
    requires Inv(d)
    ensures NeverLost(d, c) <==> !LeavesOneBehind(Get(d, c))
  {
    if LeavesOneBehind(Get(d, c)) {
      var skb, es := LosesWakeUp(d, c);
      StepKeepsSound(d, Transmit(c, skb));
      RunKeepsSound(Step(d, Transmit(c, skb)), es);
      LostExactly(Run(Step(d, Transmit(c, skb)), es));
      assert !NeverLost(d, c);
    } else {
      forall skb: Skb, es: seq<Event> | OrderlyRun(Step(d, Transmit(c, skb)), es)
        ensures !StoppedForGood(Run(Step(d, Transmit(c, skb)), es))
      {
        TransmitIsTame(d, c, skb);
        RunStaysTame(Step(d, Transmit(c, skb)), es);
        TameIsNotLost(Run(Step(d, Transmit(c, skb)), es));
        LostExactly(Run(Step(d, Transmit(c, skb)), es));
      }
    }
  }

  /** Exactly which transmits can lose a wake-up: in every state reached by an orderly run, the
      queues can be stopped for good in some orderly continuation of a transmit if and only if the
      head catches up with a circling reaper and exactly one frame is left behind. */
  lemma {:induction false} WakeUpExactly(d: Driver, es: seq<Event>, c: ChanId)
    requires Boot(d) && OrderlyRun(d, es)
    ensures NeverLost(Run(d, es), c) <==> !LeavesOneBehind(Get(Run(d, es), c))
  {
    Reachable(d, es);
    NeverLostExactly(Run(d, es), c);
  }
}
