/** The runs that the code of `reap_tx_dxes` makes: how the steps of its loop, and what comes in
    between, add up to a run of TxDriver. */
module ReapRuns {
  import opened Common
  import opened Circle
  import opened TxRing
  import TC = TxChannel
  import opened TxDriver
  import opened TxBound

  /** The events of one call of `reap_tx_dxes`: its own steps, and what comes in between. */
  predicate ReapEvents(es: seq<Event>, c: ChanId) {
    forall e :: e in es ==> e == AckInd || e.ch == c
  }

  /** An event that is not a step of the reaper. */
  predicate Between(e: Event, c: ChanId) {
    e == AckInd || (e.ch == c && (e.Complete? || e.Transmit?))
  }

  predicate AtBody(ch: TC.Channel) {
    ch.walk.On? && ch.walk.phase == TC.Body
  }

  predicate AtCheck(ch: TC.Channel) {
    ch.walk.On? && ch.walk.phase == TC.Check
  }

  /** The reaper itself has not moved. */
  predicate SameWalk(ch: TC.Channel, ch': TC.Channel) {
    && (ch.walk.On? <==> ch'.walk.On?)
    && (ch.walk.On? ==> ch'.walk.cur == ch.walk.cur && ch'.walk.phase == ch.walk.phase)
  }

  /** A part of a reap: it has passed `passed` slots, and each frame that the ring has taken is one of
      those that mac80211 has handed over and that are not left in `rest`. */
  ghost predicate Went(d: Driver, c: ChanId, frames: seq<Skb>, es: seq<Event>, d': Driver, rest: seq<Skb>, passed: nat) {
    && WfDriver(d) && WfDriver(d') && d' == Run(d, es) && ReapEvents(es, c) && BeginReap(c) !in es
    && Passed(d, es, c) == passed && Sent(d, es, c) + |rest| <= |frames|
    && Get(d', Other(c)) == Get(d, Other(c))
  }

  lemma WentNowhere(d: Driver, c: ChanId, frames: seq<Skb>)
    requires WfDriver(d)
    ensures Went(d, c, frames, [], d, frames, 0)
  {
  }

  lemma {:induction false} CountsAdd(d: Driver, es: seq<Event>, fs: seq<Event>, c: ChanId)
    requires WfDriver(d)
    ensures Passed(d, es + fs, c) == Passed(d, es, c) + Passed(Run(d, es), fs, c)
    ensures Sent(d, es + fs, c) == Sent(d, es, c) + Sent(Run(d, es), fs, c)
    decreases |es|
  {
    if es == [] {
      assert es + fs == fs;
    } else {
      assert (es + fs)[1..] == es[1..] + fs;
      CountsAdd(Step(d, es[0]), es[1..], fs, c);
    }
  }

  lemma WentFurther(d: Driver, c: ChanId, frames: seq<Skb>, es: seq<Event>, s: Driver, f: seq<Skb>, p: nat,
                    fs: seq<Event>, t: Driver, rest: seq<Skb>, q: nat)
    requires Went(d, c, frames, es, s, f, p) && Went(s, c, f, fs, t, rest, q)
    ensures Went(d, c, frames, es + fs, t, rest, p + q)
  {
    RunConcat(d, es, fs);
    CountsAdd(d, es, fs, c);
  }

  lemma OneStep(d: Driver, e: Event, c: ChanId)
    requires WfDriver(d)
    ensures Run(d, [e]) == Step(d, e) && Sent(d, [e], c) == One(Sends(d, e, c))
    ensures Passed(d, [e], c) == One(e == ReapStep(c) && Passes(Get(d, c)))
  {
    assert [e][1..] == [];
  }

  lemma BetweenSteps(d: Driver, c: ChanId, frames: seq<Skb>, e: Event, rest: seq<Skb>)
    requires WfDriver(d) && Between(e, c)
    requires if e.Transmit? then frames == [e.skb] + rest else rest == frames
    ensures Went(d, c, frames, [e], Step(d, e), rest, 0) && SameWalk(Get(d, c), Get(Step(d, e), c))
  {
    OneStep(d, e, c);
    if e.Transmit? {
      TransmitSteps(d, c, e.skb);
    }
  }

  lemma AcceptWalk(ch: TC.Channel, skb: Skb)
    requires TC.Wf(ch)
    ensures SameWalk(ch, TC.Accept(ch, skb).0)
  {
  }

  lemma FrameWalk(d: Driver, c: ChanId, skb: Skb)
    requires WfDriver(d)
    ensures var s := TxDriver.TxFrame(d, c, skb).0;
            Get(s, Other(c)) == Get(d, Other(c)) && SameWalk(Get(d, c), Get(s, c))
  {
    AcceptWalk(Get(d, c), skb);
  }

  lemma StartWalk(d: Driver, c: ChanId, skb: Skb)
    requires WfDriver(d)
    ensures var s := TxDriver.StartTx(d, c, skb).0;
            Get(s, Other(c)) == Get(d, Other(c)) && SameWalk(Get(d, c), Get(s, c))
  {
    FrameWalk(d, c, skb);
    FrameWalk(d.(ackSkb := Some(skb), macStopped := true), c, skb);
  }

  lemma TransmitSteps(d: Driver, c: ChanId, skb: Skb)
    requires WfDriver(d)
    ensures Get(TxSkb(d, c, skb), Other(c)) == Get(d, Other(c)) && SameWalk(Get(d, c), Get(TxSkb(d, c, skb), c))
  {
    StartWalk(d, c, skb);
  }

  lemma BeginStep(d: Driver, c: ChanId)
    requires WfDriver(d) && d.low.walk == TC.Off && d.high.walk == TC.Off
    ensures Step(d, BeginReap(c)) == Put(d, c, TC.Begin(Get(d, c)))
  {
  }

  /** A step of the reaper that passes a slot. */
  lemma PassesHere(d: Driver, c: ChanId, frames: seq<Skb>)
    requires WfDriver(d) && Passes(Get(d, c))
    ensures var ch, d' := Get(d, c), Step(d, ReapStep(c));
            var ch' := Get(d', c);
            && Went(d, c, frames, [ReapStep(c)], d', frames, 1) && d' == Put(d, c, ch')
            && AtCheck(ch') && ch'.walk.cur == Next(ch.walk.cur, |ch.ring.slots|)
            && ch'.ring == if TC.InClear(ch) then RingClear(ch.ring, ch.walk.cur) else ch.ring
  {
    OneStep(d, ReapStep(c), c);
  }

  /** A step that deals with a frame. */
  lemma FindsHere(d: Driver, c: ChanId, frames: seq<Skb>)
    requires WfDriver(d) && TC.Found(Get(d, c)).Some?
    ensures var ch, d' := Get(d, c), Step(d, ReapStep(c));
            var ch' := Get(d', c);
            && Went(d, c, frames, [ReapStep(c)], d', frames, 0)
            && ch'.ring == ch.ring && ch'.walk == ch.walk.(phase := TC.Clear)
  {
    OneStep(d, ReapStep(c), c);
  }

  lemma GoesOn(d: Driver, c: ChanId, frames: seq<Skb>)
    requires WfDriver(d) && AtCheck(Get(d, c)) && !TC.Stopping(Get(d, c))
    ensures var ch, d' := Get(d, c), Step(d, ReapStep(c));
            var ch' := Get(d', c);
            && Went(d, c, frames, [ReapStep(c)], d', frames, 0) && d' == Put(d, c, ch')
            && ch'.ring == ch.ring && ch'.walk == ch.walk.(phase := TC.Body)
  {
    OneStep(d, ReapStep(c), c);
  }

  lemma StopsHere(d: Driver, c: ChanId, frames: seq<Skb>)
    requires WfDriver(d) && TC.Stopping(Get(d, c))
    ensures var d' := Step(d, ReapStep(c));
            && Went(d, c, frames, [ReapStep(c)], d', frames, 0) && d' == Put(d, c, TC.Stop(Get(d, c)))
  {
    OneStep(d, ReapStep(c), c);
  }

  /** One more iteration of the loop. */
  lemma LoopFurther(d: Driver, c: ChanId, frames: seq<Skb>, es: seq<Event>, s: Driver, f: seq<Skb>, p: nat,
                    fs: seq<Event>, t: Driver, rest: seq<Skb>, q: nat)
    requires SoundDriver(d) && Went(d, c, frames, es, s, f, p) && Went(s, c, f, fs, t, rest, q)
    ensures Went(d, c, frames, es + fs, t, rest, p + q)
    ensures p + q <= Ahead(Get(d, c)) + 2 * (|frames| - |rest|)
  {
    WentFurther(d, c, frames, es, s, f, p, fs, t, rest, q);
    PassedAtMost(d, es + fs, c);
  }

  /** The run `es` from `d` to `d'` keeps what is to be kept. */
  ghost predicate Kept(d: Driver, es: seq<Event>, d': Driver)
    requires WfDriver(d)
  {
    SoundDriver(d') && (Inv(d) && OrderlyRun(d, es) ==> Inv(d'))
  }

  lemma RunIsKept(d: Driver, es: seq<Event>, d': Driver)
    requires SoundDriver(d) && d' == Run(d, es)
    ensures Kept(d, es, d')
  {
    RunKeepsSound(d, es);
    if Inv(d) && OrderlyRun(d, es) {
      RunKeepsInv(d, es);
    }
  }

  lemma ReapEnds(d: Driver, c: ChanId, frames: seq<Skb>, es: seq<Event>, last: Driver, rest: seq<Skb>, passed: nat)
      returns (d': Driver, all: seq<Event>)
    requires SoundDriver(d) && d.low.walk == TC.Off && d.high.walk == TC.Off
    requires Went(Step(d, BeginReap(c)), c, frames, es, last, rest, passed) && TC.Stopping(Get(last, c))
    ensures d' == Step(last, ReapStep(c)) && Went(Step(d, BeginReap(c)), c, frames, all, d', rest, passed)
    ensures d'.low.walk == TC.Off && d'.high.walk == TC.Off
    ensures passed <= |Get(d, c).ring.slots| + 2 * (|frames| - |rest|)
    ensures Kept(d, [BeginReap(c)] + all, d')
  {
    BeginStep(d, c);
    d', all := StopsAfter(Put(d, c, TC.Begin(Get(d, c))), c, frames, es, last, rest, passed);
    WholeReap(d, c, frames, all, d', rest, passed);
  }

  lemma StopsAfter(d: Driver, c: ChanId, frames: seq<Skb>, es: seq<Event>, last: Driver, rest: seq<Skb>, passed: nat)
      returns (d': Driver, all: seq<Event>)
    requires Went(d, c, frames, es, last, rest, passed) && TC.Stopping(Get(last, c))
    ensures d' == Step(last, ReapStep(c)) && Went(d, c, frames, all, d', rest, passed)
    ensures Get(d', c).walk == TC.Off
  {
    d', all := Step(last, ReapStep(c)), es + [ReapStep(c)];
    StopsHere(last, c, rest);
    WentFurther(d, c, frames, es, last, rest, passed, [ReapStep(c)], d', rest, 0);
  }

  lemma WholeReap(d: Driver, c: ChanId, frames: seq<Skb>, es: seq<Event>, d': Driver, rest: seq<Skb>, passed: nat)
    requires SoundDriver(d) && d.low.walk == TC.Off && d.high.walk == TC.Off
    requires Went(Step(d, BeginReap(c)), c, frames, es, d', rest, passed)
    ensures passed <= |Get(d, c).ring.slots| + 2 * (|frames| - |rest|)
    ensures Kept(d, [BeginReap(c)] + es, d')
  {
    ReapIsBounded(d, c, es);
    OneStep(d, BeginReap(c), c);
    RunConcat(d, [BeginReap(c)], es);
    RunIsKept(d, [BeginReap(c)] + es, d');
  }
}
