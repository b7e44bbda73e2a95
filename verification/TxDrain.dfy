/** What the engine and the reaper do when no frame is transmitted: they can always hand over
    everything that is in a ring. */
module TxDrain {
  import opened Common
  import opened Circle
  import opened TxRing
  import opened TxChannel
  import opened TxDriver
  import opened TxTheorems

  /* ---- Runs of one channel without transmits ---- */

  lemma {:induction false} OrderlyAppend(d: Driver, es: seq<Event>, fs: seq<Event>)
    requires WfDriver(d) && OrderlyRun(d, es) && OrderlyRun(Run(d, es), fs)
    ensures OrderlyRun(d, es + fs)
    decreases |es|
  {
    if es == [] {
      assert es + fs == fs;
    } else {
      OrderlyAppend(Step(d, es[0]), es[1..], fs);
      SplitFirst(es, fs);
    }
  }

  lemma SplitFirst<T>(es: seq<T>, fs: seq<T>)
    requires es != []
    ensures es + fs != [] && (es + fs)[0] == es[0] && (es + fs)[1..] == es[1..] + fs
  {
  }

  lemma OrderlyConcat(d: Driver, es: seq<Event>, fs: seq<Event>)
    requires WfDriver(d) && OrderlyRun(d, es) && OrderlyRun(Run(d, es), fs)
    ensures OrderlyRun(d, es + fs) && Run(d, es + fs) == Run(Run(d, es), fs)
  {
    OrderlyAppend(d, es, fs);
    RunConcat(d, es, fs);
  }

  lemma RunCons(d: Driver, e: Event, es: seq<Event>)
    requires WfDriver(d)
    ensures Run(d, [e] + es) == Run(Step(d, e), es)
    ensures OrderlyRun(d, [e] + es) <==> Orderly(d, e) && OrderlyRun(Step(d, e), es)
  {
    assert ([e] + es)[1..] == es;
  }

  datatype Quiet = Dma | Reaper

  function QuietStep(ch: Channel, q: Quiet): (ch': Channel)
    requires Wf(ch)
    ensures Wf(ch')
  {
    if q == Dma then DmaStep(ch) else Reap(ch)
  }

  function QuietRun(ch: Channel, qs: seq<Quiet>): (ch': Channel)
    requires Wf(ch)
    ensures Wf(ch')
    decreases |qs|
  {
    if qs == [] then ch else QuietRun(QuietStep(ch, qs[0]), qs[1..])
  }

  lemma {:induction false} QuietConcat(ch: Channel, qs: seq<Quiet>, rs: seq<Quiet>)
    requires Wf(ch)
    ensures QuietRun(ch, qs + rs) == QuietRun(QuietRun(ch, qs), rs)
    decreases |qs|
  {
    if qs == [] {
      assert qs + rs == rs;
    } else {
      assert (qs + rs)[1..] == qs[1..] + rs;
      QuietConcat(QuietStep(ch, qs[0]), qs[1..], rs);
    }
  }

  lemma QuietCons(ch: Channel, q: Quiet, qs: seq<Quiet>)
    requires Wf(ch)
    ensures QuietRun(ch, [q] + qs) == QuietRun(QuietStep(ch, q), qs)
  {
    assert ([q] + qs)[1..] == qs;
  }

  function EventOf(q: Quiet, c: ChanId): Event {
    if q == Dma then Complete(c) else ReapStep(c)
  }

  function EventsOf(qs: seq<Quiet>, c: ChanId): seq<Event> {
    if qs == [] then [] else [EventOf(qs[0], c)] + EventsOf(qs[1..], c)
  }

  predicate NoTransmit(es: seq<Event>) {
    forall i :: 0 <= i < |es| ==> !es[i].Transmit?
  }

  lemma {:induction false} NoTransmitIsOrderly(d: Driver, es: seq<Event>)
    requires WfDriver(d) && NoTransmit(es)
    ensures OrderlyRun(d, es)
    decreases |es|
  {
    if es != [] {
      assert !es[0].Transmit?;
      NoTransmitIsOrderly(Step(d, es[0]), es[1..]);
    }
  }

  /** What such events leave alone. */
  ghost predicate Elsewhere(d: Driver, s: Driver, c: ChanId) {
    Get(s, Other(c)) == Get(d, Other(c)) && s.ackSkb == d.ackSkb
  }

  /** A run in which nothing is transmitted, from `d` to `s`; it concerns channel `c` alone. */
  ghost predicate QuietTo(d: Driver, es: seq<Event>, s: Driver, c: ChanId) {
    && SoundDriver(d) && SoundDriver(s) && s == Run(d, es) && NoTransmit(es) && Elsewhere(d, s, c)
  }

  lemma QuietFurther(d: Driver, es: seq<Event>, s: Driver, fs: seq<Event>, t: Driver, c: ChanId)
    requires QuietTo(d, es, s, c) && QuietTo(s, fs, t, c)
    ensures QuietTo(d, es + fs, t, c)
  {
    RunConcat(d, es, fs);
  }

  lemma QuietConcerns(d: Driver, q: Quiet, c: ChanId)
    requires SoundDriver(d)
    ensures var s := Step(d, EventOf(q, c)); Elsewhere(d, s, c) && Get(s, c) == QuietStep(Get(d, c), q)
  {
    if q == Dma {
      CompleteConcerns(d, c);
    } else {
      ReapConcerns(d, c);
    }
  }

  lemma QuietEvent(d: Driver, q: Quiet, c: ChanId)
    requires SoundDriver(d)
    ensures var s := Step(d, EventOf(q, c));
            QuietTo(d, [EventOf(q, c)], s, c) && Get(s, c) == QuietStep(Get(d, c), q)
  {
    StepKeepsSound(d, EventOf(q, c));
    QuietConcerns(d, q, c);
    RunSingle(d, EventOf(q, c));
  }

  lemma {:induction false} QuietEvents(d: Driver, qs: seq<Quiet>, c: ChanId) returns (s: Driver)
    requires SoundDriver(d)
    ensures QuietTo(d, EventsOf(qs, c), s, c) && Get(s, c) == QuietRun(Get(d, c), qs)
    decreases |qs|
  {
    if qs == [] {
      s := d;
    } else {
      QuietEvent(d, qs[0], c);
      var s1 := Step(d, EventOf(qs[0], c));
      s := QuietEvents(s1, qs[1..], c);
      QuietFurther(d, [EventOf(qs[0], c)], s1, EventsOf(qs[1..], c), s, c);
    }
  }

  /* ---- Letting the engine and the reaper finish ---- */

  ghost predicate NoneValid(ch: Channel) {
    forall i :: 0 <= i < |ch.ring.slots| ==> !ch.ring.slots[i].valid
  }

  /** The engine has completed some descriptors, and nothing else has happened. */
  ghost predicate OnlyCompletes(ch: Channel, ch': Channel) {
    && ch' == ch.(ring := ch'.ring) && ch'.ring.head == ch.ring.head && ch'.ring.tail == ch.ring.tail
    && |ch'.ring.slots| == |ch.ring.slots|
    && forall i :: 0 <= i < |ch.ring.slots| ==> ch'.ring.slots[i].skb == ch.ring.slots[i].skb
  }

  /** The engine completes all that is VALID. */
  lemma {:induction false} CompleteAll(ch: Channel) returns (qs: seq<Quiet>)
    requires SoundChannel(ch)
    ensures SoundChannel(QuietRun(ch, qs)) && OnlyCompletes(ch, QuietRun(ch, qs)) && NoneValid(QuietRun(ch, qs))
    decreases Live(ch.ring)
  {
    if ch.ring.slots[ch.ring.hw].valid {
      SoundDma(ch);
      LiveShrinks(ch.ring);
      var rs := CompleteAll(DmaStep(ch));
      qs := [Dma] + rs;
      QuietCons(ch, Dma, rs);
    } else {
      qs := [];
      forall i | 0 <= i < |ch.ring.slots| ensures !ch.ring.slots[i].valid {
        ViewAt(ch.ring.slots, ch.ring.hw, Gap(ch.ring.hw, i, |ch.ring.slots|));
      }
    }
  }

  lemma LiveShrinks(r: Ring)
    requires Sound(r) && r.slots[r.hw].valid
    ensures Live(RingHw(r)) < Live(r)
  {
    SoundHw(r);
    var n := |r.slots|;
    ViewAt(RingHw(r).slots, Next(r.hw, n), n - 1);
    assert Rot(Next(r.hw, n), n - 1, n) == r.hw;
  }

  /** The skbs in the `k` slots from `t` on, in order. */
  ghost function Span(r: Ring, t: nat, k: nat): seq<Skb>
    requires t < |r.slots| && k <= |r.slots|
  {
    Skbs(View(r.slots, t)[..k])
  }

  /** The reaper has dealt with the skbs in the `k` slots from `t` on, in order, and with no other. */
  ghost predicate Passed(ch: Channel, t: nat, k: nat, ch': Channel) {
    && SoundChannel(ch) && SoundChannel(ch') && NoneValid(ch')
    && t < |ch.ring.slots| == |ch'.ring.slots| && k <= |ch.ring.slots|
    && ch'.ring.head == ch.ring.head && ch'.accepted == ch.accepted
    && ch'.reaped == ch.reaped + Span(ch.ring, t, k)
    && forall i :: 0 <= i < |ch.ring.slots| ==>
         ch'.ring.slots[i].skb == if Gap(t, i, |ch.ring.slots|) < k then None else ch.ring.slots[i].skb
  }

  lemma PassedNone(ch: Channel, t: nat, ch': Channel)
    requires SoundChannel(ch) && SoundChannel(ch') && NoneValid(ch') && t < |ch.ring.slots| == |ch'.ring.slots|
    requires ch'.ring.head == ch.ring.head && ch'.accepted == ch.accepted && ch'.reaped == ch.reaped
    requires forall i :: 0 <= i < |ch.ring.slots| ==> ch'.ring.slots[i].skb == ch.ring.slots[i].skb
    ensures Passed(ch, t, 0, ch')
  {
  }

  lemma SpanSplits(r: Ring, r': Ring, t: nat, k: nat)
    requires t < |r.slots| == |r'.slots| && k < |r.slots|
    requires forall i :: 0 <= i < |r.slots| && i != t ==> r'.slots[i].skb == r.slots[i].skb
    ensures Span(r, t, k + 1) == Stored(r.slots[t]) + Span(r', Next(t, |r.slots|), k)
  {
    var v, w := View(r.slots, t), View(r'.slots, Next(t, |r.slots|));
    ViewAt(r.slots, t, 0);
    ViewNext(r'.slots, t);
    forall i | 0 <= i < k ensures w[..k][i].skb == v[1..k + 1][i].skb {
      ViewAt(r.slots, t, i + 1);
      ViewAt(r'.slots, t, i + 1);
    }
    assert v[..k + 1] == [v[0]] + v[1..k + 1];
    OneMore(v[0], v[1..k + 1]);
    SkbsDependOnPointers(v[1..k + 1], w[..k]);
  }

  /** A slot has been passed, and then `k` more. */
  lemma PassedFurther(a: Channel, t: nat, b: Channel, k: nat, c: Channel)
    requires Passed(a, t, 1, b) && k < |a.ring.slots| && Passed(b, Next(t, |a.ring.slots|), k, c)
    ensures Passed(a, t, k + 1, c)
  {
    var n := |a.ring.slots|;
    SpanOne(a.ring, t);
    SpanSplits(a.ring, b.ring, t, k);
    Regroup(a.reaped, Stored(a.ring.slots[t]), Span(b.ring, Next(t, n), k));
    forall i | 0 <= i < n ensures c.ring.slots[i].skb == if Gap(t, i, n) < k + 1 then None else a.ring.slots[i].skb {
      GapFromNext(t, i, n);
    }
  }

  lemma GapFromNext(t: nat, i: nat, n: nat)
    requires t < n && i < n
    ensures if i == t then Gap(t, i, n) == 0 && Gap(Next(t, n), i, n) == n - 1
            else Gap(t, i, n) == Gap(Next(t, n), i, n) + 1
  {
  }

  /** One slot, from the loop body to the loop condition. */
  ghost predicate OneFurther(ch: Channel, ch': Channel)
    requires Wf(ch) && ch.walk.On?
  {
    && Passed(ch, ch.walk.cur, 1, ch') && ch'.ring.tail == ch.ring.tail
    && ch'.walk.On? && ch'.walk.phase == Check && ch'.walk.cur == Next(ch.walk.cur, |ch.ring.slots|)
  }

  lemma SpanOne(r: Ring, t: nat)
    requires t < |r.slots|
    ensures Span(r, t, 1) == Stored(r.slots[t])
  {
    SpanSplits(r, r, t, 0);
    assert Span(r, Next(t, |r.slots|), 0) == [];
  }

  lemma ReapsFrame(ch: Channel)
    requires SoundChannel(ch) && NoneValid(ch) && Found(ch).Some?
    ensures OneFurther(ch, Reap(Reap(ch)))
  {
    SpanOne(ch.ring, ch.walk.cur);
    SoundReap(ch);
    SoundReap(Reap(ch));
  }

  lemma SkipsSlot(ch: Channel)
    requires SoundChannel(ch) && NoneValid(ch) && Found(ch).None? && ch.walk.On? && ch.walk.phase == Body
    ensures OneFurther(ch, Reap(ch))
  {
    SpanOne(ch.ring, ch.walk.cur);
    SoundReap(ch);
  }

  lemma ReapOneSlot(ch: Channel) returns (qs: seq<Quiet>)
    requires SoundChannel(ch) && NoneValid(ch) && ch.walk.On? && ch.walk.phase == Body
    ensures OneFurther(ch, QuietRun(ch, qs))
  {
    if Found(ch).Some? {
      ReapsFrame(ch);
      QuietCons(ch, Reaper, [Reaper]);
      QuietCons(Reap(ch), Reaper, []);
      assert [Reaper] + [] == [Reaper];
      qs := [Reaper] + [Reaper];
    } else {
      SkipsSlot(ch);
      QuietCons(ch, Reaper, []);
      qs := [Reaper] + [];
    }
  }

  /** The reap has come to its end at the head. */
  ghost predicate AtRest(ch: Channel) {
    ch.walk == Off && ch.ring.tail == ch.ring.head
  }

  lemma GoesOn(ch: Channel) returns (ch': Channel)
    requires SoundChannel(ch) && NoneValid(ch) && ch.walk.On? && ch.walk.phase == Check && ch.walk.cur != ch.ring.head
    ensures ch' == Reap(ch) == ch.(walk := ch.walk.(phase := Body)) && SoundChannel(ch') && NoneValid(ch')
  {
    ch' := Reap(ch);
    SoundReap(ch);
  }

  lemma OneNearer(t: nat, k: nat, n: nat)
    requires t < n && 0 < k <= n
    ensures Rot(t, k, n) == Rot(Next(t, n), k - 1, n)
  {
  }

  lemma StopsAtHead(ch: Channel) returns (qs: seq<Quiet>)
    requires SoundChannel(ch) && NoneValid(ch) && ch.walk.On? && ch.walk.phase == Check && ch.walk.cur == ch.ring.head
    ensures Passed(ch, ch.walk.cur, 0, QuietRun(ch, qs)) && AtRest(QuietRun(ch, qs))
  {
    StopKeepsSound(ch.ring, ch.walk.cur);
    QuietCons(ch, Reaper, []);
    qs := [Reaper] + [];
    PassedNone(ch, ch.walk.cur, Stop(ch));
  }

  ghost predicate HeadIn(ch: Channel, k: nat) {
    && SoundChannel(ch) && NoneValid(ch) && ch.walk.On? && k <= |ch.ring.slots|
    && ch.ring.head == Rot(ch.walk.cur, k, |ch.ring.slots|)
  }

  /** The reaper goes on to the head, `k` slots further on. */
  lemma WalkToHead(ch: Channel, k: nat) returns (qs: seq<Quiet>)
    requires HeadIn(ch, k)
    requires if ch.walk.phase == Body then 0 < k else ch.walk.phase == Check && k < |ch.ring.slots|
    ensures Passed(ch, ch.walk.cur, k, QuietRun(ch, qs)) && AtRest(QuietRun(ch, qs))
  {
    if ch.walk.phase == Body {
      qs := WalkFromBody(ch, k);
    } else {
      qs := WalkFromCheck(ch, k);
    }
  }

  lemma NextInWalk(ch: Channel, k: nat, ch1: Channel)
    requires HeadIn(ch, k) && 0 < k && OneFurther(ch, ch1)
    ensures HeadIn(ch1, k - 1)
  {
    OneNearer(ch.walk.cur, k, |ch.ring.slots|);
  }

  lemma {:induction false} WalkFromBody(ch: Channel, k: nat) returns (qs: seq<Quiet>)
    requires HeadIn(ch, k) && ch.walk.phase == Body && 0 < k
    ensures Passed(ch, ch.walk.cur, k, QuietRun(ch, qs)) && AtRest(QuietRun(ch, qs))
    decreases k, 0
  {
    var q1 := ReapOneSlot(ch);
    var ch1 := QuietRun(ch, q1);
    NextInWalk(ch, k, ch1);
    var q2 := WalkFromCheck(ch1, k - 1);
    QuietConcat(ch, q1, q2);
    qs := q1 + q2;
    PassedFurther(ch, ch.walk.cur, ch1, k - 1, QuietRun(ch, qs));
  }

  lemma {:induction false} WalkFromCheck(ch: Channel, k: nat) returns (qs: seq<Quiet>)
    requires HeadIn(ch, k) && ch.walk.phase == Check && k < |ch.ring.slots|
    ensures Passed(ch, ch.walk.cur, k, QuietRun(ch, qs)) && AtRest(QuietRun(ch, qs))
    decreases k, 1
  {
    if k == 0 {
      qs := StopsAtHead(ch);
    } else {
      var on := GoesOn(ch);
      var rs := WalkFromBody(on, k);
      QuietCons(ch, Reaper, rs);
      qs := [Reaper] + rs;
      PassedAfter(ch, on, ch.walk.cur, k, QuietRun(on, rs));
    }
  }

  /** Steps that touch no skb before the slots are passed. */
  lemma PassedAfter(a: Channel, b: Channel, t: nat, k: nat, c: Channel)
    requires SoundChannel(a) && Passed(b, t, k, c) && b.ring.head == a.ring.head && |b.ring.slots| == |a.ring.slots|
    requires b.accepted == a.accepted && b.reaped == a.reaped
    requires forall i :: 0 <= i < |a.ring.slots| ==> b.ring.slots[i].skb == a.ring.slots[i].skb
    ensures Passed(a, t, k, c)
  {
    var v, w := View(a.ring.slots, t), View(b.ring.slots, t);
    forall i | 0 <= i < k ensures v[..k][i].skb == w[..k][i].skb {
      ViewAt(a.ring.slots, t, i);
      ViewAt(b.ring.slots, t, i);
    }
    SkbsDependOnPointers(v[..k], w[..k]);
  }

  lemma BeginAlone(d: Driver, c: ChanId)
    requires SoundDriver(d) && d.low.walk == Off && d.high.walk == Off
    ensures var s := Step(d, BeginReap(c));
            QuietTo(d, [BeginReap(c)], s, c) && Get(s, c) == Begin(Get(d, c))
  {
    StepKeepsSound(d, BeginReap(c));
    StepConcerns(d, BeginReap(c));
    RunSingle(d, BeginReap(c));
  }

  lemma CompleteChannel(d: Driver, c: ChanId) returns (es: seq<Event>, s: Driver)
    requires SoundDriver(d)
    ensures QuietTo(d, es, s, c) && OnlyCompletes(Get(d, c), Get(s, c)) && NoneValid(Get(s, c))
  {
    var qs := CompleteAll(Get(d, c));
    s := QuietEvents(d, qs, c);
    es := EventsOf(qs, c);
  }

  lemma ReapChannel(d: Driver, c: ChanId, k: nat) returns (es: seq<Event>, s: Driver)
    requires SoundDriver(d) && d.low.walk == Off && d.high.walk == Off && NoneValid(Get(d, c))
    requires 0 < k <= |Get(d, c).ring.slots|
    requires Get(d, c).ring.head == Rot(Get(d, c).ring.tail, k, |Get(d, c).ring.slots|)
    ensures QuietTo(d, es, s, c)
    ensures Passed(Get(d, c), Get(d, c).ring.tail, k, Get(s, c)) && AtRest(Get(s, c))
  {
    var d1 := Step(d, BeginReap(c));
    BeginAlone(d, c);
    var qs := BegunToHead(Get(d, c), k);
    s := QuietEvents(d1, qs, c);
    es := [BeginReap(c)] + EventsOf(qs, c);
    QuietFurther(d, [BeginReap(c)], d1, EventsOf(qs, c), s, c);
  }

  lemma BegunToHead(ch: Channel, k: nat) returns (qs: seq<Quiet>)
    requires SoundChannel(ch) && NoneValid(ch) && ch.walk == Off && 0 < k <= |ch.ring.slots|
    requires ch.ring.head == Rot(ch.ring.tail, k, |ch.ring.slots|)
    ensures Passed(ch, ch.ring.tail, k, QuietRun(Begin(ch), qs)) && AtRest(QuietRun(Begin(ch), qs))
  {
    qs := WalkToHead(Begin(ch), k);
    PassedAfter(ch, Begin(ch), ch.ring.tail, k, QuietRun(Begin(ch), qs));
  }

  /** In every state in which no reap is under way, completions and one reap can hand over the frames
      of the `k` slots from the tail to the head, in order, and leave alone all other frames, those
      behind the tail. (Where head and tail are equal, `k` is nothing or the whole circle.) */
  lemma Drain(d: Driver, c: ChanId, k: nat) returns (es: seq<Event>, s: Driver)
    requires SoundDriver(d) && d.low.walk == Off && d.high.walk == Off
    requires k <= |Get(d, c).ring.slots| && Get(d, c).ring.head == Rot(Get(d, c).ring.tail, k, |Get(d, c).ring.slots|)
    ensures QuietTo(d, es, s, c) && OrderlyRun(d, es)
    ensures Passed(Get(d, c), Get(d, c).ring.tail, k, Get(s, c)) && AtRest(Get(s, c))
  {
    es, s := CompleteChannel(d, c);
    if k == 0 {
      PassedNone(Get(d, c), Get(d, c).ring.tail, Get(s, c));
    } else {
      var fs, s' := ReapChannel(s, c, k);
      CompletedFirst(Get(d, c), Get(s, c), k, Get(s', c));
      QuietFurther(d, es, s, fs, s', c);
      es, s := es + fs, s';
    }
    NoTransmitIsOrderly(d, es);
  }

  lemma CompletedFirst(a: Channel, b: Channel, k: nat, c: Channel)
    requires SoundChannel(a) && OnlyCompletes(a, b) && Passed(b, a.ring.tail, k, c)
    ensures Passed(a, a.ring.tail, k, c)
  {
    PassedAfter(a, b, a.ring.tail, k, c);
  }

  /* ---- Emptying the rings ---- */

  /** No skb is stored in a ring. */
  ghost predicate Empty(ch: Channel) {
    forall i :: 0 <= i < |ch.ring.slots| ==> ch.ring.slots[i].skb.None?
  }

  lemma EmptyHasNone(ch: Channel)
    requires Wf(ch) && Empty(ch)
    ensures !HasFrame(ch)
  {
  }

  lemma PassedAll(a: Channel, t: nat, b: Channel)
    requires SoundChannel(a) && Passed(a, t, |a.ring.slots|, b)
    ensures Empty(b)
  {
  }

  /** If the reaper has found nothing in the slots that it has passed, nothing has changed. */
  lemma PassedNothing(a: Channel, t: nat, k: nat, b: Channel)
    requires Passed(a, t, k, b) && b.reaped == a.reaped
    ensures forall i :: 0 <= i < |a.ring.slots| ==> b.ring.slots[i].skb == a.ring.slots[i].skb
  {
    var n, v := |a.ring.slots|, View(a.ring.slots, t);
    assert |a.reaped + Span(a.ring, t, k)| == |a.reaped| + |Span(a.ring, t, k)|;
    NoneHeld(v[..k]);
    forall i | 0 <= i < n ensures b.ring.slots[i].skb == a.ring.slots[i].skb {
      var g := Gap(t, i, n);
      ViewAt(a.ring.slots, t, g);
      if g < k {
        assert v[..k][g] == v[g];
      }
    }
  }

  /** Whatever is in a ring, a reap up to the head and one round of the whole circle empty it. */
  lemma EmptyRing(d: Driver, c: ChanId) returns (es: seq<Event>, s: Driver)
    requires SoundDriver(d) && d.low.walk == Off && d.high.walk == Off
    ensures QuietTo(d, es, s, c) && OrderlyRun(d, es) && Get(s, c).walk == Off && Emptied(Get(d, c), Get(s, c))
  {
    var k, e1, s1 := ToHead(d, c);
    var e2, s2 := Round(s1, c);
    QuietFurther(d, e1, s1, e2, s2, c);
    es, s := e1 + e2, s2;
    NoTransmitIsOrderly(d, es);
    TwicePassed(Get(d, c), k, Get(s1, c), Get(s2, c));
  }

  lemma ToHead(d: Driver, c: ChanId) returns (k: nat, es: seq<Event>, s: Driver)
    requires SoundDriver(d) && d.low.walk == Off && d.high.walk == Off
    ensures QuietTo(d, es, s, c) && AtRest(Get(s, c))
    ensures k <= |Get(d, c).ring.slots| && Passed(Get(d, c), Get(d, c).ring.tail, k, Get(s, c))
  {
    var r := Get(d, c).ring;
    k := Gap(r.tail, r.head, |r.slots|);
    es, s := Drain(d, c, k);
  }

  lemma Round(d: Driver, c: ChanId) returns (es: seq<Event>, s: Driver)
    requires SoundDriver(d) && Get(d, Other(c)).walk == Off && AtRest(Get(d, c))
    ensures QuietTo(d, es, s, c) && Get(s, c).walk == Off
    ensures Passed(Get(d, c), Get(d, c).ring.tail, |Get(d, c).ring.slots|, Get(s, c))
  {
    es, s := Drain(d, c, |Get(d, c).ring.slots|);
  }

  ghost predicate Emptied(ch: Channel, ch': Channel) {
    Empty(ch') && ch.reaped <= ch'.reaped && (ch'.reaped == ch.reaped ==> Empty(ch))
  }

  lemma TwicePassed(a: Channel, k: nat, b: Channel, c: Channel)
    requires Wf(a) && Passed(a, a.ring.tail, k, b) && Wf(b) && Passed(b, b.ring.tail, |b.ring.slots|, c)
    ensures Emptied(a, c)
  {
    PassedAll(b, b.ring.tail, c);
    if c.reaped == a.reaped {
      assert |c.reaped| == |b.reaped| + |Span(b.ring, b.ring.tail, |a.ring.slots|)|;
      assert |b.reaped| == |a.reaped| + |Span(a.ring, a.ring.tail, k)|;
      NothingIn(a, a.ring.tail, k, b);
      NothingIn(b, b.ring.tail, |a.ring.slots|, c);
      PassedNothing(a, a.ring.tail, k, b);
      PassedNothing(b, b.ring.tail, |a.ring.slots|, c);
    }
  }

  lemma NothingIn(a: Channel, t: nat, k: nat, b: Channel)
    requires Passed(a, t, k, b) && |b.reaped| == |a.reaped|
    ensures b.reaped == a.reaped
  {
    assert Span(a.ring, t, k) == [];
  }

  /** A reap that is under way comes to its end at the head. */
  lemma FinishWalk(d: Driver, c: ChanId) returns (es: seq<Event>, s: Driver)
    requires SoundDriver(d)
    ensures QuietTo(d, es, s, c) && Get(s, c).walk == Off && Finished(Get(d, c), Get(s, c))
  {
    var qs := FinishChannel(Get(d, c));
    s := QuietEvents(d, qs, c);
    es := EventsOf(qs, c);
  }

  /** Every frame that was left to be dealt with is still there, unless some have been reaped. */
  ghost predicate Finished(ch: Channel, ch': Channel)
    requires Wf(ch)
  {
    && Wf(ch') && |ch'.ring.slots| == |ch.ring.slots| && ch.reaped <= ch'.reaped
    && (ch'.reaped == ch.reaped ==>
          forall i :: 0 <= i < |ch.ring.slots| ==> ch'.ring.slots[i].skb == Unreaped(ch)[i].skb)
  }

  lemma FinishChannel(ch: Channel) returns (qs: seq<Quiet>)
    requires SoundChannel(ch)
    ensures QuietRun(ch, qs).walk == Off && Finished(ch, QuietRun(ch, qs))
  {
    if ch.walk == Off {
      qs := [];
    } else if InClear(ch) {
      SoundReap(ch);
      var rs := FinishOpenWalk(Reap(ch));
      QuietCons(ch, Reaper, rs);
      qs := [Reaper] + rs;
    } else {
      qs := FinishOpenWalk(ch);
    }
  }

  lemma FinishOpenWalk(ch: Channel) returns (qs: seq<Quiet>)
    requires SoundChannel(ch) && ch.walk.On? && !InClear(ch)
    ensures QuietRun(ch, qs).walk == Off && Finished(ch, QuietRun(ch, qs))
  {
    var q1 := CompleteAll(ch);
    var ch1, n := QuietRun(ch, q1), |ch.ring.slots|;
    var g := Gap(ch.walk.cur, ch.ring.head, n);
    var k := if g == 0 && ch.walk.phase == Body then n else g;
    var q2 := WalkToHead(ch1, k);
    QuietConcat(ch, q1, q2);
    qs := q1 + q2;
    var ch2 := QuietRun(ch, qs);
    if ch2.reaped == ch.reaped {
      PassedNothing(ch1, ch.walk.cur, k, ch2);
    }
  }
}
