/** One transmit channel together with the reaper walking along it (dxe.c).

    `reap_tx_dxes` is not atomic: the DMA engine and the transmit path may take steps between any
    two steps of the walk. What the walk does to the rest of the driver is left to TxDriver.
 */
module TxChannel {
  import opened Common
  import opened Circle
  import opened TxRing

  /** Where the reaper is: about to run the loop body, between dealing with the skb and dropping
      the pointer to it (the lock has been given back by then), or about to test the loop
      condition. */
  datatype Phase = Body | Clear | Check

  /** `cur` is the reaper's local variable `ctl`. The history variable `circling` says that the
      reap found the ring empty, went on all the same (the loop is a do-while), and has neither
      come back to where it started nor been caught up by the head. */
  datatype Walk = Off | On(cur: nat, phase: Phase, circling: bool)

  /** The last two fields are history: the frames accepted and the frames reaped, in order. */
  datatype Channel = Channel(ring: Ring, walk: Walk, accepted: seq<Skb>, reaped: seq<Skb>)

  predicate Wf(ch: Channel) {
    WfRing(ch.ring) && (ch.walk.On? ==> ch.walk.cur < |ch.ring.slots|)
  }

  /* ---- Transitions ---- */

  function Accept(ch: Channel, skb: Skb): (res: (Channel, Ret))
    requires Wf(ch)
    ensures Wf(res.0)
  {
    var (ring', ret) := RingTx(ch.ring, skb);
    if ret == Ok then
      var walk' := if CatchesUp(ch) then ch.walk.(circling := false) else ch.walk;
      (ch.(ring := ring', walk := walk', accepted := ch.accepted + [skb]), ret)
    else
      (ch.(ring := ring'), ret)
  }

  function DmaStep(ch: Channel): (ch': Channel)
    requires Wf(ch)
    ensures Wf(ch')
  {
    ch.(ring := RingHw(ch.ring))
  }

  predicate RingEmpty(r: Ring)
    requires WfRing(r)
  {
    r.head == r.tail && r.slots[Next(r.head, |r.slots|)].skb.None?
  }

  function Begin(ch: Channel): (ch': Channel)
    requires Wf(ch)
    ensures Wf(ch')
  {
    ch.(walk := On(ch.ring.tail, Body, false))
  }

  function Stop(ch: Channel): (ch': Channel)
    requires Wf(ch) && ch.walk.On?
    ensures Wf(ch')
  {
    ch.(ring := ch.ring.(tail := ch.walk.cur), walk := Off)
  }

  function Advance(ch: Channel): (ch': Channel)
    requires Wf(ch) && ch.walk.On?
    ensures Wf(ch')
  {
    var nx := Next(ch.walk.cur, |ch.ring.slots|);
    ch.(walk := On(nx, Check, ch.walk.circling && nx != ch.ring.tail))
  }

  /** The frame that the loop body is about to deal with, if it is about to deal with one. */
  function Found(ch: Channel): Option<Skb>
    requires Wf(ch)
  {
    if ch.walk.On? && ch.walk.phase == Body && !ch.ring.slots[ch.walk.cur].valid
    then ch.ring.slots[ch.walk.cur].skb
    else None
  }

  /** One step of the reaper, in whichever phase it is. */
  function Reap(ch: Channel): (ch': Channel)
    requires Wf(ch)
    ensures Wf(ch')
  {
    match ch.walk
    case Off => ch
    case On(cur, Body, _) =>
      if ch.ring.slots[cur].valid then Stop(ch)
      else if Found(ch).None? then
        var leaves := cur == ch.ring.tail && RingEmpty(ch.ring);
        Advance(ch.(walk := ch.walk.(circling := ch.walk.circling || leaves)))
      else ch.(walk := ch.walk.(phase := Clear), reaped := ch.reaped + [Found(ch).value])
    case On(cur, Clear, _) =>
      Advance(ch.(ring := RingClear(ch.ring, cur)))
    case On(cur, Check, _) =>
      if cur == ch.ring.head || ch.ring.slots[cur].valid then Stop(ch)
      else ch.(walk := ch.walk.(phase := Body))
  }

  /** The slots from the head to the reaper. */
  function Room(ch: Channel): nat
    requires Wf(ch) && ch.walk.On?
  {
    Gap(ch.ring.head, ch.walk.cur, |ch.ring.slots|)
  }

  /** A frame accepted now puts the head level with a circling reaper or past it. */
  predicate CatchesUp(ch: Channel)
    requires Wf(ch)
  {
    ch.walk.On? && ch.walk.circling && (Room(ch) < 2 || (Room(ch) == 2 && ch.walk.phase != Body))
  }

  /** The only restriction on the interleaving: the head may not catch up with a circling reaper,
      except from the very slot where its circle began. */
  predicate RoomAhead(ch: Channel)
    requires Wf(ch)
  {
    CatchesUp(ch) ==> ch.ring.head == ch.ring.tail && Room(ch) == 1
  }

  /* ---- What holds under every interleaving ---- */

  predicate InClear(ch: Channel) {
    ch.walk.On? && ch.walk.phase == Clear
  }

  /** The reaper deals only with completed slots. */
  ghost predicate SoundChannel(ch: Channel) {
    && Wf(ch) && Sound(ch.ring)
    && (InClear(ch) ==> !ch.ring.slots[ch.walk.cur].valid && ch.ring.slots[ch.walk.cur].skb.Some?)
  }

  /** Whether the driver takes the ring to be full. */
  predicate TestedFull(r: Ring)
    requires WfRing(r)
  {
    r.slots[Next(r.head, |r.slots|)].skb.Some?
  }

  lemma SoundAccept(ch: Channel, skb: Skb)
    requires SoundChannel(ch)
    ensures SoundChannel(Accept(ch, skb).0)
    ensures Accept(ch, skb).1 == if TestedFull(ch.ring) then EBusy else Ok
    ensures TestedFull(ch.ring) ==> Accept(ch, skb).0 == ch
    ensures !TestedFull(ch.ring) ==>
              var h := ch.ring.head;
              Accept(ch, skb).0.ring.slots == Armed(WithSkb(WithBd(ch.ring.slots, h), h + 1, skb), h + 1)
    ensures ch.ring.head + 1 < |ch.ring.slots| && (InClear(ch) ==> ch.walk.cur != ch.ring.head)
  {
    SoundTx(ch.ring, skb);
    TxVerdict(ch.ring, skb);
  }

  lemma SoundDma(ch: Channel)
    requires SoundChannel(ch)
    ensures SoundChannel(DmaStep(ch))
  {
    SoundHw(ch.ring);
  }

  lemma SoundReap(ch: Channel)
    requires SoundChannel(ch)
    ensures SoundChannel(Reap(ch))
  {
    if InClear(ch) {
      SoundClear(ch.ring, ch.walk.cur);
    }
    StopKeepsSound(ch.ring, if ch.walk.On? then ch.walk.cur else 0);
  }

  lemma StopKeepsSound(r: Ring, t: nat)
    requires Sound(r) && t < |r.slots|
    ensures Sound(r.(tail := t))
  {
    assert Live(r.(tail := t)) == Live(r);
  }

  /** The slots without the skb that the reaper has dealt with already. */
  function Unreaped(ch: Channel): (slots: seq<Slot>)
    requires Wf(ch)
    ensures |slots| == |ch.ring.slots|
  {
    if InClear(ch) then RingClear(ch.ring, ch.walk.cur).slots else ch.ring.slots
  }

  /* ---- The queue ---- */

  /** Where reaping has got to: the walker's position, or the tail pointer when no reap is under
      way or the reap is only circling an empty stretch. */
  ghost function Pos(ch: Channel): (t: nat)
    requires Wf(ch)
    ensures t < |ch.ring.slots|
  {
    if ch.walk.On? && !ch.walk.circling then ch.walk.cur else ch.ring.tail
  }

  /** What the reaper may rely on in each phase, if there are `used` slots from Pos to the head. A
      circling reaper stays ahead of the head, and there is no frame between the two. */
  ghost predicate WalkOk(ch: Channel, used: nat)
    requires Wf(ch)
  {
    match ch.walk
    case Off => true
    case On(cur, Body, false) => 0 < used || cur == ch.ring.tail
    case On(cur, Clear, false) => 0 < used
    case On(cur, Check, false) => true
    case On(cur, phase, true) => CircleOk(ch, used, Gap(ch.ring.tail, cur, |ch.ring.slots|))
  }

  ghost predicate CircleOk(ch: Channel, used: nat, j: nat)
    requires Wf(ch) && ch.walk.On?
  {
    && used % 2 == 0 && 0 < j && (if ch.walk.phase == Body then used <= j else used < j)
    && (forall k :: used <= k < j < |ch.ring.slots| ==> View(ch.ring.slots, ch.ring.tail)[k].skb.None?)
    && (j == 1 ==> ch.ring.slots[ch.walk.cur].skb.None?)
  }

  /** From the reaper to the head the ring is in order. What it has left behind is not said. */
  ghost predicate Placed(ch: Channel, used: nat) {
    SoundChannel(ch) && Front(ch.ring, Pos(ch), used) && WalkOk(ch, used)
  }

  ghost function Left(ch: Channel, used: nat): seq<Skb>
    requires Wf(ch) && used <= |ch.ring.slots|
  {
    Behind(ch.ring, Pos(ch), used)
  }

  /** The frames whose skb pointer is still in the ring. */
  ghost function HeldBy(ch: Channel): seq<Skb>
    requires Wf(ch)
  {
    Held(ch.ring, Pos(ch))
  }

  /** The frames accepted and not yet reaped: the abstract queue that the ring implements. */
  ghost function Queue(ch: Channel): seq<Skb>
    requires Wf(ch)
  {
    if InClear(ch) && HeldBy(ch) != [] then HeldBy(ch)[1..] else HeldBy(ch)
  }

  /** The capacity of a channel: one frame for each pair of slots. */
  ghost function Capacity(ch: Channel): nat {
    |ch.ring.slots| / 2
  }

  ghost predicate InOrder(ch: Channel, used: nat) {
    Placed(ch, used) && Left(ch, used) == []
  }

  ghost predicate ChanInv(ch: Channel) {
    && (exists used: nat :: InOrder(ch, used))
    && ch.accepted == ch.reaped + Queue(ch)
  }

  /** The state after initialisation: a clean ring, BD buffers on the even slots. */
  ghost predicate CleanChannel(ch: Channel) {
    && WfRing(ch.ring) && ch.walk == Off && ch.accepted == [] && ch.reaped == []
    && ch.ring.head == 0 && ch.ring.tail == 0 && ch.ring.hw == 0
    && forall i :: 0 <= i < |ch.ring.slots| ==>
         && !ch.ring.slots[i].valid && ch.ring.slots[i].skb.None?
         && (ch.ring.slots[i].bd != 0 <==> i % 2 == 0)
  }

  lemma CleanInv(ch: Channel)
    requires CleanChannel(ch)
    ensures ChanInv(ch) && Queue(ch) == [] && SoundChannel(ch)
  {
    assert View(ch.ring.slots, 0) == ch.ring.slots;
    NoneHeld(ch.ring.slots);
    assert ch.ring.slots[0..] == ch.ring.slots;
    assert InOrder(ch, 0);
  }

  /* ---- The steps, whatever has been left behind ---- */

  lemma AcceptPlaced(ch: Channel, used: nat, skb: Skb)
    requires Placed(ch, used) && !TestedFull(ch.ring) && !CatchesUp(ch)
    ensures var ch' := Accept(ch, skb).0;
            && Placed(ch', used + 2) && Pos(ch') == Pos(ch) && Left(ch', used + 2) == Left(ch, used)
            && Taken(ch'.ring, Pos(ch'), used + 2) == Taken(ch.ring, Pos(ch), used) + [skb]
  {
    SoundAccept(ch, skb);
    FrontTx(ch.ring, Pos(ch), used, skb);
    if ch.walk.On? && ch.walk.circling {
      AcceptCircling(ch, used, skb);
    }
  }

  lemma AcceptCircling(ch: Channel, used: nat, skb: Skb)
    requires Placed(ch, used) && !TestedFull(ch.ring) && !CatchesUp(ch) && ch.walk.On? && ch.walk.circling
    requires used + 2 <= |ch.ring.slots|
    ensures WalkOk(Accept(ch, skb).0, used + 2)
  {
    var n, t := |ch.ring.slots|, ch.ring.tail;
    var j := Gap(t, ch.walk.cur, n);
    SoundAccept(ch, skb);
    ViewAfterTx(ch.ring, t, used, skb);
    RoomIs(t, used, j, n);
    CircleShortened(ch, Accept(ch, skb).0, used, j);
  }

  lemma RoomIs(t: nat, used: nat, j: nat, n: nat)
    requires t < n && used <= j < n
    ensures Gap(Rot(t, used, n), Rot(t, j, n), n) == j - used
  {
  }

  lemma CircleShortened(ch: Channel, ch': Channel, used: nat, j: nat)
    requires Wf(ch) && ch.walk.On? && CircleOk(ch, used, j) && used + 2 <= |ch.ring.slots|
    requires Wf(ch') && ch'.walk == ch.walk && |ch'.ring.slots| == |ch.ring.slots| && ch'.ring.tail == ch.ring.tail
    requires View(ch'.ring.slots, ch.ring.tail)[used + 2..] == View(ch.ring.slots, ch.ring.tail)[used + 2..]
    requires if ch.walk.phase == Body then used + 2 <= j else used + 2 < j
    ensures CircleOk(ch', used + 2, j)
  {
    var v, v' := View(ch.ring.slots, ch.ring.tail), View(ch'.ring.slots, ch.ring.tail);
    forall k | used + 2 <= k < j < |ch.ring.slots| ensures v'[k].skb.None? {
      assert v'[used + 2..][k - used - 2] == v[used + 2..][k - used - 2];
    }
  }

  /** When the head catches up with the reaper, everything before the reaper is left behind; `now`
      is the number of slots from the reaper to the new head. */
  lemma AcceptCatchingUp(ch: Channel, used: nat, skb: Skb) returns (now: nat)
    requires Placed(ch, used) && !TestedFull(ch.ring) && CatchesUp(ch)
    ensures now + Room(ch) == 2 && Placed(Accept(ch, skb).0, now) && Pos(Accept(ch, skb).0) == ch.walk.cur
    ensures Taken(Accept(ch, skb).0.ring, ch.walk.cur, now) == if now == 0 then [] else [skb]
    ensures Left(Accept(ch, skb).0, now)
         == Left(ch, used) + Taken(ch.ring, Pos(ch), used) + if now == 0 then [skb] else []
  {
    var ch' := AcceptRing(ch, skb);
    now := HeadCaughtUp(ch, used, skb, ch');
  }

  lemma HeadCaughtUp(ch: Channel, used: nat, skb: Skb, ch': Channel) returns (now: nat)
    requires Placed(ch, used) && !TestedFull(ch.ring) && CatchesUp(ch) && SoundChannel(ch')
    requires ch'.ring == RingTx(ch.ring, skb).0 && ch'.walk == ch.walk.(circling := false)
    ensures now + Room(ch) == 2 && Placed(ch', now) && Pos(ch') == ch.walk.cur
    ensures Taken(ch'.ring, ch.walk.cur, now) == if now == 0 then [] else [skb]
    ensures Left(ch', now) == Left(ch, used) + Taken(ch.ring, Pos(ch), used) + if now == 0 then [skb] else []
  {
    var j := CatchesUpBy(ch, used);
    now := used + 2 - j;
    CatchUp(ch.ring, ch.ring.tail, used, j, skb);
    CaughtUpWalk(ch, ch', now);
  }

  /** The reaper is `j` slots from the tail, and the head at most two slots behind it. */
  lemma CatchesUpBy(ch: Channel, used: nat) returns (j: nat)
    requires Placed(ch, used) && CatchesUp(ch)
    ensures j < |ch.ring.slots| && j == used + Room(ch) <= used + 2 && Rot(ch.ring.tail, j, |ch.ring.slots|) == ch.walk.cur
  {
    j := Gap(ch.ring.tail, ch.walk.cur, |ch.ring.slots|);
    RoomIs(ch.ring.tail, used, j, |ch.ring.slots|);
  }

  lemma AcceptRing(ch: Channel, skb: Skb) returns (ch': Channel)
    requires SoundChannel(ch) && CatchesUp(ch) && !TestedFull(ch.ring)
    ensures ch' == Accept(ch, skb).0 && SoundChannel(ch')
    ensures ch'.ring == RingTx(ch.ring, skb).0 && ch'.walk == ch.walk.(circling := false)
  {
    ch' := Accept(ch, skb).0;
    SoundAccept(ch, skb);
    TxVerdict(ch.ring, skb);
  }

  lemma CaughtUpWalk(ch: Channel, ch': Channel, now: nat)
    requires SoundChannel(ch) && CatchesUp(ch) && now + Room(ch) == 2
    requires Wf(ch') && ch'.walk == ch.walk.(circling := false)
    ensures WalkOk(ch', now) && Pos(ch') == ch.walk.cur
  {
    assert SoundSlot(ch.ring.slots[ch.walk.cur], ch.walk.cur);
  }

  lemma CatchUp(r: Ring, t: nat, used: nat, j: nat, skb: Skb)
    requires Front(r, t, used) && !TestedFull(r) && used <= j <= used + 2 && j < |r.slots|
    ensures RingTx(r, skb).1 == Ok
    ensures var r', cur, now := RingTx(r, skb).0, Rot(t, j, |r.slots|), used + 2 - j;
            && Front(r', cur, now)
            && Taken(r', cur, now) == (if now == 0 then [] else [skb])
            && Behind(r', cur, now) == Behind(r, t, used) + Taken(r, t, used) + (if now == 0 then [skb] else [])
  {
    var n, r' := |r.slots|, RingTx(r, skb).0;
    FrontTx(r, t, used, skb);
    ViewAfterTx(r, t, used, skb);
    CaughtUp(r', t, used + 2, j, skb);
    var cur, now := Rot(t, j, n), used + 2 - j;
    Unsnoc(Behind(r, t, used), Taken(r, t, used), Behind(r', cur, now), skb);
  }

  lemma Unsnoc<T>(a: seq<T>, b: seq<T>, c: seq<T>, x: T)
    ensures a + (b + [x]) == c + [] ==> c == a + b + [x]
    ensures a + (b + [x]) == c + [x] ==> c == a + b + []
  {
    assert a + (b + [x]) == (a + b) + [x];
    if (a + b) + [x] == c + [x] {
      assert ((a + b) + [x])[..|a + b|] == a + b;
      assert (c + [x])[..|c|] == c;
    } else if (a + b) + [x] == c + [] {
      assert c + [] == c;
    }
  }

  /** The stretch of a ring whose newest frame is `skb`, cut at its newest slots. */
  lemma CaughtUp(r: Ring, t: nat, used: nat, j: nat, skb: Skb)
    requires Front(r, t, used) && 2 <= used && used - 2 <= j <= used && j < |r.slots|
    requires View(r.slots, t)[used - 1].skb == Some(skb)
    ensures var cur, now := Rot(t, j, |r.slots|), used - j;
            && Front(r, cur, now)
            && Taken(r, cur, now) == (if now == 0 then [] else [skb])
            && Behind(r, t, used) + Taken(r, t, used) == Behind(r, cur, now) + Taken(r, cur, now)
  {
    var n, v := |r.slots|, View(r.slots, t);
    var cur, now := Rot(t, j, n), used - j;
    ViewRot(r.slots, t, j);
    var w := View(r.slots, cur);
    FrontSlot(r, t, used, used - 2);
    NewestOf(v, used, j);
    RotatedSkbs(v, w, used, j);
    FrontCut(r, t, used, j);
  }

  lemma FrontCut(r: Ring, t: nat, used: nat, j: nat)
    requires Front(r, t, used) && j <= used && j < |r.slots|
    ensures Front(r, Rot(t, j, |r.slots|), used - j)
  {
    ViewRot(r.slots, t, j);
    assert r.head == Rot(Rot(t, j, |r.slots|), used - j, |r.slots|);
    var v, w := View(r.slots, t), View(r.slots, Rot(t, j, |r.slots|));
    forall k | 0 <= k < used - j ensures w[k] == v[j + k] {}
  }

  lemma RotatedSkbs(v: seq<Slot>, w: seq<Slot>, used: nat, j: nat)
    requires j <= used <= |v| && w == v[j..] + v[..j]
    ensures w[..used - j] == v[j..used]
    ensures Skbs(v[used..]) + Skbs(v[..used]) == Skbs(w[used - j..]) + Skbs(w[..used - j])
  {
    assert w[..used - j] == v[j..used] && w[used - j..] == v[used..] + v[..j];
    SkbsConcat(v[used..], v[..j]);
    assert v[..used] == v[..j] + v[j..used];
    SkbsConcat(v[..j], v[j..used]);
  }

  lemma NewestOf(v: seq<Slot>, used: nat, j: nat)
    requires 2 <= used <= |v| && used - 2 <= j <= used && v[used - 2].skb.None?
    ensures Skbs(v[j..used]) == if j == used then [] else Stored(v[used - 1])
  {
    if j == used - 1 {
      assert v[j..used] == [v[used - 1]];
      SkbsOne(v[used - 1]);
    } else if j == used - 2 {
      assert v[j..used] == [v[used - 2]] + [v[used - 1]] + [];
      TwoAndMore(v[used - 2], v[used - 1], []);
    }
  }

  lemma DmaPlaced(ch: Channel, used: nat)
    requires Placed(ch, used)
    ensures Placed(DmaStep(ch), used) && Left(DmaStep(ch), used) == Left(ch, used)
    ensures HeldBy(DmaStep(ch)) == HeldBy(ch)
  {
    SoundDma(ch);
    FrontHw(ch.ring, Pos(ch), used);
    var t, n := ch.ring.tail, |ch.ring.slots|;
    forall k | 0 <= k < n
      ensures View(DmaStep(ch).ring.slots, t)[k].skb == View(ch.ring.slots, t)[k].skb
    {
      ViewAt(ch.ring.slots, t, k);
      ViewAt(DmaStep(ch).ring.slots, t, k);
    }
  }

  lemma BeginPlaced(ch: Channel, used: nat)
    requires Placed(ch, used) && ch.walk == Off
    ensures Placed(Begin(ch), used) && Left(Begin(ch), used) == Left(ch, used)
  {
  }

  /** The reaper is about to stop. */
  predicate Stopping(ch: Channel)
    requires Wf(ch)
  {
    && ch.walk.On? && ch.walk.phase != Clear
    && (ch.ring.slots[ch.walk.cur].valid || (ch.walk.phase == Check && ch.walk.cur == ch.ring.head))
  }

  lemma StopPlaced(ch: Channel, used: nat) returns (used': nat)
    requires Placed(ch, used) && Stopping(ch)
    ensures Reap(ch) == Stop(ch) && Placed(Stop(ch), used')
    ensures if ch.walk.circling then Left(Stop(ch), used') == []
            else used' == used && Left(Stop(ch), used') == Left(ch, used)
  {
    StopKeepsSound(ch.ring, ch.walk.cur);
    if ch.walk.circling {
      ValidIsFront(ch.ring, ch.walk.cur);
      var n, t, cur := |ch.ring.slots|, ch.ring.tail, ch.walk.cur;
      var j := Gap(t, cur, n);
      used' := if cur == ch.ring.head then n else Gap(cur, ch.ring.head, n);
      ViewRot(ch.ring.slots, t, j);
      NoneBehind(View(ch.ring.slots, t), View(ch.ring.slots, cur), used, j, used');
    } else {
      used' := used;
    }
  }

  lemma NoneBehind(v: seq<Slot>, w: seq<Slot>, used: nat, j: nat, used': nat)
    requires used <= j <= |v| && w == v[j..] + v[..j] && used' == |v| - j + used
    requires forall k :: used <= k < j ==> v[k].skb.None?
    ensures Skbs(w[used'..]) == []
  {
    forall k | 0 <= k < |w[used'..]| ensures w[used'..][k].skb.None? {
      assert w[used'..][k] == v[used + k];
    }
    NoneHeld(w[used'..]);
  }

  /** The reaper finds the ring not empty although it begins at the head: frames are left behind. */
  predicate Sweeps(ch: Channel)
    requires Wf(ch)
  {
    ch.walk.On? && ch.walk.phase == Body && !ch.walk.circling && ch.walk.cur == ch.ring.tail == ch.ring.head
    && TestedFull(ch.ring) && !ch.ring.slots[ch.walk.cur].valid
  }

  /** The reaper moves on past a completed slot; what it drops is the oldest frame of the stretch,
      or one left behind if it is circling. */
  lemma AdvancePlaced(ch: Channel, used: nat) returns (used': nat)
    requires Placed(ch, used) && ch.walk.On?
    requires InClear(ch) || (ch.walk.phase == Body && !ch.ring.slots[ch.walk.cur].valid && Found(ch).None?)
    requires Sweeps(ch) ==> used > 0
    ensures Placed(Reap(ch), used')
    ensures if 0 < used && !ch.walk.circling
            then used' == used - 1 && Left(Reap(ch), used') == Left(ch, used)
                 && Taken(ch.ring, Pos(ch), used)
                 == Stored(ch.ring.slots[ch.walk.cur]) + Taken(Reap(ch).ring, Pos(Reap(ch)), used')
            else used' == used && Left(ch, used) == Stored(ch.ring.slots[ch.walk.cur]) + Left(Reap(ch), used')
                 && Taken(Reap(ch).ring, Pos(Reap(ch)), used') == Taken(ch.ring, Pos(ch), used)
  {
    SoundReap(ch);
    if 0 < used && !ch.walk.circling {
      FrontOn(ch, used);
      used' := used - 1;
    } else if ch.walk.circling {
      CircleOn(ch, used);
      used' := used;
    } else {
      TxVerdict(ch.ring, Skb(0, false));
      used' := 0;
    }
  }

  lemma FrontOn(ch: Channel, used: nat)
    requires Placed(ch, used) && ch.walk.On? && !ch.walk.circling && 0 < used
    requires InClear(ch) || (ch.walk.phase == Body && !ch.ring.slots[ch.walk.cur].valid && Found(ch).None?)
    ensures Placed(Reap(ch), used - 1) && Left(Reap(ch), used - 1) == Left(ch, used)
    ensures Taken(ch.ring, Pos(ch), used)
         == Stored(ch.ring.slots[ch.walk.cur]) + Taken(Reap(ch).ring, Pos(Reap(ch)), used - 1)
  {
    SoundReap(ch);
    FrontClear(ch.ring, ch.walk.cur, used);
    BehindHead(ch.ring, Pos(ch), used);
  }

  lemma CircleOn(ch: Channel, used: nat)
    requires Placed(ch, used) && ch.walk.On? && ch.walk.circling
    requires InClear(ch) || (ch.walk.phase == Body && !ch.ring.slots[ch.walk.cur].valid && Found(ch).None?)
    ensures Placed(Reap(ch), used) && Pos(Reap(ch)) == Pos(ch)
    ensures Left(ch, used) == Stored(ch.ring.slots[ch.walk.cur]) + Left(Reap(ch), used)
    ensures Taken(Reap(ch).ring, Pos(ch), used) == Taken(ch.ring, Pos(ch), used)
  {
    SoundReap(ch);
    var j := Gap(ch.ring.tail, ch.walk.cur, |ch.ring.slots|);
    var v, v' := View(ch.ring.slots, ch.ring.tail), View(Reap(ch).ring.slots, ch.ring.tail);
    CircleOnView(ch, j);
    CircleOnFront(ch, used, v, v', j);
    CircleOnLeft(v, v', used, j);
  }

  lemma CircleOnLeft(v: seq<Slot>, v': seq<Slot>, used: nat, j: nat)
    requires used <= j < |v| && v' == v[j := v[j].(skb := None)]
    requires forall k :: used <= k < j ==> v[k].skb.None?
    ensures v'[..used] == v[..used] && Skbs(v[used..]) == Stored(v[j]) + Skbs(v'[used..])
  {
    var x, a, b := v[j].(skb := None), v[used..j], v[j + 1..];
    assert v[used..] == a + ([v[j]] + b) && v'[used..] == a + ([x] + b);
    OneAfterNone(a, v[j], b);
    NoneAfterNone(a, x, b);
  }

  lemma CircleOnView(ch: Channel, j: nat)
    requires Wf(ch) && ch.walk.On? && j == Gap(ch.ring.tail, ch.walk.cur, |ch.ring.slots|)
    requires InClear(ch) || (ch.walk.phase == Body && !ch.ring.slots[ch.walk.cur].valid && Found(ch).None?)
    ensures var v := View(ch.ring.slots, ch.ring.tail);
            && View(Reap(ch).ring.slots, ch.ring.tail) == v[j := v[j].(skb := None)]
            && v[j] == ch.ring.slots[ch.walk.cur]
  {
    var v := View(ch.ring.slots, ch.ring.tail);
    ViewAt(ch.ring.slots, ch.ring.tail, j);
    ViewUpdate(ch.ring.slots, ch.ring.tail, j, v[j].(skb := None));
    if !InClear(ch) {
      assert v[j := v[j].(skb := None)] == v;
    }
  }

  lemma CircleOnFront(ch: Channel, used: nat, v: seq<Slot>, v': seq<Slot>, j: nat)
    requires Placed(ch, used) && ch.walk.On? && ch.walk.circling && SoundChannel(Reap(ch))
    requires InClear(ch) || (ch.walk.phase == Body && !ch.ring.slots[ch.walk.cur].valid && Found(ch).None?)
    requires v == View(ch.ring.slots, ch.ring.tail) && v' == View(Reap(ch).ring.slots, ch.ring.tail)
    requires j == Gap(ch.ring.tail, ch.walk.cur, |ch.ring.slots|) && v' == v[j := v[j].(skb := None)]
    ensures Placed(Reap(ch), used) && Pos(Reap(ch)) == Pos(ch)
  {
    FrontStays(ch.ring, Reap(ch).ring, ch.ring.tail, used);
    CircleGoesOn(ch, Reap(ch), used, v, v', j);
  }

  lemma CircleGoesOn(ch: Channel, ch': Channel, used: nat, v: seq<Slot>, v': seq<Slot>, j: nat)
    requires Wf(ch) && ch.walk.On? && j == Gap(ch.ring.tail, ch.walk.cur, |ch.ring.slots|) && CircleOk(ch, used, j)
    requires Wf(ch') && |ch'.ring.slots| == |ch.ring.slots| && ch'.ring.tail == ch.ring.tail
    requires var nx := Next(ch.walk.cur, |ch.ring.slots|); ch'.walk == On(nx, Check, nx != ch.ring.tail)
    requires v == View(ch.ring.slots, ch.ring.tail) && v' == View(ch'.ring.slots, ch.ring.tail)
    requires v' == v[j := v[j].(skb := None)]
    ensures WalkOk(ch', used) && Pos(ch') == ch.ring.tail
  {
    if ch'.walk.circling {
      assert Gap(ch.ring.tail, ch'.walk.cur, |v|) == j + 1;
    }
  }

  lemma OneAfterNone(a: seq<Slot>, x: Slot, b: seq<Slot>)
    requires forall k :: 0 <= k < |a| ==> a[k].skb.None?
    ensures Skbs(a + ([x] + b)) == Stored(x) + Skbs(b)
  {
    var c := [x] + b;
    NoneBefore(a, c);
    OneMore(x, b);
  }

  lemma NoneAfterNone(a: seq<Slot>, x: Slot, b: seq<Slot>)
    requires x.skb.None? && forall k :: 0 <= k < |a| ==> a[k].skb.None?
    ensures Skbs(a + ([x] + b)) == Skbs(b)
  {
    OneAfterNone(a, x, b);
    assert Stored(x) == [];
  }

  lemma NoneBefore(a: seq<Slot>, b: seq<Slot>)
    requires forall k :: 0 <= k < |a| ==> a[k].skb.None?
    ensures Skbs(a + b) == Skbs(b)
  {
    NoneHeld(a);
    SkbsConcat(a, b);
  }

  lemma OneMore(x: Slot, b: seq<Slot>)
    ensures Skbs([x] + b) == Stored(x) + Skbs(b)
  {
    assert ([x] + b)[1..] == b;
  }

  lemma FoundPlaced(ch: Channel, used: nat)
    requires Placed(ch, used) && Found(ch).Some?
    ensures Placed(Reap(ch), used) && Left(Reap(ch), used) == Left(ch, used) && Pos(Reap(ch)) == Pos(ch)
    ensures !ch.walk.circling ==> 0 < used
  {
    assert SoundSlot(ch.ring.slots[ch.walk.cur], ch.walk.cur);
  }

  lemma CheckPlaced(ch: Channel, used: nat)
    requires Placed(ch, used) && ch.walk.On? && ch.walk.phase == Check && !Stopping(ch)
    ensures Placed(Reap(ch), used) && Left(Reap(ch), used) == Left(ch, used) && Pos(Reap(ch)) == Pos(ch)
  {
  }

  /* ---- Every transition keeps the queue in order ---- */

  lemma InOrderFacts(ch: Channel, used: nat)
    requires InOrder(ch, used)
    ensures HeldBy(ch) == Taken(ch.ring, Pos(ch), used) && |HeldBy(ch)| <= Capacity(ch)
    ensures TestedFull(ch.ring) <==> |HeldBy(ch)| == Capacity(ch)
  {
    HeldSplits(ch.ring, Pos(ch), used);
    FullTest(ch.ring, Pos(ch), used);
  }

  /** No frame is outside the stretch. */
  lemma NoneOutside(ch: Channel, used: nat, k: nat)
    requires InOrder(ch, used) && used <= k < |ch.ring.slots|
    ensures ch.ring.slots[Rot(Pos(ch), k, |ch.ring.slots|)].skb.None?
  {
    var v := View(ch.ring.slots, Pos(ch));
    NoneHeld(v[used..]);
    assert v[used..][k - used] == v[k];
    ViewAt(ch.ring.slots, Pos(ch), k);
  }

  lemma WalkInOrder(ch: Channel, used: nat)
    requires InOrder(ch, used) && ch.walk.On?
    ensures InClear(ch) ==> !ch.walk.circling && HeldBy(ch) != [] && HeldBy(ch)[0] == ch.ring.slots[ch.walk.cur].skb.value
    ensures Sweeps(ch) ==> 0 < used
    ensures Found(ch).Some? ==> !ch.walk.circling
  {
    InOrderFacts(ch, used);
    BehindHead(ch.ring, Pos(ch), used);
    if ch.walk.circling {
      NoneOutside(ch, used, Gap(ch.ring.tail, ch.walk.cur, |ch.ring.slots|));
    } else if InClear(ch) {
      FrontClear(ch.ring, Pos(ch), used);
    } else if used == 0 {
      NoneOutside(ch, used, 1);
      TxVerdict(ch.ring, Skb(0, false));
    }
  }

  lemma HeldBounds(ch: Channel)
    requires ChanInv(ch)
    ensures |HeldBy(ch)| <= Capacity(ch)
    ensures InClear(ch) ==> HeldBy(ch) != [] && !ch.walk.circling
    ensures Queue(ch) == if InClear(ch) then HeldBy(ch)[1..] else HeldBy(ch)
    ensures TestedFull(ch.ring) <==> |HeldBy(ch)| == Capacity(ch)
  {
    var used: nat :| InOrder(ch, used);
    InOrderFacts(ch, used);
    if ch.walk.On? { WalkInOrder(ch, used); }
  }

  /** The ring takes a frame exactly when fewer skbs than pairs of slots are in it, although
      `head == tail` may mean empty or full; a frame taken goes to the end of the queue. */
  lemma AcceptKeepsInv(ch: Channel, skb: Skb)
    requires ChanInv(ch) && RoomAhead(ch)
    ensures ChanInv(Accept(ch, skb).0)
    ensures Accept(ch, skb).1 == if |HeldBy(ch)| == Capacity(ch) then EBusy else Ok
    ensures |HeldBy(ch)| == Capacity(ch) ==> Accept(ch, skb).0 == ch
    ensures |HeldBy(ch)| < Capacity(ch) ==> Queue(Accept(ch, skb).0) == Queue(ch) + [skb]
  {
    var used: nat :| InOrder(ch, used);
    HeldBounds(ch);
    SoundAccept(ch, skb);
    if !TestedFull(ch.ring) {
      AcceptInOrder(ch, used, skb);
      QueueGrows(ch, Accept(ch, skb).0, skb);
    }
  }

  lemma AcceptInOrder(ch: Channel, used: nat, skb: Skb)
    requires InOrder(ch, used) && RoomAhead(ch) && !TestedFull(ch.ring)
    ensures exists used': nat :: InOrder(Accept(ch, skb).0, used')
    ensures HeldBy(Accept(ch, skb).0) == HeldBy(ch) + [skb]
  {
    InOrderFacts(ch, used);
    if CatchesUp(ch) {
      var now := AcceptCatchingUp(ch, used, skb);
      assert Taken(ch.ring, Pos(ch), used) == [];
      assert InOrder(Accept(ch, skb).0, now);
      InOrderFacts(Accept(ch, skb).0, now);
    } else {
      AcceptPlaced(ch, used, skb);
      assert InOrder(Accept(ch, skb).0, used + 2);
      InOrderFacts(Accept(ch, skb).0, used + 2);
    }
  }

  lemma QueueGrows(ch: Channel, ch': Channel, skb: Skb)
    requires Wf(ch) && Wf(ch') && HeldBy(ch') == HeldBy(ch) + [skb]
    requires InClear(ch') == InClear(ch) && (InClear(ch) ==> HeldBy(ch) != [])
    requires ch.accepted == ch.reaped + Queue(ch)
    ensures Queue(ch') == Queue(ch) + [skb]
    ensures ch.accepted + [skb] == ch.reaped + Queue(ch')
  {
  }

  lemma DmaKeepsInv(ch: Channel)
    requires ChanInv(ch)
    ensures ChanInv(DmaStep(ch))
    ensures Queue(DmaStep(ch)) == Queue(ch)
  {
    var used: nat :| InOrder(ch, used);
    DmaPlaced(ch, used);
    assert InOrder(DmaStep(ch), used);
  }

  lemma BeginKeepsInv(ch: Channel)
    requires ChanInv(ch) && ch.walk == Off
    ensures ChanInv(Begin(ch))
    ensures Queue(Begin(ch)) == Queue(ch)
  {
    var used: nat :| InOrder(ch, used);
    BeginPlaced(ch, used);
    assert InOrder(Begin(ch), used);
  }

  lemma StopKeepsInv(ch: Channel)
    requires ChanInv(ch) && Stopping(ch)
    ensures ChanInv(Reap(ch))
    ensures Queue(Reap(ch)) == Queue(ch)
  {
    var used: nat :| InOrder(ch, used);
    if ch.walk.circling {
      CirclesIdleSlots(ch, used);
    } else {
      var used' := StopPlaced(ch, used);
      assert InOrder(Stop(ch), used');
    }
  }

  /** A circling reaper does not stop before it has come round. */
  lemma CirclesIdleSlots(ch: Channel, used: nat)
    requires InOrder(ch, used) && ch.walk.On? && ch.walk.circling
    ensures !Stopping(ch)
  {
    var n, t, cur := |ch.ring.slots|, ch.ring.tail, ch.walk.cur;
    var j := Gap(t, cur, n);
    NoneOutside(ch, used, j);
    if ch.ring.slots[cur].valid {
      ValidHoldsNext(ch.ring, cur);
      FrontParity(ch.ring, t, used);
      assert j + 1 < n ==> Rot(t, j + 1, n) == Next(cur, n);
      NoneOutside(ch, used, j + 1);
    }
  }

  lemma ValidHoldsNext(r: Ring, cur: nat)
    requires Sound(r) && cur < |r.slots| && r.slots[cur].valid && r.slots[cur].skb.None?
    ensures cur % 2 == 0 && r.slots[Next(cur, |r.slots|)].skb.Some?
  {
    assert SoundSlot(r.slots[cur], cur);
    ValidIsFront(r, cur);
    SlotAt(r, cur, 1);
  }

  /** Moving on past a completed slot whose skb, if any, has been dealt with. */
  lemma AdvanceKeepsInv(ch: Channel)
    requires ChanInv(ch) && ch.walk.On?
    requires InClear(ch) || (ch.walk.phase == Body && !ch.ring.slots[ch.walk.cur].valid && Found(ch).None?)
    ensures ChanInv(Reap(ch))
    ensures Queue(Reap(ch)) == Queue(ch)
  {
    var used: nat :| InOrder(ch, used);
    InOrderFacts(ch, used);
    WalkInOrder(ch, used);
    var used' := AdvancePlaced(ch, used);
    assert InOrder(Reap(ch), used');
    InOrderFacts(Reap(ch), used');
    AdvanceQueue(ch, Reap(ch));
  }

  lemma AdvanceQueue(ch: Channel, ch': Channel)
    requires Wf(ch) && Wf(ch') && ch.walk.On? && !InClear(ch')
    requires if InClear(ch) then HeldBy(ch) == Stored(ch.ring.slots[ch.walk.cur]) + HeldBy(ch') && HeldBy(ch) != []
                                 && ch.ring.slots[ch.walk.cur].skb.Some?
             else HeldBy(ch') == HeldBy(ch)
    ensures Queue(ch') == Queue(ch)
  {
  }

  /** The frame that the loop body deals with is always the oldest of the queue. */
  lemma ReleaseKeepsInv(ch: Channel)
    requires ChanInv(ch) && Found(ch).Some?
    ensures ChanInv(Reap(ch))
    ensures Queue(ch) == [Found(ch).value] + Queue(Reap(ch))
  {
    var used: nat :| InOrder(ch, used);
    FoundPlaced(ch, used);
    assert InOrder(Reap(ch), used);
    WalkInOrder(ch, used);
    WalkInOrder(Reap(ch), used);
    MoveFirst(ch.accepted, ch.reaped, Queue(ch));
  }

  lemma MoveFirst<T>(all: seq<T>, left: seq<T>, q: seq<T>)
    requires all == left + q && q != []
    ensures all == left + [q[0]] + q[1..]
    ensures q == [q[0]] + q[1..]
  {
  }

  /** One step of the reaper removes the frame it deals with, if any, from the front of the
      queue, and nothing else. */
  lemma ReapKeepsInv(ch: Channel)
    requires ChanInv(ch)
    ensures ChanInv(Reap(ch))
    ensures Queue(ch) == (if Found(ch).Some? then [Found(ch).value] else []) + Queue(Reap(ch))
    ensures Found(ch).None? ==> Queue(Reap(ch)) == Queue(ch)
    ensures Capacity(Reap(ch)) == Capacity(ch)
  {
    if ch.walk.On? {
      if Found(ch).Some? {
        ReleaseKeepsInv(ch);
      } else if Stopping(ch) {
        StopKeepsInv(ch);
      } else if ch.walk.phase == Check {
        var used: nat :| InOrder(ch, used);
        CheckPlaced(ch, used);
        assert InOrder(Reap(ch), used);
      } else {
        AdvanceKeepsInv(ch);
      }
    }
  }
}
