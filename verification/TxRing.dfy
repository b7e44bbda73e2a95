/** One transmit channel of the DMA transfer engine (dxe.c), as values.

    A channel is a circle of control blocks, each paired with one DMA descriptor. Frames use
    two slots each: a buffer-descriptor (BD) slot followed by an skb slot. There is no element
    count, so `head == tail` is both the empty and the full ring; the code tells the two apart
    by looking at the skb pointer behind the head.

    All reasoning is done on the ring rotated to start at the reaper's position (`View`), so
    that no modular arithmetic is left.
 */
module TxRing {
  import opened Common
  import opened Circle

  /** A socket buffer: its identity, and whether mac80211 asked for a TX status. */
  datatype Skb = Skb(id: nat, wantsStatus: bool)

  /** A control block with its descriptor: the VALID bit, `ctl->skb`, and `ctl->bd_cpu_addr`
      (0 is NULL). */
  datatype Slot = Slot(valid: bool, skb: Option<Skb>, bd: nat)

  /** `head` and `tail` are the positions of `head_blk_ctl` and `tail_blk_ctl`; `hw` is the
      descriptor the DMA engine looks at next. */
  datatype Ring = Ring(slots: seq<Slot>, head: nat, tail: nat, hw: nat)

  datatype Ret = Ok | EBusy | EInval

  predicate WfRing(r: Ring) {
    && 4 <= |r.slots| && |r.slots| % 2 == 0
    && r.head < |r.slots| && r.tail < |r.slots| && r.hw < |r.slots|
  }

  /* ---- The transitions of one ring ---- */

  /** The BD slot made ready, the skb hung into its slot, and that slot made ready. */
  function WithBd(slots: seq<Slot>, h: nat): seq<Slot>
    requires h < |slots|
  {
    slots[h := slots[h].(skb := None, valid := true)]
  }

  function WithSkb(slots: seq<Slot>, i: nat, skb: Skb): seq<Slot>
    requires i < |slots|
  {
    slots[i := slots[i].(skb := Some(skb))]
  }

  function Armed(slots: seq<Slot>, i: nat): seq<Slot>
    requires i < |slots|
  {
    slots[i := slots[i].(valid := true)]
  }

  /** `wcn36xx_dxe_tx_frame` on the ring alone. */
  function RingTx(r: Ring, skb: Skb): (res: (Ring, Ret))
    requires WfRing(r)
    ensures WfRing(res.0) && |res.0.slots| == |r.slots|
  {
    var n := |r.slots|;
    var nx := Next(r.head, n);
    if r.slots[nx].skb.Some? then
      (r, EBusy)
    else
      var placed := WithSkb(WithBd(r.slots, r.head), nx, skb);
      if placed[nx].bd != 0 then
        (r.(slots := placed), EInval)
      else
        (r.(slots := Armed(placed, nx), head := Next(nx, n)), Ok)
  }

  /** The DMA engine: it works on its current descriptor only while that is VALID, clears the
      bit when done, and follows the physical next link. */
  function RingHw(r: Ring): (r': Ring)
    requires WfRing(r)
    ensures WfRing(r') && |r'.slots| == |r.slots|
  {
    if r.slots[r.hw].valid then
      r.(slots := r.slots[r.hw := r.slots[r.hw].(valid := false)], hw := Next(r.hw, |r.slots|))
    else
      r
  }

  /** The reaper drops the skb pointer of the slot at `cur`. */
  function RingClear(r: Ring, cur: nat): (r': Ring)
    requires WfRing(r) && cur < |r.slots|
    ensures WfRing(r') && |r'.slots| == |r.slots|
  {
    r.(slots := r.slots[cur := r.slots[cur].(skb := None)])
  }

  /* ---- What holds under every interleaving ---- */

  /** The number of VALID slots, see Sound. */
  ghost function Live(r: Ring): (k: nat)
    requires WfRing(r)
    ensures k <= |r.slots|
  {
    if !r.slots[r.hw].valid then 0
    else if r.hw == r.head then |r.slots|
    else Gap(r.hw, r.head, |r.slots|)
  }

  /** The head is on a BD slot, BD slots and skb slots alternate, skbs are on skb slots only, and
      the VALID slots reach from the DMA engine to the head; those among them that are skb slots
      hold an skb. */
  ghost predicate Sound(r: Ring) {
    && WfRing(r) && r.head % 2 == 0 && r.head == Rot(r.hw, Live(r), |r.slots|)
    && (forall i :: 0 <= i < |r.slots| ==> SoundSlot(r.slots[i], i))
    && (forall k :: 0 <= k < |r.slots| ==> (View(r.slots, r.hw)[k].valid <==> k < Live(r)))
  }

  predicate SoundSlot(s: Slot, i: nat) {
    && (s.bd != 0 <==> i % 2 == 0)
    && (s.skb.Some? ==> i % 2 == 1)
    && (s.valid && i % 2 == 1 ==> s.skb.Some?)
  }

  lemma LiveIs(r: Ring, k: nat)
    requires WfRing(r) && k <= |r.slots| && r.head == Rot(r.hw, k, |r.slots|)
    requires forall i :: 0 <= i < |r.slots| ==> (View(r.slots, r.hw)[i].valid <==> i < k)
    ensures Live(r) == k
  {
    ViewAt(r.slots, r.hw, 0);
  }

  /** Whether the ring takes a frame is decided by the skb pointer behind the head alone: the errors
      for a misplaced BD buffer never occur. */
  lemma TxVerdict(r: Ring, skb: Skb)
    requires Sound(r)
    ensures RingTx(r, skb).1 == if r.slots[Next(r.head, |r.slots|)].skb.Some? then EBusy else Ok
    ensures r.slots[r.head].bd != 0 && r.slots[r.head].skb.None?
    ensures Next(r.head, |r.slots|) == r.head + 1 && r.slots[r.head + 1].bd == 0
  {
    assert SoundSlot(r.slots[r.head], r.head) && SoundSlot(r.slots[r.head + 1], r.head + 1);
  }

  /** The two slots at the head of a ring that is not full are free. */
  lemma HeadIsFree(r: Ring)
    requires Sound(r) && r.slots[Next(r.head, |r.slots|)].skb.None?
    ensures Live(r) + 2 <= |r.slots| && r.head + 1 < |r.slots| && r.head + 1 == Rot(r.hw, Live(r) + 1, |r.slots|)
  {
    var n, k := |r.slots|, Live(r);
    assert SoundSlot(r.slots[r.head + 1], r.head + 1);
    var i := if k + 1 < n then k + 1 else k + 1 - n;
    ViewAt(r.slots, r.hw, i);
    assert Rot(r.hw, i, n) == r.head + 1;
  }

  lemma SoundTx(r: Ring, skb: Skb)
    requires Sound(r)
    ensures Sound(RingTx(r, skb).0)
  {
    TxVerdict(r, skb);
    if r.slots[Next(r.head, |r.slots|)].skb.None? {
      HeadIsFree(r);
      LiveTx(r, skb);
      forall i | 0 <= i < |r.slots| ensures SoundSlot(RingTx(r, skb).0.slots[i], i) {
        assert SoundSlot(r.slots[i], i);
      }
    }
  }

  lemma LiveTx(r: Ring, skb: Skb)
    requires Sound(r) && r.slots[Next(r.head, |r.slots|)].skb.None? && Live(r) + 2 <= |r.slots|
    ensures var r' := RingTx(r, skb).0;
            && Live(r') == Live(r) + 2 && r'.head == Rot(r.hw, Live(r) + 2, |r.slots|)
            && forall i :: 0 <= i < |r.slots| ==> (View(r'.slots, r.hw)[i].valid <==> i < Live(r) + 2)
  {
    TxVerdict(r, skb);
    var k, r' := Live(r), RingTx(r, skb).0;
    var bd, data := r.slots[r.head].(skb := None, valid := true), r.slots[r.head + 1].(skb := Some(skb), valid := true);
    assert r'.slots == r.slots[r.head := bd][r.head + 1 := data];
    ViewUpdate(r.slots, r.hw, k, bd);
    ViewUpdate(r.slots[r.head := bd], r.hw, k + 1, data);
    LiveIs(r', k + 2);
  }

  lemma SoundHw(r: Ring)
    requires Sound(r)
    ensures Sound(RingHw(r))
  {
    var n, k := |r.slots|, Live(r);
    if r.slots[r.hw].valid {
      var r' := RingHw(r);
      ViewAt(r.slots, r.hw, 0);
      var x := r.slots[r.hw].(valid := false);
      ViewUpdate(r.slots, r.hw, 0, x);
      ViewNext(r'.slots, r.hw);
      var v, v' := View(r.slots, r.hw), View(r'.slots, r'.hw);
      forall i | 0 <= i < n ensures v'[i].valid <==> i < k - 1 {
        assert v'[i] == if i + 1 < n then v[i + 1] else x;
      }
      LiveIs(r', k - 1);
      forall i | 0 <= i < n ensures SoundSlot(r'.slots[i], i) {
        assert SoundSlot(r.slots[i], i);
      }
    }
  }

  lemma SoundClear(r: Ring, cur: nat)
    requires Sound(r) && cur < |r.slots| && !r.slots[cur].valid
    ensures Sound(RingClear(r, cur))
  {
    var r', n := RingClear(r, cur), |r.slots|;
    forall k | 0 <= k < n ensures View(r'.slots, r.hw)[k].valid <==> View(r.slots, r.hw)[k].valid {
      ViewAt(r'.slots, r.hw, k);
      ViewAt(r.slots, r.hw, k);
    }
    LiveIs(r', Live(r));
    forall i | 0 <= i < n ensures SoundSlot(r'.slots[i], i) {
      assert SoundSlot(r.slots[i], i);
    }
  }

  /* ---- The frames held by a ring ---- */

  /** The skbs stored in a stretch of slots, in order. */
  ghost function Skbs(v: seq<Slot>): seq<Skb> {
    if v == [] then [] else Stored(v[0]) + Skbs(v[1..])
  }

  ghost function Stored(s: Slot): seq<Skb> {
    if s.skb.Some? then [s.skb.value] else []
  }

  lemma {:induction false} SkbsConcat(a: seq<Slot>, b: seq<Slot>)
    ensures Skbs(a + b) == Skbs(a) + Skbs(b)
  {
    if a == [] {
      assert a + b == b;
    } else {
      var rest := a[1..];
      SkbsConcat(rest, b);
      assert (a + b)[1..] == rest + b;
      Regroup(Stored(a[0]), Skbs(rest), Skbs(b));
    }
  }

  lemma SkbsOne(x: Slot)
    ensures Skbs([x]) == Stored(x)
  {
    assert [x][1..] == [];
  }

  lemma {:induction false} SkbsDependOnPointers(a: seq<Slot>, b: seq<Slot>)
    requires |a| == |b| && forall k :: 0 <= k < |a| ==> a[k].skb == b[k].skb
    ensures Skbs(a) == Skbs(b)
  {
    if a != [] {
      SkbsDependOnPointers(a[1..], b[1..]);
    }
  }

  lemma {:induction false} NoneHeld(v: seq<Slot>)
    ensures Skbs(v) == [] <==> forall k :: 0 <= k < |v| ==> v[k].skb.None?
  {
    if v != [] {
      NoneHeld(v[1..]);
      if Skbs(v) == [] {
        forall k | 0 <= k < |v| ensures v[k].skb.None? {
          assert k > 0 ==> v[k] == v[1..][k - 1];
        }
      }
    }
  }

  /** The frames whose skb pointer is still in the ring, as seen from `t`. */
  ghost function Held(r: Ring, t: nat): seq<Skb>
    requires t <= |r.slots|
  {
    Skbs(View(r.slots, t))
  }

  /* ---- The stretch from the reaper to the head ---- */

  /** From `t` it is `used` slots to the head, and all skb slots among them hold an skb. Whether
      slots outside hold one is left open. */
  ghost predicate Front(r: Ring, t: nat, used: nat) {
    && Sound(r) && t < |r.slots| && used <= |r.slots| && r.head == Rot(t, used, |r.slots|)
    && forall k :: 0 <= k < used ==> View(r.slots, t)[k].skb.Some? || View(r.slots, t)[k].bd != 0
  }

  lemma FrontStays(r: Ring, r': Ring, t: nat, used: nat)
    requires Front(r, t, used) && Sound(r') && |r'.slots| == |r.slots| && r'.head == r.head
    requires forall k :: 0 <= k < used ==> View(r'.slots, t)[k] == View(r.slots, t)[k]
    ensures Front(r', t, used)
  {
  }

  /** The frames in that stretch, oldest first. */
  ghost function Taken(r: Ring, t: nat, used: nat): seq<Skb>
    requires t < |r.slots| && used <= |r.slots|
  {
    Skbs(View(r.slots, t)[..used])
  }

  /** The frames outside of it, which the reaper has left behind. */
  ghost function Behind(r: Ring, t: nat, used: nat): seq<Skb>
    requires t < |r.slots| && used <= |r.slots|
  {
    Skbs(View(r.slots, t)[used..])
  }

  lemma HeldSplits(r: Ring, t: nat, used: nat)
    requires Front(r, t, used)
    ensures Held(r, t) == Taken(r, t, used) + Behind(r, t, used)
  {
    var v := View(r.slots, t);
    assert v == v[..used] + v[used..];
    SkbsConcat(v[..used], v[used..]);
  }

  /** The slot `k` steps after `t`. */
  lemma SlotAt(r: Ring, t: nat, k: nat)
    requires Sound(r) && t < |r.slots| && k < |r.slots|
    ensures View(r.slots, t)[k] == r.slots[Rot(t, k, |r.slots|)]
    ensures Rot(t, k, |r.slots|) % 2 == (t + k) % 2
    ensures SoundSlot(View(r.slots, t)[k], t + k)
  {
    ViewAt(r.slots, t, k);
    RotParity(t, k, |r.slots|);
    assert SoundSlot(r.slots[Rot(t, k, |r.slots|)], Rot(t, k, |r.slots|));
  }

  lemma RotParity(t: nat, k: nat, n: nat)
    requires t < n && k <= n && n % 2 == 0
    ensures Rot(t, k, n) % 2 == (t + k) % 2
  {
  }

  lemma FrontParity(r: Ring, t: nat, used: nat)
    requires Front(r, t, used)
    ensures t % 2 == used % 2
  {
  }

  /** In the stretch, counted back from the head, exactly every second slot holds an skb. */
  lemma FrontSlot(r: Ring, t: nat, used: nat, k: nat)
    requires Front(r, t, used) && k < used
    ensures View(r.slots, t)[k].skb.Some? <==> (used - k) % 2 == 1
  {
    SlotAt(r, t, k);
    FrontParity(r, t, used);
    SameParity(t, used, k);
  }

  lemma SameParity(t: nat, used: nat, k: nat)
    requires t % 2 == used % 2 && k <= used
    ensures (t + k) % 2 == (used - k) % 2
  {
  }

  lemma {:induction false} AlternateCount(v: seq<Slot>)
    requires forall k :: 0 <= k < |v| ==> (v[k].skb.Some? <==> (|v| - k) % 2 == 1)
    ensures |Skbs(v)| == (|v| + 1) / 2
  {
    if v != [] {
      assert |v| - 0 == |v|;
      forall k | 0 <= k < |v| - 1 ensures v[1..][k].skb.Some? <==> (|v| - 1 - k) % 2 == 1 {
        assert v[1..][k] == v[k + 1] && |v| - (k + 1) == |v| - 1 - k;
      }
      AlternateCount(v[1..]);
    }
  }

  lemma TakenCount(r: Ring, t: nat, used: nat)
    requires Front(r, t, used)
    ensures |Taken(r, t, used)| == (used + 1) / 2
  {
    forall k | 0 <= k < used ensures View(r.slots, t)[k].skb.Some? <==> (used - k) % 2 == 1 {
      FrontSlot(r, t, used, k);
    }
    AlternateCount(View(r.slots, t)[..used]);
  }

  /** The slot behind the head: it holds an skb if the stretch goes all the way round, or if a
      frame is left behind there. */
  lemma BehindHead(r: Ring, t: nat, used: nat)
    requires Front(r, t, used)
    ensures used + 1 >= |r.slots| ==> r.slots[Next(r.head, |r.slots|)].skb.Some?
    ensures used + 1 < |r.slots| ==> View(r.slots, t)[used + 1] == r.slots[Next(r.head, |r.slots|)]
    ensures used < |r.slots| ==> View(r.slots, t)[used] == r.slots[r.head]
  {
    var n := |r.slots|;
    var k := if used + 1 < n then used + 1 else used + 1 - n;
    SlotAt(r, t, k);
    assert Rot(t, k, n) == Next(r.head, n);
    if used < n { SlotAt(r, t, used); }
    assert SoundSlot(r.slots[Next(r.head, n)], Next(r.head, n));
  }

  /** Although `head == tail` has two meanings, the skb pointer behind the head decides, as long as
      no frame is left behind: it is set exactly when half as many skbs as slots are in the ring. */
  lemma FullTest(r: Ring, t: nat, used: nat)
    requires Front(r, t, used) && Behind(r, t, used) == []
    ensures |Held(r, t)| == (used + 1) / 2 <= |r.slots| / 2
    ensures r.slots[Next(r.head, |r.slots|)].skb.Some? <==> |Held(r, t)| == |r.slots| / 2
  {
    HeldSplits(r, t, used);
    TakenCount(r, t, used);
    BehindHead(r, t, used);
    NoneHeld(View(r.slots, t)[used..]);
    if used + 1 < |r.slots| {
      assert View(r.slots, t)[used..][1] == View(r.slots, t)[used + 1];
    }
  }

  /** A frame that is accepted is appended to the stretch. */
  lemma FrontTx(r: Ring, t: nat, used: nat, skb: Skb)
    requires Front(r, t, used) && r.slots[Next(r.head, |r.slots|)].skb.None?
    ensures used + 2 <= |r.slots| && RingTx(r, skb).1 == Ok && Front(RingTx(r, skb).0, t, used + 2)
    ensures Taken(RingTx(r, skb).0, t, used + 2) == Taken(r, t, used) + [skb]
    ensures Behind(RingTx(r, skb).0, t, used + 2) == Behind(r, t, used)
  {
    TxVerdict(r, skb);
    SoundTx(r, skb);
    BehindHead(r, t, used);
    FrontParity(r, t, used);
    ViewAfterTx(r, t, used, skb);
    FrontGrows(r, RingTx(r, skb).0, t, used);
    TakenGrows(View(r.slots, t), View(RingTx(r, skb).0.slots, t), used, skb);
    TwoFirst(View(r.slots, t), used);
  }

  lemma FrontGrows(r: Ring, r': Ring, t: nat, used: nat)
    requires Front(r, t, used) && Sound(r') && |r'.slots| == |r.slots| && used + 2 <= |r.slots|
    requires r'.head == Rot(t, used + 2, |r.slots|)
    requires View(r'.slots, t)[used].bd != 0 && View(r'.slots, t)[used + 1].skb.Some?
    requires forall k :: 0 <= k < used ==> View(r'.slots, t)[k] == View(r.slots, t)[k]
    ensures Front(r', t, used + 2)
  {
  }

  lemma TakenGrows(v: seq<Slot>, v': seq<Slot>, used: nat, skb: Skb)
    requires used + 2 <= |v| == |v'| && v'[..used + 2] == v[..used] + [v'[used]] + [v'[used + 1]]
    requires v'[used].skb.None? && v'[used + 1].skb == Some(skb)
    ensures Skbs(v'[..used + 2]) == Skbs(v[..used]) + [skb]
  {
    SkbsOfTwo(v[..used], v'[used], v'[used + 1]);
  }

  lemma ViewAfterTx(r: Ring, t: nat, used: nat, skb: Skb)
    requires Sound(r) && t < |r.slots| && used + 2 <= |r.slots| && r.head == Rot(t, used, |r.slots|)
    requires r.slots[Next(r.head, |r.slots|)].skb.None?
    ensures var v, v' := View(r.slots, t), View(RingTx(r, skb).0.slots, t);
            && v'[..used + 2] == v[..used] + [v'[used]] + [v'[used + 1]] && v'[used + 2..] == v[used + 2..]
            && v'[used].skb.None? && v'[used].bd == v[used].bd && v'[used + 1].skb == Some(skb)
            && forall k :: 0 <= k < used ==> v'[k] == v[k]
  {
    var v := View(r.slots, t);
    var bd, data := v[used].(skb := None, valid := true), v[used + 1].(skb := Some(skb), valid := true);
    TwoWritten(r, t, used, skb, bd, data);
    ViewUpdate(r.slots, t, used, bd);
    ViewUpdate(r.slots[r.head := bd], t, used + 1, data);
    TwoReplaced(v, used, bd, data);
  }

  lemma TwoWritten(r: Ring, t: nat, used: nat, skb: Skb, bd: Slot, data: Slot)
    requires Sound(r) && t < |r.slots| && used + 2 <= |r.slots| && r.head == Rot(t, used, |r.slots|)
    requires r.slots[Next(r.head, |r.slots|)].skb.None?
    requires bd == View(r.slots, t)[used].(skb := None, valid := true)
    requires data == View(r.slots, t)[used + 1].(skb := Some(skb), valid := true)
    ensures r.head + 1 == Rot(t, used + 1, |r.slots|)
    ensures RingTx(r, skb).0.slots == r.slots[r.head := bd][r.head + 1 := data]
  {
    TxVerdict(r, skb);
    ViewAt(r.slots, t, used);
    ViewAt(r.slots, t, used + 1);
  }

  lemma TwoReplaced(v: seq<Slot>, k: nat, x: Slot, y: Slot)
    requires k + 2 <= |v|
    ensures var v' := v[k := x][k + 1 := y];
            v'[..k + 2] == v[..k] + [x] + [y] && v'[k + 2..] == v[k + 2..]
  {
  }

  lemma SkbsOfTwo(a: seq<Slot>, x: Slot, y: Slot)
    ensures Skbs(a + [x] + [y]) == Skbs(a) + Stored(x) + Stored(y)
  {
    SkbsConcat(a + [x], [y]);
    SkbsConcat(a, [x]);
    SkbsOne(x);
    SkbsOne(y);
  }

  lemma TwoFirst(v: seq<Slot>, used: nat)
    requires used + 2 <= |v|
    ensures Skbs(v[used..]) == Stored(v[used]) + Stored(v[used + 1]) + Skbs(v[used + 2..])
  {
    assert v[used..] == [v[used]] + [v[used + 1]] + v[used + 2..];
    TwoAndMore(v[used], v[used + 1], v[used + 2..]);
  }

  lemma TwoAndMore(x: Slot, y: Slot, b: seq<Slot>)
    ensures Skbs([x] + [y] + b) == Stored(x) + Stored(y) + Skbs(b)
  {
    SkbsConcat([x] + [y], b);
    SkbsConcat([x], [y]);
    SkbsOne(x);
    SkbsOne(y);
  }

  /** A completion touches no skb pointer. */
  lemma FrontHw(r: Ring, t: nat, used: nat)
    requires Front(r, t, used)
    ensures Front(RingHw(r), t, used)
    ensures Taken(RingHw(r), t, used) == Taken(r, t, used) && Behind(RingHw(r), t, used) == Behind(r, t, used)
    ensures Held(RingHw(r), t) == Held(r, t)
  {
    SoundHw(r);
    var v, v' := View(r.slots, t), View(RingHw(r).slots, t);
    forall k | 0 <= k < |v| ensures v'[k].skb == v[k].skb && v'[k].bd == v[k].bd {
      ViewAt(r.slots, t, k);
      ViewAt(RingHw(r).slots, t, k);
    }
    SkbsDependOnPointers(v, v');
    SkbsDependOnPointers(v[..used], v'[..used]);
    SkbsDependOnPointers(v[used..], v'[used..]);
  }

  /** The reaper moves on by one slot of the stretch, which has been completed; it takes the oldest
      frame along if that is stored in this slot. */
  lemma FrontClear(r: Ring, t: nat, used: nat)
    requires Front(r, t, used) && 0 < used && !r.slots[t].valid
    ensures Front(RingClear(r, t), Next(t, |r.slots|), used - 1)
    ensures Taken(r, t, used) == Stored(r.slots[t]) + Taken(RingClear(r, t), Next(t, |r.slots|), used - 1)
    ensures Behind(RingClear(r, t), Next(t, |r.slots|), used - 1) == Behind(r, t, used)
    ensures r.slots[t].skb.None? ==> RingClear(r, t) == r
  {
    var n, v := |r.slots|, View(r.slots, t);
    SoundClear(r, t);
    ViewAt(r.slots, t, 0);
    var r', x := RingClear(r, t), r.slots[t].(skb := None);
    ViewUpdate(r.slots, t, 0, x);
    ViewNext(r'.slots, t);
    var v' := View(r'.slots, Next(t, n));
    assert v' == v[1..] + [x];
    assert v'[..used - 1] == v[..used][1..] && v'[used - 1..] == v[used..] + [x];
    SkbsConcat(v[used..], [x]);
    SkbsOne(x);
    FrontShrinks(v, v', used);
    if r.slots[t].skb.None? {
      assert r'.slots == r.slots;
    }
  }

  lemma FrontShrinks(v: seq<Slot>, v': seq<Slot>, used: nat)
    requires 0 < used <= |v| == |v'| && v'[..used - 1] == v[..used][1..]
    requires forall k :: 0 <= k < used ==> v[k].skb.Some? || v[k].bd != 0
    ensures forall k :: 0 <= k < used - 1 ==> v'[k].skb.Some? || v'[k].bd != 0
  {
    forall k | 0 <= k < used - 1 ensures v'[k] == v[k + 1] {
      assert v'[k] == v'[..used - 1][k] && v[k + 1] == v[..used][1..][k];
    }
  }

  /** A VALID slot always begins such a stretch, since VALID slots reach up to the head. */
  lemma ValidIsFront(r: Ring, t: nat)
    requires Sound(r) && t < |r.slots| && r.slots[t].valid
    ensures var used := if t == r.head then |r.slots| else Gap(t, r.head, |r.slots|);
            0 < used && Front(r, t, used)
  {
    var n := |r.slots|;
    var used := if t == r.head then n else Gap(t, r.head, n);
    var g := Gap(r.hw, t, n);
    ViewAt(r.slots, r.hw, g);
    assert g < Live(r) && used == Live(r) - g;
    forall k | 0 <= k < used ensures View(r.slots, t)[k].skb.Some? || View(r.slots, t)[k].bd != 0 {
      SlotAt(r, t, k);
      ViewAt(r.slots, r.hw, g + k);
      assert Rot(r.hw, g + k, n) == Rot(t, k, n);
    }
  }
}
