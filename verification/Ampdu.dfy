/** When TX aggregation is started for a station (txrx.c, main.c, wcn36xx.h).

    A session state is kept per TID, but there is only one counter of frames sent without
    aggregation. Frames and mac80211's actions come in any order; each is one step, under
    `ampdu_lock`.
 */
module Ampdu {

  import Common

  const START_THRESH := 20
  const NUM_TIDS := 16

  datatype State = None | Init | Start | Operational

  datatype Action = RxStart | RxStop | TxStart | TxOperational | TxStopFlush | TxStopFlushCont | TxStopCont

  datatype Ac = Vo | Vi | Be | Bk

  /** `frameCt` is `non_agg_frame_ct`. */
  datatype Sta = Sta(ampdu: seq<State>, frameCt: int)

  /** A frame as far as it matters here; `qosCtl` is the first byte of the QoS control field. */
  datatype Frame = Frame(ht: bool, dataQos: bool, ac: Ac, qosCtl: nat)

  datatype Event = Tx(frame: Frame) | Act(action: Action, tid: nat)

  predicate WfEvent(e: Event) {
    e.Act? ==> e.tid < NUM_TIDS
  }

  predicate WfTrace(es: seq<Event>) {
    forall i :: 0 <= i < |es| ==> WfEvent(es[i])
  }

  predicate WfSta(s: Sta) {
    |s.ampdu| == NUM_TIDS && 0 <= s.frameCt <= START_THRESH
  }

  /** `qc[0] & IEEE80211_QOS_CTL_TID_MASK`. */
  function Tid(f: Frame): (tid: nat)
    ensures tid < NUM_TIDS
  {
    f.qosCtl % 16
  }

  predicate Eligible(f: Frame) {
    f.ht && f.dataQos && f.ac != Vo
  }

  /** The frame is counted. */
  predicate Counts(s: Sta, e: Event)
    requires WfSta(s)
  {
    e.Tx? && Eligible(e.frame) && s.ampdu[Tid(e.frame)] == None
  }

  /** The frame makes the driver ask mac80211 for a session. */
  predicate Starts(s: Sta, e: Event)
    requires WfSta(s)
  {
    Counts(s, e) && s.frameCt >= START_THRESH
  }

  predicate IsStop(a: Action) {
    a == TxStopFlush || a == TxStopFlushCont || a == TxStopCont
  }

  function Step(s: Sta, e: Event): (s': Sta)
    requires WfSta(s) && WfEvent(e)
    ensures WfSta(s')
  {
    match e
    case Tx(f) =>
      if !Counts(s, e) then s
      else if Starts(s, e) then Sta(s.ampdu[Tid(f) := Start], 0)
      else s.(frameCt := s.frameCt + 1)
    case Act(a, tid) =>
      match a
      case TxStart => s.(ampdu := s.ampdu[tid := Start])
      case TxOperational => s.(ampdu := s.ampdu[tid := Operational])
      case TxStopFlush | TxStopFlushCont | TxStopCont => s.(ampdu := s.ampdu[tid := None])
      case RxStart | RxStop => s
  }

  /** What a frame does, told from its fields: only QoS data frames with HT that are not voice matter, and
      only those for a TID without a session; the 21st of them resets the counter and asks for one. */
  lemma FrameStep(s: Sta, f: Frame)
    requires WfSta(s)
    ensures var s', t := Step(s, Tx(f)), f.qosCtl % 16;
            if f.ht && f.dataQos && (f.ac == Vi || f.ac == Be || f.ac == Bk) && s.ampdu[t] == None
            then if s.frameCt < 20
                 then s' == Sta(s.ampdu, s.frameCt + 1) && !Starts(s, Tx(f))
                 else s' == Sta(s.ampdu[t := Start], 0) && Starts(s, Tx(f))
            else s' == s && !Starts(s, Tx(f))
  {
  }

  /** The state after the first `n` events. */
  function After(s: Sta, es: seq<Event>, n: nat): (s': Sta)
    requires WfSta(s) && WfTrace(es) && n <= |es|
    ensures WfSta(s')
  {
    if n == 0 then s else Step(After(s, es, n - 1), es[n - 1])
  }

  predicate CountsAt(s: Sta, es: seq<Event>, i: nat)
    requires WfSta(s) && WfTrace(es) && i < |es|
  {
    Counts(After(s, es, i), es[i])
  }

  predicate StartsAt(s: Sta, es: seq<Event>, i: nat)
    requires WfSta(s) && WfTrace(es) && i < |es|
  {
    Starts(After(s, es, i), es[i])
  }

  /** How many of the first `n` events are frames that are counted. */
  function Counted(s: Sta, es: seq<Event>, n: nat): nat
    requires WfSta(s) && WfTrace(es) && n <= |es|
  {
    if n == 0 then 0 else Counted(s, es, n - 1) + if CountsAt(s, es, n - 1) then 1 else 0
  }

  /** How many of the first `n` events are frames that start a session. */
  function Started(s: Sta, es: seq<Event>, n: nat): nat
    requires WfSta(s) && WfTrace(es) && n <= |es|
  {
    if n == 0 then 0 else Started(s, es, n - 1) + if StartsAt(s, es, n - 1) then 1 else 0
  }

  /** As mac80211 allocates it, filled with zeros. */
  function Fresh(): (s: Sta)
    ensures WfSta(s) && s.frameCt == 0 && forall t :: 0 <= t < NUM_TIDS ==> s.ampdu[t] == None
  {
    Sta(seq(NUM_TIDS, _ => None), 0)
  }

  /** Every 21 frames that are counted, for whatever TIDs, make one session start. */
  lemma {:induction false} Accounting(s: Sta, es: seq<Event>, n: nat)
    requires WfSta(s) && WfTrace(es) && n <= |es|
    ensures s.frameCt + Counted(s, es, n) == 21 * Started(s, es, n) + After(s, es, n).frameCt
  {
    if n > 0 {
      Accounting(s, es, n - 1);
    }
  }

  /** Exactly which frames start a session: the 21st that is counted, the 42nd, and so on. */
  lemma StartsExactly(es: seq<Event>, i: nat)
    requires WfTrace(es) && i < |es|
    ensures StartsAt(Fresh(), es, i)
       <==> CountsAt(Fresh(), es, i) && Counted(Fresh(), es, i + 1) % 21 == 0
  {
    Accounting(Fresh(), es, i);
    Accounting(Fresh(), es, i + 1);
  }

  /** The event makes TID `t` busy. */
  predicate RaisesAt(s: Sta, es: seq<Event>, i: nat, t: nat)
    requires WfSta(s) && WfTrace(es) && i < |es|
  {
    match es[i]
    case Tx(f) => StartsAt(s, es, i) && Tid(f) == t
    case Act(a, tid) => (a == TxStart || a == TxOperational) && tid == t
  }

  predicate StopsAt(es: seq<Event>, i: nat, t: nat)
    requires i < |es|
  {
    es[i].Act? && IsStop(es[i].action) && es[i].tid == t
  }

  /** A TID stays busy until it is stopped. */
  lemma {:induction false} BusyUntilStopped(s: Sta, es: seq<Event>, i: nat, n: nat, t: nat)
    requires WfSta(s) && WfTrace(es) && i < n <= |es| && t < NUM_TIDS
    requires RaisesAt(s, es, i, t)
    requires forall k :: i < k < n ==> !StopsAt(es, k, t)
    ensures After(s, es, n).ampdu[t] != None
  {
    if n > i + 1 {
      assert !StopsAt(es, n - 1, t);
      BusyUntilStopped(s, es, i, n - 1, t);
    }
  }

  ghost predicate LeftBusy(es: seq<Event>, n: nat, t: nat)
    requires WfTrace(es) && n <= |es|
  {
    exists i | 0 <= i < n :: RaisesAt(Fresh(), es, i, t) && forall k :: i < k < n ==> !StopsAt(es, k, t)
  }

  /** Exactly when a TID is busy: something has made it so and it has not been stopped since. */
  lemma {:induction false} BusyExactly(es: seq<Event>, n: nat, t: nat)
    requires WfTrace(es) && n <= |es| && t < NUM_TIDS
    ensures After(Fresh(), es, n).ampdu[t] != None <==> LeftBusy(es, n, t)
  {
    if LeftBusy(es, n, t) {
      var i :| 0 <= i < n && RaisesAt(Fresh(), es, i, t) && forall k :: i < k < n ==> !StopsAt(es, k, t);
      BusyUntilStopped(Fresh(), es, i, n, t);
    } else if n > 0 {
      BusyExactly(es, n - 1, t);
      assert !RaisesAt(Fresh(), es, n - 1, t);
    }
  }

  /** Exactly which frames are counted. */
  lemma CountsExactly(es: seq<Event>, i: nat)
    requires WfTrace(es) && i < |es|
    ensures CountsAt(Fresh(), es, i)
       <==> && es[i].Tx? && es[i].frame.ht && es[i].frame.dataQos && es[i].frame.ac != Vo
            && !LeftBusy(es, i, es[i].frame.qosCtl % 16)
  {
    if es[i].Tx? {
      BusyExactly(es, i, es[i].frame.qosCtl % 16);
    }
  }

  /** Exactly when a session is operational: mac80211 has said so last. */
  lemma {:induction false} OperationalExactly(es: seq<Event>, n: nat, t: nat)
    requires WfTrace(es) && n <= |es| && t < NUM_TIDS
    ensures After(Fresh(), es, n).ampdu[t] == Operational <==> Common.LeftSet(false, Raises(es, t), Lowers(es, t), n)
  {
    if n > 0 {
      OperationalExactly(es, n - 1, t);
      Common.LeftSetNext(false, Raises(es, t), Lowers(es, t), n - 1);
    }
  }

  /** For each event, whether it makes the session of TID `t` operational, or it starts or stops it. */
  function Raises(es: seq<Event>, t: nat): (r: seq<bool>)
    ensures |r| == |es|
  {
    seq(|es|, i requires 0 <= i < |es| => es[i] == Act(TxOperational, t))
  }

  function Lowers(es: seq<Event>, t: nat): (r: seq<bool>)
    ensures |r| == |es|
  {
    seq(|es|, i requires 0 <= i < |es| =>
      es[i] in {Act(TxStart, t), Act(TxStopFlush, t), Act(TxStopFlushCont, t), Act(TxStopCont, t)})
  }

  /** A session is asked for only while the TID is not busy, and between two requests for the same
      TID that session has been stopped. */
  lemma {:induction false} OneSessionAtATime(s: Sta, es: seq<Event>, i: nat, j: nat)
    requires WfSta(s) && WfTrace(es) && i < j < |es|
    requires StartsAt(s, es, i) && StartsAt(s, es, j) && Tid(es[i].frame) == Tid(es[j].frame)
    ensures After(s, es, j).ampdu[Tid(es[j].frame)] == None
    ensures exists k :: i < k < j && StopsAt(es, k, Tid(es[j].frame))
  {
    var t := Tid(es[j].frame);
    if forall k :: i < k < j ==> !StopsAt(es, k, t) {
      BusyUntilStopped(s, es, i, j, t);
      assert false;
    }
  }

  /** `struct wcn36xx_sta`. `requested` records the calls of `ieee80211_start_tx_ba_session`. */
  class Station {
    const ampduState: array<State>
    var nonAggFrameCt: int
    var tid: nat
    var requested: seq<nat>

    constructor ()
      ensures Shows(Fresh()) && requested == [] && fresh(ampduState)
    {
      ampduState := new State[NUM_TIDS](_ => None);
      nonAggFrameCt, tid, requested := 0, 0, [];
    }

    ghost predicate Shows(s: Sta)
      reads this, ampduState
    {
      ampduState[..] == s.ampdu && nonAggFrameCt == s.frameCt
    }

    /** `wcn36xx_tx_start_ampdu`, called for QoS data frames. */
    method TxStartAmpdu(f: Frame, ghost s: Sta)
      requires WfSta(s) && Shows(s)
      modifies this`nonAggFrameCt, this`requested, ampduState
      ensures Shows(Step(s, Tx(f)))
      ensures var tid, counted := f.qosCtl % 16, f.ht && f.dataQos && f.ac != Vo && old(ampduState[f.qosCtl % 16]) == None;
              var starts := counted && old(nonAggFrameCt) == 20;
              && requested == old(requested) + (if starts then [tid] else [])
              && nonAggFrameCt == (if starts then 0 else if counted then old(nonAggFrameCt) + 1 else old(nonAggFrameCt))
              && ampduState[..] == if starts then old(ampduState[..])[tid := Start] else old(ampduState[..])
    {
      if !f.ht || !f.dataQos || f.ac == Vo {
        return;
      }
      var tid := f.qosCtl % 16;
      if ampduState[tid] != None {
        return;
      }
      var ct := nonAggFrameCt;
      nonAggFrameCt := nonAggFrameCt + 1;
      if ct >= START_THRESH {
        ampduState[tid] := Start;
        nonAggFrameCt := 0;
        requested := requested + [tid];
      }
    }

    /** `wcn36xx_ampdu_action`. */
    method AmpduAction(a: Action, tid: nat, ghost s: Sta)
      requires WfSta(s) && Shows(s) && tid < NUM_TIDS
      modifies this`tid, ampduState
      ensures Shows(Step(s, Act(a, tid)))
      ensures this.tid == if a == RxStart then tid else old(this.tid)
      ensures ampduState[..] ==
              if a == RxStart || a == RxStop then old(ampduState[..])
              else old(ampduState[..])[tid := if a == TxStart then Start else if a == TxOperational then Operational else None]
    {
      match a
      case RxStart => this.tid := tid;
      case RxStop =>
      case TxStart => ampduState[tid] := Start;
      case TxOperational => ampduState[tid] := Operational;
      case TxStopFlush | TxStopFlushCont | TxStopCont => ampduState[tid] := None;
    }
  }
}
