/** The queue of firmware indications and the work item that drains it (smd.c).

    Every indication is queued and the work item is scheduled; scheduling a work item that is
    already pending does nothing. Each time it runs, the work item takes one indication.
 */
module IndQueue {
  import opened Common
  import opened Bytes

  /** Message types as far as `wcn36xx_smd_rsp_process` tells them apart. */
  datatype Kind = Response | TxComplInd | MissedBeaconInd | DeleteStaContextInd | Unsupported

  datatype Ind = Ind(kind: Kind, msg: seq<byte>)

  predicate IsIndication(i: Ind) {
    i.kind == TxComplInd || i.kind == MissedBeaconInd || i.kind == DeleteStaContextInd
  }

  /** `pending`: the work item is scheduled; `running`: it has been started and has not taken its
      indication yet. `handled` and `faulted` are history: what has been passed to a handler, in
      order, and whether the head of an empty list has ever been taken. */
  datatype State = State(queue: seq<Ind>, pending: bool, running: bool, handled: seq<Ind>, faulted: bool)

  /** `Arrive`: the control channel hands over a message; `memOk` tells whether both allocations
      succeed. `Start`: the work queue starts the work item, which never runs twice at a time.
      `Take`: the work function handles one indication. */
  datatype Event = Arrive(ind: Ind, memOk: bool) | Start | Take

  predicate Queued(e: Event) {
    e.Arrive? && e.memOk && IsIndication(e.ind)
  }

  function Step(s: State, e: Event): State {
    match e
    case Arrive(ind, _) =>
      if Queued(e) then s.(queue := s.queue + [ind], pending := true) else s
    case Start =>
      if s.pending && !s.running then s.(pending := false, running := true) else s
    case Take =>
      if !s.running then s
      else if s.queue == [] then s.(running := false, faulted := true)
      else s.(running := false, queue := s.queue[1..], handled := s.handled + [s.queue[0]])
  }

  function Run(s: State, es: seq<Event>): State
    decreases |es|
  {
    if es == [] then s else Run(Step(s, es[0]), es[1..])
  }

  /** After `wcn36xx_smd_open`. */
  const BOOT := State([], false, false, [], false)

  /** No work is scheduled or under way. */
  predicate Idle(s: State) {
    !s.pending && !s.running
  }

  /** The indications that events put on the queue, in order. */
  function Arrivals(es: seq<Event>): seq<Ind>
    decreases |es|
  {
    if es == [] then [] else Arrival(es[0]) + Arrivals(es[1..])
  }

  function Arrival(e: Event): seq<Ind> {
    if Queued(e) then [e.ind] else []
  }

  /** How often an indication arrives while the work item is pending already. */
  function Coalesced(s: State, es: seq<Event>): nat
    decreases |es|
  {
    if es == [] then 0
    else (if Queued(es[0]) && s.pending then 1 else 0) + Coalesced(Step(s, es[0]), es[1..])
  }

  /** Exactly which arrivals change anything: one of the three indications, if there is memory for it, goes
      to the end of the queue and makes the work item pending. */
  lemma ArrivesExactly(s: State, i: Ind, memOk: bool)
    ensures Step(s, Arrive(i, memOk)) ==
            if memOk && i.kind in {TxComplInd, MissedBeaconInd, DeleteStaContextInd}
            then State(s.queue + [i], true, s.running, s.handled, s.faulted) else s
    ensures Arrivals([Arrive(i, memOk)]) == if memOk && i.kind != Response && i.kind != Unsupported then [i] else []
  {
  }

  /** Indications for which no run of the work item is to come. */
  function Backlog(s: State): int {
    |s.queue| - One(s.pending) - One(s.running)
  }

  predicate Safe(s: State) {
    !s.faulted && Backlog(s) >= 0 && forall i :: 0 <= i < |s.queue| ==> IsIndication(s.queue[i])
  }

  /** Everything that has been put on the queue. */
  function All(s: State): seq<Ind> {
    s.handled + s.queue
  }

  lemma StepKeepsSafe(s: State, e: Event)
    requires Safe(s)
    ensures Safe(Step(s, e))
    ensures Backlog(Step(s, e)) == Backlog(s) + One(Queued(e) && s.pending)
    ensures All(Step(s, e)) == All(s) + Arrival(e)
  {
  }

  /** Every run is safe, and the backlog grows by one at every coalesced arrival and never
      shrinks. */
  lemma {:induction false} RunIsSafe(s: State, es: seq<Event>)
    requires Safe(s)
    ensures Safe(Run(s, es))
    ensures Backlog(Run(s, es)) == Backlog(s) + Coalesced(s, es)
    decreases |es|
  {
    if es != [] {
      StepKeepsSafe(s, es[0]);
      RunIsSafe(Step(s, es[0]), es[1..]);
    }
  }

  /** A run neither loses nor reorders nor invents an indication. */
  lemma {:induction false} RunKeepsOrder(s: State, es: seq<Event>)
    requires Safe(s)
    ensures All(Run(s, es)) == All(s) + Arrivals(es)
    decreases |es|
  {
    if es != [] {
      StepKeepsSafe(s, es[0]);
      RunKeepsOrder(Step(s, es[0]), es[1..]);
      Regroup(All(s), Arrival(es[0]), Arrivals(es[1..]));
    }
  }

  /** The work item never takes the head of an empty list: whenever it is about to, there is an
      indication of a kind that has a handler. */
  lemma NeverTakesFromEmptyQueue(es: seq<Event>)
    ensures var s := Run(BOOT, es);
            !s.faulted && (s.running ==> s.queue != [] && IsIndication(s.queue[0]))
  {
    RunIsSafe(BOOT, es);
  }

  /** What has been handled and what is queued is what has arrived, in order. */
  lemma HandledInOrder(es: seq<Event>)
    ensures Run(BOOT, es).handled + Run(BOOT, es).queue == Arrivals(es)
  {
    RunKeepsOrder(BOOT, es);
  }

  /** Exactly when all indications have been handled once the work item has come to rest: none of
      them arrived while the work item was pending. Otherwise just as many of the last ones stay. */
  lemma HandledExactly(es: seq<Event>)
    requires Idle(Run(BOOT, es))
    ensures var n := Coalesced(BOOT, es);
            && n <= |Arrivals(es)|
            && Run(BOOT, es).handled == Arrivals(es)[..|Arrivals(es)| - n]
            && (Run(BOOT, es).handled == Arrivals(es) <==> n == 0)
  {
    RunIsSafe(BOOT, es);
    HandledInOrder(es);
    var s := Run(BOOT, es);
    assert Arrivals(es)[..|s.handled|] == s.handled;
  }

  /** A backlog is never worked off, not even by the work that later indications cause. */
  lemma BacklogStays(es: seq<Event>, fs: seq<Event>)
    requires Idle(Run(BOOT, es)) && Idle(Run(Run(BOOT, es), fs))
    ensures |Run(Run(BOOT, es), fs).queue| >= |Run(BOOT, es).queue|
  {
    RunIsSafe(BOOT, es);
    RunIsSafe(Run(BOOT, es), fs);
  }

  /** Two indications before the work item is started are enough. */
  lemma SecondIndicationCanStay(a: Ind, b: Ind)
    requires IsIndication(a) && IsIndication(b)
    ensures var s := Run(BOOT, [Arrive(a, true), Arrive(b, true), Start, Take]);
            Idle(s) && s.handled == [a] && s.queue == [b]
  {
    var s1 := Step(BOOT, Arrive(a, true));
    var s2 := Step(s1, Arrive(b, true));
    var s3 := Step(s2, Start);
    RunFirst(BOOT, Arrive(a, true), [Arrive(b, true), Start, Take]);
    RunFirst(s1, Arrive(b, true), [Start, Take]);
    RunFirst(s2, Start, [Take]);
    RunFirst(s3, Take, []);
  }

  lemma RunFirst(s: State, e: Event, es: seq<Event>)
    ensures Run(s, [e] + es) == Run(Step(s, e), es)
  {
    assert ([e] + es)[1..] == es;
  }

  lemma {:induction false} RunLast(s: State, es: seq<Event>, e: Event)
    ensures Run(s, es + [e]) == Step(Run(s, es), e)
    decreases |es|
  {
    if es == [] {
      assert [] + [e] == [e];
    } else {
      assert (es + [e])[1..] == es[1..] + [e];
      RunLast(Step(s, es[0]), es[1..], e);
    }
  }

  /** The messages that have been delivered. */
  function Delivered(es: seq<Event>): seq<Ind>
    decreases |es|
  {
    if es == [] then [] else Delivery(es[0]) + Delivered(es[1..])
  }

  function Delivery(e: Event): seq<Ind> {
    if e.Arrive? then [e.ind] else []
  }

  lemma {:induction false} DeliveredLast(es: seq<Event>, e: Event)
    ensures Delivered(es + [e]) == Delivered(es) + Delivery(e)
    decreases |es|
  {
    if es == [] {
      assert [] + [e] == [e];
    } else {
      assert (es + [e])[1..] == es[1..] + [e];
      DeliveredLast(es[1..], e);
    }
  }

  /** The driver's fields. The handlers only read the message they are given, so that a call of one
      of them is recorded in `handled`. */
  class Indications {
    const halBuf: array<byte>
    var halRspLen: nat
    var halRspCompl: nat
    var halIndQueue: seq<Ind>
    var workPending: bool
    var workRunning: bool
    var handled: seq<Ind>

    /** `wcn36xx_smd_open`. */
    constructor ()
      ensures Shows(BOOT) && halBuf.Length == HAL_BUF_SIZE && fresh(halBuf)
    {
      halBuf := new byte[HAL_BUF_SIZE];
      halRspLen, halRspCompl, halIndQueue, handled := 0, 0, [], [];
      workPending, workRunning := false, false;
    }

    ghost predicate Shows(s: State)
      reads this
    {
      && halIndQueue == s.queue && handled == s.handled && !s.faulted
      && workPending == s.pending && workRunning == s.running
    }

    /** `wcn36xx_smd_rsp_process`. A response overwrites the message buffer and completes the wait; if
        it is longer than the buffer, it overwrites more than that. An indication does not touch
        the buffer. */
    method RspProcess(kind: Kind, buf: seq<byte>, memOk: bool, ghost s: State) returns (overrun: bool)
      requires Shows(s) && halBuf.Length == HAL_BUF_SIZE
      modifies this, halBuf
      ensures overrun <==> kind == Response && |buf| > HAL_BUF_SIZE
      ensures Shows(Step(s, Arrive(Ind(kind, buf), memOk)))
      ensures var queued := memOk && kind in {TxComplInd, MissedBeaconInd, DeleteStaContextInd};
              && halIndQueue == old(halIndQueue) + (if queued then [Ind(kind, buf)] else [])
              && workPending == (old(workPending) || queued)
      ensures if kind != Response
              then halBuf[..] == old(halBuf[..]) && halRspLen == old(halRspLen)
                   && halRspCompl == old(halRspCompl)
              else !overrun ==>
                halBuf[..] == buf + old(halBuf[|buf|..]) && halRspLen == |buf|
                && halRspCompl == old(halRspCompl) + 1
    {
      overrun := false;
      match kind
      case Response =>
        if |buf| > halBuf.Length {
          return true;
        }
        Memcpy(halBuf, 0, buf);
        halRspLen := |buf|;
        halRspCompl := halRspCompl + 1;
      case TxComplInd | MissedBeaconInd | DeleteStaContextInd =>
        if memOk {
          halIndQueue := halIndQueue + [Ind(kind, buf)];
          QueueWork();
        }
      case Unsupported =>
    }

    /** `queue_work`. */
    method QueueWork()
      modifies this`workPending
      ensures workPending
    {
      if !workPending {
        workPending := true;
      }
    }

    /** The work queue starts the work item if it can. */
    method StartWork(ghost s: State)
      requires Shows(s)
      modifies this`workPending, this`workRunning
      ensures Shows(Step(s, Start))
    {
      if workPending && !workRunning {
        workPending, workRunning := false, true;
      }
    }

    /** `wcn36xx_ind_smd_work`. */
    method IndSmdWork(ghost s: State)
      requires Shows(s) && Safe(s) && workRunning
      modifies this
      ensures Shows(Step(s, Take))
      ensures old(halIndQueue) == [old(halIndQueue)[0]] + halIndQueue && handled == old(handled) + [old(halIndQueue)[0]]
      ensures halRspLen == old(halRspLen) && halRspCompl == old(halRspCompl)
    {
      var ind := halIndQueue[0];
      match ind.kind {
        case TxComplInd | MissedBeaconInd | DeleteStaContextInd =>
          handled := handled + [ind];
        case _ =>
          assert false;
      }
      halIndQueue := halIndQueue[1..];
      workRunning := false;
    }

    /** The control channel delivers `messages`, of any size, while the work queue does its part, for
        up to `steps` steps in whichever order. Unless a response overruns the message buffer, the
        code is a run, no list head is taken in vain, and nothing is lost or changes places. */
    method Serve(messages: seq<Ind>, steps: nat, ghost s: State)
        returns (ghost s': State, ghost es: seq<Event>, rest: seq<Ind>, overrun: bool)
      requires Shows(s) && Safe(s) && halBuf.Length == HAL_BUF_SIZE
      modifies this, halBuf
      ensures overrun ==> exists i: Ind :: i in Delivered(es) && i.kind == Response && |i.msg| > HAL_BUF_SIZE
      ensures Shows(s') && Safe(s') && s' == Run(s, es) && messages == Delivered(es) + rest
      ensures handled + halIndQueue == old(handled + halIndQueue) + Arrivals(es)
    {
      s', es, rest, overrun := s, [], messages, false;
      var k := 0;
      while k < steps && !overrun
        invariant Shows(s') && Safe(s') && s' == Run(s, es)
        invariant messages == Delivered(es) + rest
        invariant overrun ==> exists i: Ind :: i in Delivered(es) && i.kind == Response && |i.msg| > HAL_BUF_SIZE
      {
        ghost var e;
        rest, e, overrun := ServeOne(rest, s');
        RunLast(s, es, e);
        DeliveredLast(es, e);
        Regroup(Delivered(es), Delivery(e), rest);
        StepKeepsSafe(s', e);
        s', es := Step(s', e), es + [e];
        k := k + 1;
      }
      RunKeepsOrder(s, es);
    }

    /** The next thing that happens: a message arrives, or the work item is started, or it runs. */
    method ServeOne(messages: seq<Ind>, ghost s: State) returns (rest: seq<Ind>, ghost e: Event, overrun: bool)
      requires Shows(s) && Safe(s) && halBuf.Length == HAL_BUF_SIZE
      modifies this, halBuf
      ensures Shows(Step(s, e))
      ensures messages == Delivery(e) + rest
      ensures overrun ==> e.Arrive? && e.ind.kind == Response && |e.ind.msg| > HAL_BUF_SIZE
    {
      rest, overrun := messages, false;
      var arrives: bool := *;
      if arrives && messages != [] {
        var memOk: bool := *;
        e := Arrive(messages[0], memOk);
        overrun := RspProcess(messages[0].kind, messages[0].msg, memOk, s);
        rest := messages[1..];
      } else if workRunning {
        e := Take;
        IndSmdWork(s);
      } else {
        e := Start;
        StartWork(s);
      }
    }
  }
}
