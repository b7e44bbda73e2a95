/** The request/response handshake with the firmware (smd.c) as a protocol.

    All callers share one message buffer, for the request and for the response, and one completion.
    A caller holds `hal_mutex` from preparing its request to reading the response. The firmware
    answers the requests it has received one after the other.
 */
module SmdHandshake {
  import opened Common

  /** Requests are numbered in the order in which the mutex is taken. */
  datatype Msg = Req(n: nat) | Rsp(n: nat, payload: seq<byte>)

  /** Where the holder of the mutex is; `Ready` is behind `init_completion`. */
  datatype Phase = Locked | Prepared | Ready | Waiting | Reading | Finished

  datatype Turn = Nobody | Holder(n: nat, phase: Phase)

  /** What a caller found in the buffer, and `hal_rsp_len`, when its wait had succeeded. */
  datatype Parsed = Parsed(n: nat, buf: Msg, len: nat)

  /** `inbox` holds the requests that the firmware has not answered, `wire` the responses that have
      not been handed to the driver, `done` is the counter of the completion. */
  datatype Smd = Smd(turn: Turn, buf: Msg, rspLen: nat, done: nat, inbox: seq<nat>, wire: seq<Msg>,
                     next: nat, parsed: seq<Parsed>)

  datatype Event =
    | Lock | Prepare | InitCompletion | Send(ok: bool) | Wake | Timeout | Read | Unlock
    | Answer(payload: seq<byte>)
    | Deliver

  /** An event that is not possible in a state leaves it unchanged. Something that is not a request
      is ignored by the firmware. */
  function Step(s: Smd, e: Event): Smd {
    match e
    case Lock =>
      if s.turn != Nobody then s else s.(turn := Holder(s.next, Locked), next := s.next + 1)
    case Prepare =>
      if !At(s, Locked) then s else s.(buf := Req(s.turn.n), turn := s.turn.(phase := Prepared))
    case InitCompletion =>
      if !At(s, Prepared) then s else s.(done := 0, turn := s.turn.(phase := Ready))
    case Send(ok) =>
      if !At(s, Ready) then s
      else if !ok then s.(turn := s.turn.(phase := Finished))
      else s.(inbox := if s.buf.Req? then s.inbox + [s.buf.n] else s.inbox,
              turn := s.turn.(phase := Waiting))
    case Wake =>
      if !At(s, Waiting) || s.done == 0 then s
      else s.(done := s.done - 1, turn := s.turn.(phase := Reading))
    case Timeout =>
      if !At(s, Waiting) || s.done != 0 then s else s.(turn := s.turn.(phase := Finished))
    case Read =>
      if !At(s, Reading) then s
      else s.(parsed := s.parsed + [Parsed(s.turn.n, s.buf, s.rspLen)], turn := s.turn.(phase := Finished))
    case Unlock =>
      if !At(s, Finished) then s else s.(turn := Nobody)
    case Answer(payload) =>
      if s.inbox == [] then s
      else s.(inbox := s.inbox[1..], wire := s.wire + [Rsp(s.inbox[0], payload)])
    case Deliver =>
      if s.wire == [] then s
      else s.(wire := s.wire[1..], buf := s.wire[0], rspLen := PayloadLen(s.wire[0]), done := s.done + 1)
  }

  predicate At(s: Smd, p: Phase) {
    s.turn.Holder? && s.turn.phase == p
  }

  function PayloadLen(m: Msg): nat {
    if m.Rsp? then |m.payload| else 0
  }

  function Run(s: Smd, es: seq<Event>): Smd
    decreases |es|
  {
    if es == [] then s else Run(Step(s, es[0]), es[1..])
  }

  ghost predicate Boot(s: Smd) {
    s.turn == Nobody && s.inbox == [] && s.wire == [] && s.done == 0 && s.next == 0 && s.parsed == []
  }

  /** The caller has read the response to its own request. */
  predicate Own(p: Parsed) {
    p.buf.Rsp? && p.buf.n == p.n && p.len == |p.buf.payload|
  }

  predicate HasResponse(s: Smd, n: nat) {
    s.buf.Rsp? && s.buf.n == n && s.rspLen == |s.buf.payload|
  }

  predicate Quiet(s: Smd) {
    s.inbox == [] && s.wire == []
  }

  /** The request `n` is with the firmware, its response is on the way, or it has arrived. */
  predicate InTransit(s: Smd, n: nat) {
    || (s.inbox == [n] && s.wire == [] && s.done == 0)
    || (s.inbox == [] && |s.wire| == 1 && s.wire[0].Rsp? && s.wire[0].n == n && s.done == 0)
    || (Quiet(s) && s.done == 1 && HasResponse(s, n))
  }

  /* ---- Without timeouts ---- */

  ghost predicate Inv(s: Smd) {
    && (forall i :: 0 <= i < |s.parsed| ==> Own(s.parsed[i]))
    && match s.turn
       case Nobody => Quiet(s)
       case Holder(n, Locked) => Quiet(s)
       case Holder(n, Prepared) => Quiet(s) && s.buf == Req(n)
       case Holder(n, Ready) => Quiet(s) && s.buf == Req(n) && s.done == 0
       case Holder(n, Waiting) => InTransit(s, n)
       case Holder(n, Reading) => Quiet(s) && HasResponse(s, n)
       case Holder(n, Finished) => Quiet(s)
  }

  lemma StepKeepsInv(s: Smd, e: Event)
    requires Inv(s) && e != Timeout
    ensures Inv(Step(s, e))
  {
  }

  lemma {:induction false} RunKeepsInv(s: Smd, es: seq<Event>)
    requires Inv(s) && Timeout !in es
    ensures Inv(Run(s, es))
    decreases |es|
  {
    if es != [] {
      StepKeepsInv(s, es[0]);
      RunKeepsInv(Step(s, es[0]), es[1..]);
    }
  }

  /** If no wait times out, at most one message is outstanding at any time, and every caller reads
      the response to its own request with its length, whenever that response arrives. */
  lemma EveryCallerReadsItsOwnResponse(s: Smd, es: seq<Event>)
    requires Boot(s) && Timeout !in es
    ensures var t := Run(s, es);
            && |t.inbox| + |t.wire| <= 1
            && forall i :: 0 <= i < |t.parsed| ==> Own(t.parsed[i])
  {
    RunKeepsInv(s, es);
  }

  /** A wait that has a response to take does not time out, and one that has none does not return. */
  lemma WaitEndsExactly(s: Smd)
    requires At(s, Waiting)
    ensures At(Step(s, Wake), Reading) <==> s.done > 0
    ensures At(Step(s, Timeout), Finished) <==> s.done == 0
    ensures s.done > 0 ==> Step(s, Wake).done == s.done - 1
  {
  }

  /* ---- With timeouts ---- */

  /** What holds in every run: numbers are given out in order, and everything under way belongs to
      a request that has been sent. */
  ghost predicate Numbered(s: Smd) {
    && (s.turn.Holder? ==> s.turn.n + 1 == s.next)
    && (forall i :: 0 <= i < |s.inbox| ==> s.inbox[i] < s.next && !Unsent(s, s.inbox[i]))
    && (forall i :: 0 <= i < |s.wire| ==> s.wire[i].Rsp? && s.wire[i].n < s.next && !Unsent(s, s.wire[i].n))
    && (At(s, Prepared) || At(s, Ready) ==>
          if s.buf.Req? then s.buf.n == s.turn.n else s.buf.n != s.turn.n)
    && (At(s, Ready) && s.done > 0 ==> s.buf.Rsp?)
    && (forall i :: 0 <= i < |s.parsed| ==> s.parsed[i].n < s.next)
    && (s.turn.Holder? && s.turn.phase != Finished ==>
          forall i :: 0 <= i < |s.parsed| ==> s.parsed[i].n != s.turn.n)
  }

  /** The holder has not sent its request yet. */
  predicate Unsent(s: Smd, n: nat) {
    s.turn.Holder? && s.turn.n == n && (s.turn.phase == Locked || s.turn.phase == Prepared || s.turn.phase == Ready)
  }

  ghost predicate OwnIfParsed(s: Smd, n: nat) {
    forall i :: 0 <= i < |s.parsed| && s.parsed[i].n == n ==> Own(s.parsed[i])
  }

  /** Request `n` on its way, nothing else being outstanding when it was made; afterwards it is
      never made again. */
  ghost predicate Alone(s: Smd, n: nat) {
    && n < s.next && OwnIfParsed(s, n)
    && (s.turn.Holder? && s.turn.n <= n ==>
          && s.turn.n == n
          && match s.turn.phase
             case Ready => Quiet(s) && s.done == 0 && (s.buf.Req? ==> s.buf.n == n)
             case Waiting => InTransit(s, n) || (Quiet(s) && s.done == 0)
             case Reading => Quiet(s) && HasResponse(s, n)
             case Finished => true
             case _ => false)
  }

  lemma StepKeepsAlone(s: Smd, e: Event, n: nat)
    requires Alone(s, n)
    ensures Alone(Step(s, e), n)
  {
  }

  lemma {:induction false} RunKeepsAlone(s: Smd, es: seq<Event>, n: nat)
    requires Alone(s, n)
    ensures Alone(Run(s, es), n)
    decreases |es|
  {
    if es != [] {
      StepKeepsAlone(s, es[0], n);
      RunKeepsAlone(Step(s, es[0]), es[1..], n);
    }
  }

  lemma StepKeepsNumbered(s: Smd, e: Event)
    requires Numbered(s)
    ensures Numbered(Step(s, e))
  {
  }

  lemma {:induction false} RunKeepsNumbered(s: Smd, es: seq<Event>)
    requires Numbered(s)
    ensures Numbered(Run(s, es))
    decreases |es|
  {
    if es != [] {
      StepKeepsNumbered(s, es[0]);
      RunKeepsNumbered(Step(s, es[0]), es[1..]);
    }
  }

  /** Something that an earlier, timed-out request has left behind: an answer still to come, or one
      that has arrived after `init_completion`. */
  predicate LeftBehind(s: Smd) {
    !Quiet(s) || s.done > 0
  }

  /** Exactly when a caller that has passed `init_completion` is sure to read its own response or
      none, whatever happens afterwards: nothing is left behind by an earlier request. Until then
      this can be told from the state, and timeouts are what leaves something behind. */
  lemma OwnResponseExactly(s: Smd, n: nat)
    requires Numbered(s) && At(s, Ready) && s.turn.n == n
    ensures (forall es :: OwnIfParsed(Run(s, es), n)) <==> !LeftBehind(s)
  {
    if LeftBehind(s) {
      var es := WrongResponse(s, n);
      assert !OwnIfParsed(Run(s, es), n);
    } else {
      assert Alone(s, n);
      forall es ensures OwnIfParsed(Run(s, es), n) {
        RunKeepsAlone(s, es, n);
      }
    }
  }

  /** A run in which the caller reads what has been left behind. */
  lemma WrongResponse(s: Smd, n: nat) returns (es: seq<Event>)
    requires Numbered(s) && At(s, Ready) && s.turn.n == n && LeftBehind(s)
    ensures !OwnIfParsed(Run(s, es), n)
  {
    var t := Step(s, Send(true));
    if s.done > 0 {
      ReadsWrong(t, n);
      es := [Send(true), Wake, Read];
      RunFirst(s, Send(true), [Wake, Read]);
    } else if s.wire != [] {
      var u := Step(t, Deliver);
      ReadsWrong(u, n);
      es := [Send(true), Deliver, Wake, Read];
      RunFirst(s, Send(true), [Deliver, Wake, Read]);
      RunFirst(t, Deliver, [Wake, Read]);
    } else {
      var u := Step(t, Answer([]));
      assert t.inbox[0] == s.inbox[0];
      var v := Step(u, Deliver);
      ReadsWrong(v, n);
      es := [Send(true), Answer([]), Deliver, Wake, Read];
      RunFirst(s, Send(true), [Answer([]), Deliver, Wake, Read]);
      RunFirst(t, Answer([]), [Deliver, Wake, Read]);
      RunFirst(u, Deliver, [Wake, Read]);
    }
  }

  lemma ReadsWrong(s: Smd, n: nat)
    requires At(s, Waiting) && s.turn.n == n && s.done > 0 && s.buf.Rsp? && s.buf.n != n
    ensures !OwnIfParsed(Run(s, [Wake, Read]), n)
  {
    RunFirst(s, Wake, [Read]);
    RunFirst(Step(s, Wake), Read, []);
    var t := Run(s, [Wake, Read]);
    assert t.parsed[|s.parsed|] == Parsed(n, s.buf, s.rspLen);
  }

  lemma RunFirst(s: Smd, e: Event, es: seq<Event>)
    ensures Run(s, [e] + es) == Run(Step(s, e), es)
  {
    assert ([e] + es)[1..] == es;
  }

  lemma {:induction false} RunConcat(s: Smd, es: seq<Event>, fs: seq<Event>)
    ensures Run(s, es + fs) == Run(Run(s, es), fs)
    decreases |es|
  {
    if es == [] {
      assert es + fs == fs;
    } else {
      assert (es + fs)[1..] == es[1..] + fs;
      RunConcat(Step(s, es[0]), es[1..], fs);
    }
  }

  lemma RunSnoc(s: Smd, es: seq<Event>, e: Event)
    ensures Run(s, es + [e]) == Step(Run(s, es), e)
  {
    RunConcat(s, es, [e]);
    RunFirst(Run(s, es), e, []);
    assert [e] + [] == [e];
  }

  const UNANSWERED := [Lock, Prepare, InitCompletion, Send(true), Timeout, Unlock]
  const NEXT_CALLER := [Lock, Prepare, InitCompletion]

  lemma Unanswered(s: Smd)
    requires Boot(s)
    ensures var t := Run(s, UNANSWERED); t.turn == Nobody && t.inbox == [0]
  {
    var es := UNANSWERED;
    RunFirst(s, Lock, es[1..]);
    var s1 := Step(s, Lock);
    RunFirst(s1, Prepare, es[2..]);
    var s2 := Step(s1, Prepare);
    RunFirst(s2, InitCompletion, es[3..]);
    var s3 := Step(s2, InitCompletion);
    RunFirst(s3, Send(true), es[4..]);
    var s4 := Step(s3, Send(true));
    RunFirst(s4, Timeout, es[5..]);
    RunFirst(Step(s4, Timeout), Unlock, []);
  }

  lemma NextCaller(s: Smd)
    requires s.turn == Nobody
    ensures At(Run(s, NEXT_CALLER), Ready) && Run(s, NEXT_CALLER).inbox == s.inbox
  {
    var s1 := Step(s, Lock);
    RunFirst(s, Lock, NEXT_CALLER[1..]);
    var s2 := Step(s1, Prepare);
    RunFirst(s1, Prepare, NEXT_CALLER[2..]);
    RunFirst(s2, InitCompletion, []);
  }

  /** A caller can find something left behind: here the answer to a timed-out request is still to
      come when the next caller is about to send. */
  lemma TimeoutLeavesResponseBehind(s: Smd)
    requires Boot(s)
    ensures var t := Run(s, UNANSWERED + NEXT_CALLER); Numbered(t) && At(t, Ready) && LeftBehind(t)
  {
    Unanswered(s);
    NextCaller(Run(s, UNANSWERED));
    RunConcat(s, UNANSWERED, NEXT_CALLER);
    RunKeepsNumbered(s, UNANSWERED + NEXT_CALLER);
  }

  /* ---- The driver's code ---- */

  predicate FromOutside(e: Event) {
    e.Answer? || e.Deliver?
  }

  /** The fields that requests and responses share, with the control channel to the firmware. */
  class Mailbox {
    var halBuf: Msg
    var halRspLen: nat
    var halRspCompl: nat
    var inbox: seq<nat>
    var wire: seq<Msg>

    constructor ()
      ensures halRspCompl == 0 && inbox == [] && wire == []
    {
      halBuf, halRspLen, halRspCompl, inbox, wire := Req(0), 0, 0, [], [];
    }

    ghost predicate Shows(s: Smd)
      reads this
    {
      halBuf == s.buf && halRspLen == s.rspLen && halRspCompl == s.done && inbox == s.inbox && wire == s.wire
    }

    /** `wcn36xx_smd_rsp_process` for a response, called by the control channel. */
    method RspProcess(ghost s: Smd)
      requires Shows(s) && wire != []
      modifies this
      ensures Shows(Step(s, Deliver))
      ensures old(wire) == [halBuf] + wire && inbox == old(inbox) && halRspCompl == old(halRspCompl) + 1
      ensures halBuf.Rsp? ==> halRspLen == |halBuf.payload|
    {
      halBuf, wire := wire[0], wire[1..];
      halRspLen := if halBuf.Rsp? then |halBuf.payload| else 0;
      halRspCompl := halRspCompl + 1;
    }

    /** The firmware answers its oldest request. */
    method FirmwareAnswers(payload: seq<byte>, ghost s: Smd)
      requires Shows(s) && inbox != []
      modifies this`inbox, this`wire
      ensures Shows(Step(s, Answer(payload)))
      ensures old(inbox) == [old(inbox)[0]] + inbox && wire == old(wire) + [Rsp(old(inbox)[0], payload)]
    {
      inbox, wire := inbox[1..], wire + [Rsp(inbox[0], payload)];
    }

    /** The firmware and the control channel go on for a while. */
    method Elsewhere(ghost s: Smd) returns (ghost s': Smd, ghost es: seq<Event>)
      requires Shows(s)
      modifies this
      ensures Shows(s') && s' == Run(s, es) && s'.turn == s.turn && s'.parsed == s.parsed
      ensures forall e :: e in es ==> FromOutside(e)
    {
      s', es := s, [];
      var n: int := *;
      var i := 0;
      while i < n
        invariant Shows(s') && s' == Run(s, es) && s'.turn == s.turn && s'.parsed == s.parsed
        invariant forall e :: e in es ==> FromOutside(e)
      {
        var payload: seq<byte> := *;
        ghost var e := if inbox != [] then Answer(payload) else Deliver;
        if inbox != [] {
          FirmwareAnswers(payload, s');
        } else if wire != [] {
          RspProcess(s');
        }
        RunSnoc(s, es, e);
        s', es := Step(s', e), es + [e];
        i := i + 1;
      }
    }

    /** `wcn36xx_smd_send_and_wait`, with the firmware and the control channel running between any
        two of its steps. `txRet` is what sending returns. */
    method SendAndWait(txRet: int, ghost s: Smd) returns (ret: int, ghost s': Smd, ghost es: seq<Event>)
      requires Shows(s) && At(s, Prepared)
      modifies this
      ensures Shows(s') && s' == Run(s, es) && s'.parsed == s.parsed && s'.turn.Holder? && s'.turn.n == s.turn.n
      ensures At(s', if ret == 0 then Reading else Finished)
      ensures if txRet != 0 then ret == txRet else ret == 0 || ret == -ETIME
      ensures Timeout in es <==> txRet == 0 && ret == -ETIME
      ensures Send(true) in es <==> txRet == 0
    {
      halRspCompl := 0;
      s', es := Step(s, InitCompletion), [InitCompletion];
      RunSnoc(s, [], InitCompletion);
      ghost var es1;
      s', es1 := Elsewhere(s');
      RunConcat(s, es, es1);
      es := es + es1;
      RunSnoc(s, es, Send(txRet == 0));
      s', es := Step(s', Send(txRet == 0)), es + [Send(txRet == 0)];
      if txRet != 0 {
        return txRet, s', es;
      }
      inbox := if halBuf.Req? then inbox + [halBuf.n] else inbox;
      ret, s', es1 := WaitForCompletion(s');
      RunConcat(s, es, es1);
      es := es + es1;
    }

    /** `wait_for_completion_timeout`, and the check of its result. */
    method WaitForCompletion(ghost s: Smd) returns (ret: int, ghost s': Smd, ghost es: seq<Event>)
      requires Shows(s) && At(s, Waiting)
      modifies this
      ensures Shows(s') && s' == Run(s, es) && s'.parsed == s.parsed && s'.turn.Holder? && s'.turn.n == s.turn.n
      ensures At(s', if ret == 0 then Reading else Finished)
      ensures ret == 0 || ret == -ETIME
      ensures (Timeout in es <==> ret == -ETIME) && Send(true) !in es
    {
      s', es := Elsewhere(s);
      ghost var e := if halRspCompl > 0 then Wake else Timeout;
      if halRspCompl > 0 {
        halRspCompl := halRspCompl - 1;
        ret := 0;
      } else {
        ret := -ETIME;
      }
      RunSnoc(s, es, e);
      s', es := Step(s', e), es + [e];
    }

    /** What every request function does under `hal_mutex`: it fills in the request, sends it,
        waits, and reads the response, which is the response to this very request. A request
        that does not time out leaves everything ready for the next one. */
    method Request(n: nat, txRet: int, ghost s: Smd)
        returns (ret: int, buf: Msg, len: nat, ghost s': Smd, ghost es: seq<Event>)
      requires Inv(s) && Shows(s) && s.turn == Nobody && n == s.next
      modifies this
      ensures Shows(s') && s' == Run(s, es) && s'.turn == Nobody
      ensures ret == 0 ==> Own(Parsed(n, buf, len)) && s'.parsed == s.parsed + [Parsed(n, buf, len)]
      ensures ret != 0 ==> s'.parsed == s.parsed
      ensures ret != -ETIME ==> Inv(s')
    {
      halBuf := Req(n);
      s', es := Step(Step(s, Lock), Prepare), [Lock, Prepare];
      RunSnoc(s, [], Lock);
      RunSnoc(s, [Lock], Prepare);
      ghost var es1, es2;
      ret, s', es1 := SendAndWait(txRet, s');
      RunConcat(s, es, es1);
      es := es + es1;
      if ret != -ETIME {
        RunKeepsInv(s, es);
      }
      buf, len, s', es2 := Finish(ret, s');
      RunConcat(s, es, es2);
      es := es + es2;
      if ret != -ETIME {
        RunKeepsInv(s, es);
      }
    }

    /** The response is read if there is one, and the mutex is given back. */
    method Finish(ret: int, ghost s: Smd)
        returns (buf: Msg, len: nat, ghost s': Smd, ghost es: seq<Event>)
      requires Shows(s) && At(s, if ret == 0 then Reading else Finished) && (ret == 0 ==> Inv(s))
      modifies this
      ensures Shows(s') && s' == Run(s, es) && s'.turn == Nobody && Timeout !in es
      ensures ret == 0 ==> var p := Parsed(s.turn.n, buf, len); Own(p) && s'.parsed == s.parsed + [p]
      ensures ret != 0 ==> s'.parsed == s.parsed
    {
      s', es := Elsewhere(s);
      buf, len := halBuf, halRspLen;
      if ret == 0 {
        RunKeepsInv(s, es);
        RunSnoc(s, es, Read);
        s', es := Step(s', Read), es + [Read];
      }
      RunSnoc(s, es, Unlock);
      s', es := Step(s', Unlock), es + [Unlock];
    }
  }
}
