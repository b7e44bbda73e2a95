/** The download of the NV image to the firmware (smd.c, hal.h).

    The image is cut into fragments by a loop whose offset is a 16-bit number. The spec is a
    function of what happens to each message; the method fills the message buffer in place.
 */
module NvDownload {
  import opened Common
  import opened Bytes

  const FRAGMENT_SIZE := 3072
  const REQ_SIZE := 16
  const DOWNLOAD_NV_REQ: u16 := 55

  /** What happens to a message: it cannot be sent, no response comes in time, or a response. */
  datatype Outcome = TxFails(error: int) | TimesOut | Answers(rsp: seq<byte>)

  predicate WfOutcome(o: Outcome) {
    match o
    case TxFails(error) => error != 0
    case TimesOut => true
    case Answers(_) => true
  }

  /** `Unfinished` when the loop would go on to send another message; `Overrun` when something would
      be copied beyond the end of the message buffer. */
  datatype Result = Done | Failed(error: int) | Unfinished | Overrun

  /** `struct wcn36xx_hal_nv_img_download_req_msg` with the fragment behind it. */
  datatype Msg = Msg(len: u32, fragNumber: u16, lastFragment: u16, body: seq<byte>)

  predicate WfImage(image: seq<byte>) {
    4 <= |image| < 0x8000_0000
  }

  /** `fm_offset` in iteration `k`: the addition wraps at 16 bits. */
  function Offset(k: nat): u16 {
    if k == 0 then 0 else (Offset(k - 1) + FRAGMENT_SIZE) % 0x1_0000
  }

  /** `frag_number` in iteration `k`, a 16-bit counter. */
  function FragNumber(k: nat): u16 {
    if k == 0 then 0 else (FragNumber(k - 1) + 1) % 0x1_0000
  }

  lemma {:induction false} FragNumberBeforeWrap(k: nat)
    requires k < 0x1_0000
    ensures FragNumber(k) == k
  {
    if k > 0 {
      FragNumberBeforeWrap(k - 1);
    }
  }

  /** `fw_bytes_left` in iteration `k`. */
  function Left(image: seq<byte>, k: nat): int {
    |image| - Offset(k) - 4
  }

  predicate IsLast(image: seq<byte>, k: nat) {
    Left(image, k) <= FRAGMENT_SIZE
  }

  /** An unsigned word returned as an `int`. */
  function AsInt(n: u32): int {
    if n < 0x8000_0000 then n else n - 0x1_0000_0000
  }

  /** `wcn36xx_smd_rsp_status_check`. */
  function StatusOf(rsp: seq<byte>): int {
    if |rsp| < 12 then -EIO else AsInt(GetU32(rsp, 8))
  }

  /** Up to and including the first last fragment, the fragments lie inside the image. */
  predicate Reached(image: seq<byte>, k: nat) {
    forall j :: 0 <= j < k ==> !IsLast(image, j)
  }

  /** The offset only ever takes multiples of 1024. */
  lemma {:induction false} OffsetsAreCoarse(k: nat)
    ensures Offset(k) % 1024 == 0 && Offset(k) <= 64512
  {
    if k > 0 {
      OffsetsAreCoarse(k - 1);
    }
  }

  lemma {:induction false} OffsetsBeforeWrap(k: nat)
    requires k <= 21
    ensures Offset(k) == FRAGMENT_SIZE * k
  {
    if k > 0 {
      OffsetsBeforeWrap(k - 1);
    }
  }

  /** An iteration that is reached has a non-negative number of bytes left to send. */
  lemma ReachedHasBytes(image: seq<byte>, k: nat)
    requires WfImage(image) && Reached(image, k)
    ensures 0 <= Left(image, k)
  {
    if k > 0 {
      OffsetsAreCoarse(k - 1);
      assert !IsLast(image, k - 1);
      assert Offset(k) <= Offset(k - 1) + FRAGMENT_SIZE;
    }
  }

  function Fragment(image: seq<byte>, k: nat): (m: Msg)
    requires WfImage(image) && Reached(image, k)
  {
    ReachedHasBytes(image, k);
    var off: nat := 4 + Offset(k);
    if IsLast(image, k) then
      Msg(REQ_SIZE + Left(image, k), FragNumber(k), 1, image[off..])
    else
      Msg(REQ_SIZE + FRAGMENT_SIZE, FragNumber(k), 0, image[off..off + FRAGMENT_SIZE])
  }

  /** A response that does not fit the message buffer. Its length is not checked. */
  predicate TooLong(o: Outcome) {
    o.Answers? && |o.rsp| > HAL_BUF_SIZE
  }

  /** How iteration `k` ends, given what happens to its message. */
  function StepResult(image: seq<byte>, o: Outcome, k: nat): (r: Result)
    ensures r == Overrun <==> TooLong(o)
  {
    match o
    case TxFails(error) => Failed(error)
    case TimesOut => Failed(-ETIME)
    case Answers(rsp) =>
      if |rsp| > HAL_BUF_SIZE then Overrun
      else if StatusOf(rsp) != 0 then Failed(StatusOf(rsp))
      else if IsLast(image, k) then Done
      else Unfinished
  }

  /** What iteration `k` sends. */
  function StepSends(image: seq<byte>, o: Outcome, k: nat): seq<Msg>
    requires WfImage(image) && Reached(image, k)
  {
    if o.TxFails? then [] else [Fragment(image, k)]
  }

  /** What `wcn36xx_smd_load_nv` sends from iteration `k` on, and its result. */
  function Download(image: seq<byte>, os: seq<Outcome>, k: nat): (res: (seq<Msg>, Result))
    requires WfImage(image) && Reached(image, k)
    decreases |os|
  {
    if os == [] then ([], Unfinished)
    else
      var r := StepResult(image, os[0], k);
      if r != Unfinished then (StepSends(image, os[0], k), r)
      else
        var (ms, r') := Download(image, os[1..], k + 1);
        (StepSends(image, os[0], k) + ms, r')
  }

  /** The bytes on the wire. */
  function Encode(m: Msg): (s: seq<byte>)
    requires |m.body| < 0x1_0000_0000
    ensures |s| == REQ_SIZE + |m.body|
  {
    ReqHeader(m.len, m.fragNumber, m.lastFragment, |m.body|) + m.body
  }

  function ReqHeader(len: u32, fragNumber: u16, lastFragment: u16, size: u32): (s: seq<byte>)
    ensures |s| == REQ_SIZE
  {
    U16(DOWNLOAD_NV_REQ) + U16(0) + U32(len) + U16(fragNumber) + U16(lastFragment) + U32(size)
  }

  /* ---- When does the loop end? ---- */

  /** A run in which the firmware accepts every fragment. */
  ghost predicate AllAccepted(os: seq<Outcome>) {
    forall i :: 0 <= i < |os| ==> os[i].Answers? && !TooLong(os[i]) && StatusOf(os[i].rsp) == 0
  }

  lemma {:induction false} AcceptedUntilLast(image: seq<byte>, os: seq<Outcome>, k: nat, last: nat)
    requires WfImage(image) && AllAccepted(os) && Reached(image, last) && IsLast(image, last)
    requires k <= last
    ensures Reached(image, k)
    ensures Download(image, os, k).1 == if last - k < |os| then Done else Unfinished
    decreases last - k
  {
    if os != [] && k < last {
      AcceptedUntilLast(image, os[1..], k + 1, last);
    }
  }

  lemma {:induction false} NeverLastNeverDone(image: seq<byte>, os: seq<Outcome>, k: nat)
    requires WfImage(image) && AllAccepted(os) && (forall j :: !IsLast(image, j))
    ensures Download(image, os, k).1 == Unfinished
    decreases |os|
  {
    if os != [] {
      NeverLastNeverDone(image, os[1..], k + 1);
    }
  }

  lemma {:induction false} FirstLast(image: seq<byte>, k: nat) returns (last: nat)
    requires WfImage(image) && |image| - 4 <= 67584 && k <= 21 && Reached(image, k)
    ensures last <= 21 && Reached(image, last) && IsLast(image, last)
    decreases 21 - k
  {
    OffsetsBeforeWrap(k);
    if IsLast(image, k) {
      last := k;
    } else {
      last := FirstLast(image, k + 1);
    }
  }

  /** The exact bound: when the firmware accepts everything, the download of an image ends, after
      at most 22 messages, if and only if there are at most 67584 bytes behind its first four. For
      a larger image the offset wraps and no fragment is ever marked as the last. */
  lemma TerminatesUpToBound(image: seq<byte>, os: seq<Outcome>)
    requires WfImage(image) && AllAccepted(os) && 22 <= |os|
    ensures Download(image, os, 0).1 == if |image| - 4 <= 67584 then Done else Unfinished
  {
    if |image| - 4 <= 67584 {
      var last := FirstLast(image, 0);
      AcceptedUntilLast(image, os, 0, last);
    } else {
      forall j: nat ensures !IsLast(image, j) {
        OffsetsAreCoarse(j);
      }
      NeverLastNeverDone(image, os, 0);
    }
  }

  /** Exactly when the download of an image of at least four bytes overruns the message buffer: the
      response to some message is longer than the buffer, all messages before having been accepted
      and none of them having been marked as the last. */
  lemma {:induction false} OverrunExactly(image: seq<byte>, os: seq<Outcome>, k: nat)
    requires WfImage(image) && Reached(image, k)
    ensures Download(image, os, k).1 == Overrun
       <==> exists i :: 0 <= i < |os| && TooLong(os[i]) && GoesOnFor(image, os, k, i)
    decreases |os|
  {
    if os != [] {
      if StepResult(image, os[0], k) == Unfinished {
        OverrunExactly(image, os[1..], k + 1);
        forall i | 0 <= i < |os| && TooLong(os[i]) && GoesOnFor(image, os, k, i)
          ensures i > 0 && TooLong(os[1..][i - 1]) && GoesOnFor(image, os[1..], k + 1, i - 1)
        {
        }
        forall i | 0 <= i < |os[1..]| && TooLong(os[1..][i]) && GoesOnFor(image, os[1..], k + 1, i)
          ensures TooLong(os[i + 1]) && GoesOnFor(image, os, k, i + 1)
        {
        }
      } else {
        assert GoesOnFor(image, os, k, 0);
        forall i | 0 <= i < |os| && GoesOnFor(image, os, k, i) ensures i == 0 {
        }
      }
    }
  }

  /** The first `i` messages are accepted, and the loop goes on after each of them. */
  predicate GoesOnFor(image: seq<byte>, os: seq<Outcome>, k: nat, i: nat)
    requires i <= |os|
    decreases i
  {
    i == 0 || (StepResult(image, os[0], k) == Unfinished && GoesOnFor(image, os[1..], k + 1, i - 1))
  }

  /* ---- How it ends ---- */

  /** The firmware answers with a response that fits the buffer and has a zero status word. */
  predicate Accepts(o: Outcome) {
    o.Answers? && 12 <= |o.rsp| <= 4096 && o.rsp[8..12] == [0, 0, 0, 0]
  }

  /** Four bytes, as the little-endian form of a signed number of 32 bits. */
  predicate SignedWord(s: seq<byte>, e: int)
    requires |s| == 4
  {
    -0x8000_0000 <= e < 0x8000_0000 && (e == Number(s) || e == Number(s) - 0x1_0000_0000)
  }

  /** The message fails with error `e`: the error of the control channel, a timeout, or a response that
      is too short or has a nonzero status word, which is the error. */
  predicate FailsWith(o: Outcome, e: int) {
    match o
    case TxFails(error) => e == error
    case TimesOut => e == -ETIME
    case Answers(rsp) =>
      |rsp| <= 4096 && if |rsp| < 12 then e == -EIO else rsp[8..12] != [0, 0, 0, 0] && SignedWord(rsp[8..12], e)
  }

  /** How many messages are accepted before the first one that is not. */
  function Accepted(os: seq<Outcome>): (n: nat)
    ensures n <= |os| && (forall i :: 0 <= i < n ==> Accepts(os[i])) && (n < |os| ==> !Accepts(os[n]))
  {
    if os == [] || !Accepts(os[0]) then 0 else 1 + Accepted(os[1..])
  }

  /** The number of fragments of 3072 bytes; an image without any bytes gets one message as well. */
  function Fragments(image: seq<byte>): nat
    requires WfImage(image)
  {
    if |image| == 4 then 1 else (|image| - 4 + 3071) / 3072
  }

  /** The image has fragment `n`; beyond the bound there is no end of fragments. */
  predicate Has(image: seq<byte>, n: nat)
    requires WfImage(image)
  {
    |image| - 4 <= 67584 ==> n < Fragments(image)
  }

  lemma StatusWord(rsp: seq<byte>)
    requires 12 <= |rsp|
    ensures StatusOf(rsp) == 0 <==> rsp[8..12] == [0, 0, 0, 0]
    ensures forall e :: SignedWord(rsp[8..12], e) <==> e == StatusOf(rsp)
  {
    WordOf(rsp, 8);
    OnlyZeroIsZero(GetU32(rsp, 8));
    assert rsp[8..12][0] == rsp[8] && rsp[8..12][1] == rsp[9] && rsp[8..12][2] == rsp[10] && rsp[8..12][3] == rsp[11];
  }

  /** What one message contributes, told from its outcome alone. */
  lemma OutcomeDecides(image: seq<byte>, o: Outcome, k: nat)
    requires WfOutcome(o)
    ensures Accepts(o) ==> StepResult(image, o, k) == if IsLast(image, k) then Done else Unfinished
    ensures forall e :: StepResult(image, o, k) == Failed(e) <==> FailsWith(o, e)
    ensures StepResult(image, o, k) == Done || StepResult(image, o, k) == Unfinished ==> Accepts(o)
  {
    if o.Answers? && 12 <= |o.rsp| {
      StatusWord(o.rsp);
    }
  }

  /** The fragments that are reached are those that the image has, and the last one is its last. */
  lemma ReachedExactly(image: seq<byte>, k: nat)
    requires WfImage(image)
    ensures Reached(image, k) <==> Has(image, k)
    ensures Reached(image, k) ==> (IsLast(image, k) <==> |image| - 4 <= 67584 && k + 1 == Fragments(image))
  {
    if |image| - 4 <= 67584 {
      var n := Fragments(image);
      assert n <= 22;
      forall j | 0 <= j < n ensures IsLast(image, j) <==> j == n - 1 {
        OffsetsBeforeWrap(j);
      }
      assert IsLast(image, n - 1);
    } else {
      forall j: nat ensures !IsLast(image, j) {
        OffsetsAreCoarse(j);
      }
    }
  }

  /** The result `r` and the number `sent` of messages sent, when the messages have the outcomes `os` and
      `left` fragments are left (none if there is no end of them). */
  ghost predicate EndsLike(r: Result, sent: nat, os: seq<Outcome>, left: Option<nat>) {
    var n := Accepted(os);
    if left.Some? && left.value <= n then r == Done && sent == left.value
    else if n == |os| then r == Unfinished && sent == n
    else
      && (forall e :: r == Failed(e) <==> FailsWith(os[n], e))
      && (r == Overrun <==> os[n].Answers? && |os[n].rsp| > 4096)
      && r != Done && r != Unfinished
      && sent == if os[n].TxFails? then n else n + 1
  }

  function FragmentsLeft(image: seq<byte>, k: nat): Option<nat>
    requires WfImage(image) && Has(image, k)
  {
    if |image| - 4 <= 67584 then Some(Fragments(image) - k) else None
  }

  lemma OneMoreAccepted(os: seq<Outcome>, r: Result, sent: nat, left: Option<nat>)
    requires os != [] && Accepts(os[0]) && EndsLike(r, sent, os[1..], left)
    ensures EndsLike(r, sent + 1, os, if left.Some? then Some(left.value + 1) else None)
  {
  }

  lemma {:induction false} EndsFrom(image: seq<byte>, os: seq<Outcome>, k: nat)
    requires WfImage(image) && Has(image, k) && Reached(image, k)
    requires forall i :: 0 <= i < |os| ==> WfOutcome(os[i])
    ensures var (ms, r) := Download(image, os, k); EndsLike(r, |ms|, os, FragmentsLeft(image, k))
    decreases |os|
  {
    ReachedExactly(image, k);
    if os != [] {
      OutcomeDecides(image, os[0], k);
      if StepResult(image, os[0], k) == Unfinished {
        ReachedExactly(image, k + 1);
        EndsFrom(image, os[1..], k + 1);
        OneMoreAccepted(os, Download(image, os[1..], k + 1).1, |Download(image, os[1..], k + 1).0|, FragmentsLeft(image, k + 1));
      }
    }
  }

  /** How a download ends, told from the sizes and the outcomes alone. It ends well if and only if there are
      at most 67584 bytes behind the first four and as many messages as the image has fragments were all
      accepted. Otherwise the first message that was not accepted ends it with its own error, or with
      an overrun, and nothing is sent after it. */
  lemma DownloadEndsExactly(image: seq<byte>, os: seq<Outcome>)
    requires WfImage(image) && forall i :: 0 <= i < |os| ==> WfOutcome(os[i])
    ensures var (ms, r) := Download(image, os, 0);
            EndsLike(r, |ms|, os, if |image| - 4 <= 67584 then Some(Fragments(image)) else None)
  {
    EndsFrom(image, os, 0);
  }

  /** `ms` are the fragments of the image from number `k` on. */
  ghost predicate AreFragments(ms: seq<Msg>, image: seq<byte>, k: nat)
    requires WfImage(image)
  {
    ms == [] || (Reached(image, k) && ms[0] == Fragment(image, k) && AreFragments(ms[1..], image, k + 1))
  }

  /** Whatever the outcomes, the messages sent are the first fragments, in order. */
  lemma {:induction false} SendsFragmentsInOrder(image: seq<byte>, os: seq<Outcome>, k: nat)
    requires WfImage(image) && Reached(image, k)
    ensures AreFragments(Download(image, os, k).0, image, k)
    decreases |os|
  {
    if os != [] && StepResult(image, os[0], k) == Unfinished {
      SendsFragmentsInOrder(image, os[1..], k + 1);
      assert ([Fragment(image, k)] + Download(image, os[1..], k + 1).0)[1..] == Download(image, os[1..], k + 1).0;
    }
  }

  /* ---- What has been sent when it ends? ---- */

  ghost function Bodies(ms: seq<Msg>): seq<byte> {
    if ms == [] then [] else ms[0].body + Bodies(ms[1..])
  }

  /** Within the bound the offset never wraps before the last fragment. */
  lemma ReachedInOrder(image: seq<byte>, k: nat)
    requires WfImage(image) && |image| - 4 <= 67584 && Reached(image, k)
    ensures k <= 21 && Offset(k) == FRAGMENT_SIZE * k
  {
    OffsetsBeforeWrap(21);
    assert IsLast(image, 21);
    OffsetsBeforeWrap(k);
  }

  /** Message `i` of a download, and whether it is the final one. */
  ghost predicate Numbered(m: Msg, i: nat, final: bool) {
    && m.fragNumber == i && m.lastFragment == (if final then 1 else 0)
    && m.len == REQ_SIZE + |m.body| <= HAL_BUF_SIZE
  }

  lemma CutFragment(image: seq<byte>, off: nat)
    requires off + FRAGMENT_SIZE <= |image|
    ensures image[off..] == image[off..off + FRAGMENT_SIZE] + image[off + FRAGMENT_SIZE..]
  {
  }

  /** `ms` are the final messages of a download, from number `k` on, and carry `image[off..]`. */
  ghost predicate Covers(ms: seq<Msg>, k: nat, image: seq<byte>, off: nat) {
    && ms != [] && off <= |image| && Bodies(ms) == image[off..]
    && forall i :: 0 <= i < |ms| ==> Numbered(ms[i], k + i, i == |ms| - 1)
  }

  lemma LastCovers(image: seq<byte>, k: nat)
    requires WfImage(image) && |image| - 4 <= 67584 && Reached(image, k) && IsLast(image, k)
    ensures Covers([Fragment(image, k)], k, image, 4 + Offset(k))
  {
    ReachedInOrder(image, k);
    ReachedHasBytes(image, k);
    FragNumberBeforeWrap(k);
    var ms := [Fragment(image, k)];
    assert ms[1..] == [] && Bodies(ms) == ms[0].body + [];
  }

  lemma PrependCovers(image: seq<byte>, k: nat, rest: seq<Msg>)
    requires WfImage(image) && |image| - 4 <= 67584 && Reached(image, k + 1)
    requires Covers(rest, k + 1, image, 4 + Offset(k + 1))
    ensures Covers([Fragment(image, k)] + rest, k, image, 4 + Offset(k))
  {
    ReachedInOrder(image, k);
    ReachedInOrder(image, k + 1);
    FragNumberBeforeWrap(k);
    CutFragment(image, 4 + Offset(k));
    var ms := [Fragment(image, k)] + rest;
    assert ms[1..] == rest;
    assert Numbered(ms[0], k, false);
    forall i | 0 < i < |ms| ensures Numbered(ms[i], k + i, i == |ms| - 1) {
      assert Numbered(rest[i - 1], k + 1 + (i - 1), i - 1 == |rest| - 1);
    }
  }

  /** The messages sent from iteration `k` on, if the download ends well. */
  lemma {:induction false} FragmentsCoverImage(image: seq<byte>, os: seq<Outcome>, k: nat)
    requires WfImage(image) && Reached(image, k) && Download(image, os, k).1 == Done
    requires |image| - 4 <= 67584
    ensures Covers(Download(image, os, k).0, k, image, 4 + Offset(k))
    decreases |os|
  {
    if IsLast(image, k) {
      LastCovers(image, k);
    } else {
      FragmentsCoverImage(image, os[1..], k + 1);
      PrependCovers(image, k, Download(image, os[1..], k + 1).0);
    }
  }

  /** A download that ends well is for an image within the bound. */
  lemma {:induction false} DoneMeansWithinBound(image: seq<byte>, os: seq<Outcome>, k: nat)
    requires WfImage(image) && Reached(image, k) && Download(image, os, k).1 == Done
    ensures |image| - 4 <= 67584
    decreases |os|
  {
    if IsLast(image, k) {
      OffsetsAreCoarse(k);
    } else {
      DoneMeansWithinBound(image, os[1..], k + 1);
    }
  }

  /** Round trip: whenever the download ends well, the fragment bodies put together are the image
      without its first four bytes, the fragments are numbered from 0, exactly the final one is
      marked, and each message states its own length and fits the message buffer. */
  lemma FragmentsReassemble(image: seq<byte>, os: seq<Outcome>)
    requires WfImage(image) && Download(image, os, 0).1 == Done
    ensures var ms := Download(image, os, 0).0;
            && ms != [] && Bodies(ms) == image[4..]
            && forall i :: 0 <= i < |ms| ==> Numbered(ms[i], i, i == |ms| - 1)
  {
    DoneMeansWithinBound(image, os, 0);
    FragmentsCoverImage(image, os, 0);
  }

  /** What the firmware reads out of a message: a request of type 55 and version 0. */
  function Decode(s: seq<byte>): Option<Msg> {
    if |s| < REQ_SIZE || |s| - REQ_SIZE != GetU32(s, 12) || GetU16(s, 0) != 55 || GetU16(s, 2) != 0 then None
    else Some(Msg(GetU32(s, 4), GetU16(s, 8), GetU16(s, 10), s[REQ_SIZE..]))
  }

  lemma EncodeRoundTrip(m: Msg)
    requires |m.body| < 0x1_0000_0000
    ensures Decode(Encode(m)) == Some(m)
  {
    var s := Encode(m);
    var a, b, c, d, e, f := U16(DOWNLOAD_NV_REQ), U16(0), U32(m.len), U16(m.fragNumber), U16(m.lastFragment), U32(|m.body|);
    assert s == [] + a + (b + c + d + e + f + m.body);
    U16RoundTrip([], DOWNLOAD_NV_REQ, b + c + d + e + f + m.body);
    assert s == a + b + (c + d + e + f + m.body);
    U16RoundTrip(a, 0, c + d + e + f + m.body);
    assert s == (a + b) + c + (d + e + f + m.body);
    U32RoundTrip(a + b, m.len, d + e + f + m.body);
    assert s == (a + b + c) + d + (e + f + m.body);
    U16RoundTrip(a + b + c, m.fragNumber, e + f + m.body);
    assert s == (a + b + c + d) + e + (f + m.body);
    U16RoundTrip(a + b + c + d, m.lastFragment, f + m.body);
    assert s == (a + b + c + d + e) + f + m.body;
    U32RoundTrip(a + b + c + d + e, |m.body|, m.body);
    assert s[REQ_SIZE..] == m.body;
  }

  /* ---- The loop ---- */

  /** After iterations that sent `done`, the download from `k` on is what is left of it. */
  ghost predicate Remains(image: seq<byte>, os: seq<Outcome>, k: nat, done: seq<Msg>) {
    && WfImage(image) && k <= |os| && Reached(image, k)
    && Download(image, os, 0).0 == done + Download(image, os[k..], k).0
    && Download(image, os, 0).1 == Download(image, os[k..], k).1
  }

  /** The outcome of message `k` decides how the download goes on. */
  lemma RemainsAfter(image: seq<byte>, os: seq<Outcome>, k: nat, done: seq<Msg>)
    requires Remains(image, os, k, done) && k < |os|
    ensures var done' := done + StepSends(image, os[k], k);
            if StepResult(image, os[k], k) == Unfinished then Remains(image, os, k + 1, done')
            else Download(image, os, 0) == (done', StepResult(image, os[k], k))
  {
    assert os[k..][0] == os[k] && os[k..][1..] == os[k + 1..];
  }

  /** The loop has sent `done` in `k` iterations, and goes on or has come to an end with `r`. */
  ghost predicate GoneSoFar(image: seq<byte>, os: seq<Outcome>, k: nat, done: seq<Msg>, r: Result) {
    && WfImage(image)
    && if r == Unfinished then Remains(image, os, k, done) else Download(image, os, 0) == (done, r)
  }

  lemma OneMoreOutcome(image: seq<byte>, os: seq<Outcome>, k: nat, done: seq<Msg>, r: Result)
    requires Remains(image, os, k, done) && k < |os| && r == StepResult(image, os[k], k)
    ensures GoneSoFar(image, os, k + 1, done + StepSends(image, os[k], k), r)
  {
    RemainsAfter(image, os, k, done);
  }

  lemma DownloadEnds(image: seq<byte>, os: seq<Outcome>, k: nat, done: seq<Msg>, r: Result)
    requires GoneSoFar(image, os, k, done, r) && (r == Unfinished ==> k == |os|)
    ensures Download(image, os, 0) == (done, r)
  {
    if r == Unfinished {
      assert os[k..] == [];
      assert done + [] == done;
    }
  }

  lemma SentSoFar(before: seq<seq<byte>>, ms: seq<Msg>, ms': seq<Msg>)
    ensures before + Wire(ms) + Wire(ms') == before + Wire(ms + ms')
  {
    assert Wire(ms + ms') == Wire(ms) + Wire(ms');
  }

  /** The messages as they go over the wire. */
  ghost function Wire(ms: seq<Msg>): seq<seq<byte>>
  {
    seq(|ms|, i requires 0 <= i < |ms| => WireOne(ms[i]))
  }

  ghost function WireOne(m: Msg): seq<byte> {
    if |m.body| < 0x1_0000_0000 then Encode(m) else []
  }

  lemma OnlyZeroIsZero(n: u32)
    ensures U32(n) == [0, 0, 0, 0] <==> n == 0
  {
    U32RoundTrip([], n, []);
    U32RoundTrip([], 0, []);
    assert U32(0) == [0, 0, 0, 0];
  }

  /** The message buffer that requests and responses share, and what has been sent through it. */
  class Hal {
    const halBuf: array<byte>
    var halRspLen: nat
    var sent: seq<seq<byte>>

    constructor ()
      ensures halBuf.Length == HAL_BUF_SIZE && sent == [] && fresh(halBuf)
    {
      halBuf := new byte[HAL_BUF_SIZE];
      halRspLen, sent := 0, [];
    }

    /** `wcn36xx_smd_send_and_wait`. A response overwrites the request, and more than that if it is
        longer than the buffer. */
    method SendAndWait(len: nat, o: Outcome) returns (ret: int, overrun: bool)
      requires len <= halBuf.Length == HAL_BUF_SIZE && WfOutcome(o)
      modifies this, halBuf
      ensures sent == if o.TxFails? then old(sent) else old(sent) + [old(halBuf[..len])]
      ensures overrun <==> TooLong(o)
      ensures !overrun ==> ret == match o case TxFails(error) => error case TimesOut => -ETIME case Answers(_) => 0
      ensures !overrun && o.Answers? ==> halRspLen == |o.rsp| && halBuf[..|o.rsp|] == o.rsp
    {
      overrun := false;
      if o.TxFails? {
        return o.error, false;
      }
      sent := sent + [halBuf[..len]];
      if o.TimesOut? {
        return -ETIME, false;
      }
      if |o.rsp| > halBuf.Length {
        return 0, true;
      }
      Memcpy(halBuf, 0, o.rsp);
      halRspLen := |o.rsp|;
      ret := 0;
    }

    /** `wcn36xx_smd_rsp_status_check` on the message buffer: success is a response of at least 12
        bytes whose status word is zero; otherwise a response that is long enough gives its status
        word, and one that is not gives -EIO. */
    method RspStatusCheck() returns (ret: int)
      requires halRspLen <= halBuf.Length
      ensures ret == StatusOf(halBuf[..halRspLen])
      ensures ret == 0 <==> halRspLen >= 12 && halBuf[8..12] == [0, 0, 0, 0]
      ensures halRspLen < 12 ==> ret == -EIO
      ensures halRspLen >= 12 ==> exists n: u32 :: U32(n) == halBuf[8..12] && ret == AsInt(n)
    {
      if halRspLen < 12 {
        ret := -EIO;
      } else {
        var n := GetU32(halBuf[..halRspLen], 8);
        ret := n;
        if ret >= 0x8000_0000 {
          ret := ret - 0x1_0000_0000;
        }
        WordOf(halBuf[..halRspLen], 8);
        assert halBuf[..halRspLen][8..12] == halBuf[8..12];
        assert U32(n) == halBuf[8..12];
        OnlyZeroIsZero(n);
      }
    }

    /** The request header and the fragment behind it, as `wcn36xx_smd_load_nv` fills them in. */
    method PrepareFragment(image: seq<byte>, len: u32, fragNumber: u16, last: u16, size: nat, fmOffset: u16)
      requires halBuf.Length == HAL_BUF_SIZE && size <= FRAGMENT_SIZE
      requires 4 + fmOffset + size <= |image|
      modifies halBuf
      ensures halBuf[..REQ_SIZE + size]
           == Encode(Msg(len, fragNumber, last, image[4 + fmOffset..4 + fmOffset + size]))
    {
      Memcpy(halBuf, 0, ReqHeader(len, fragNumber, last, size));
      Memcpy(halBuf, REQ_SIZE, image[4 + fmOffset..4 + fmOffset + size]);
    }

    /** The body of the loop of `wcn36xx_smd_load_nv`; `Unfinished` means that it goes on. */
    method SendFragment(image: seq<byte>, fmOffset: u16, fragNumber: u16, o: Outcome, ghost k: nat)
        returns (r: Result)
      requires WfImage(image) && halBuf.Length == HAL_BUF_SIZE && WfOutcome(o)
      requires Reached(image, k) && fmOffset == Offset(k) && fragNumber == FragNumber(k)
      modifies this, halBuf
      ensures r == StepResult(image, o, k)
      ensures sent == old(sent) + Wire(StepSends(image, o, k))
    {
      ReachedHasBytes(image, k);
      var fwBytesLeft := |image| - fmOffset - 4;
      var last: u16, size: nat := 0, FRAGMENT_SIZE;
      if fwBytesLeft <= FRAGMENT_SIZE {
        last, size := 1, fwBytesLeft;
      }
      assert image[4 + fmOffset..4 + fmOffset + size] == Fragment(image, k).body;
      PrepareFragment(image, REQ_SIZE + size, fragNumber, last, size, fmOffset);
      var ret, overrun := SendAndWait(REQ_SIZE + size, o);
      if overrun {
        return Overrun;
      }
      if ret == 0 {
        ret := RspStatusCheck();
      }
      r := if ret != 0 then Failed(ret) else if last == 1 then Done else Unfinished;
    }

    /** `wcn36xx_smd_load_nv`, as far as it gets with the outcomes given. An image must have at
        least four bytes: the driver does not check it. */
    method LoadNv(image: seq<byte>, outcomes: seq<Outcome>) returns (r: Result)
      requires |image| < 0x8000_0000 && halBuf.Length == HAL_BUF_SIZE
      requires forall i :: 0 <= i < |outcomes| ==> WfOutcome(outcomes[i])
      modifies this, halBuf
      ensures |image| < 4 ==> r == Overrun && sent == old(sent)
      ensures WfImage(image) ==> r == Download(image, outcomes, 0).1
      ensures WfImage(image) ==> sent == old(sent) + Wire(Download(image, outcomes, 0).0)
      ensures WfImage(image) ==>
                EndsLike(r, |sent| - |old(sent)|, outcomes, if |image| - 4 <= 67584 then Some(Fragments(image)) else None)
    {
      if |image| < 4 {
        return Overrun;
      }
      DownloadEndsExactly(image, outcomes);
      r := SendImage(image, outcomes);
    }

    /** The loop, while the firmware answers as `outcomes` says. */
    method SendImage(image: seq<byte>, outcomes: seq<Outcome>) returns (r: Result)
      requires WfImage(image) && halBuf.Length == HAL_BUF_SIZE
      requires forall i :: 0 <= i < |outcomes| ==> WfOutcome(outcomes[i])
      modifies this, halBuf
      ensures r == Download(image, outcomes, 0).1
      ensures sent == old(sent) + Wire(Download(image, outcomes, 0).0)
    {
      var fmOffset: u16, fragNumber: u16 := 0, 0;
      ghost var done: seq<Msg> := [];
      var k := 0;
      r := Unfinished;
      while k < |outcomes| && r == Unfinished
        invariant 0 <= k <= |outcomes|
        invariant GoneSoFar(image, outcomes, k, done, r)
        invariant r == Unfinished ==> fmOffset == Offset(k) && fragNumber == FragNumber(k)
        invariant sent == old(sent) + Wire(done)
      {
        ghost var sends := StepSends(image, outcomes[k], k);
        r := SendFragment(image, fmOffset, fragNumber, outcomes[k], k);
        SentSoFar(old(sent), done, sends);
        OneMoreOutcome(image, outcomes, k, done, r);
        done := done + sends;
        fmOffset, fragNumber := Advance(fmOffset, fragNumber, k);
        k := k + 1;
      }
      DownloadEnds(image, outcomes, k, done, r);
    }
  }

  /** The counters of the loop for iteration `k + 1`. */
  method Advance(fmOffset: u16, fragNumber: u16, ghost k: nat) returns (fmOffset': u16, fragNumber': u16)
    ensures fmOffset == Offset(k) ==> fmOffset' == Offset(k + 1)
    ensures fragNumber == FragNumber(k) ==> fragNumber' == FragNumber(k + 1)
  {
    fmOffset', fragNumber' := (fmOffset + FRAGMENT_SIZE) % 0x1_0000, (fragNumber + 1) % 0x1_0000;
  }
}
