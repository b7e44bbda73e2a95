/** Types shared by the models of the wcn36xx driver. */
module Common {

  datatype Option<+T> = None | Some(value: T)

  type byte = x: int | 0 <= x < 0x100
  type u16 = x: int | 0 <= x < 0x1_0000
  type u32 = x: int | 0 <= x < 0x1_0000_0000

  /** The message buffer shared by requests to the firmware and its responses. */
  const HAL_BUF_SIZE := 4096

  /* Error numbers. */
  const EIO := 5
  const ETIME := 62

  function One(b: bool): nat {
    if b then 1 else 0
  }

  lemma Regroup<T>(a: seq<T>, b: seq<T>, c: seq<T>)
    ensures (a + b) + c == a + (b + c)
  {
  }

  /* ---- Flags that are set and cleared ---- */

  predicate NoneFrom(off: seq<bool>, i: nat, n: nat)
    requires n <= |off|
  {
    forall k :: i <= k < n ==> !off[k]
  }

  /** A flag after `n` events: it was set at first or by one of them, and has not been cleared since. */
  predicate LeftSet(init: bool, on: seq<bool>, off: seq<bool>, n: nat)
    requires n <= |on| == |off|
  {
    (init && NoneFrom(off, 0, n)) || exists i :: 0 <= i < n && on[i] && NoneFrom(off, i + 1, n)
  }

  lemma LeftSetNext(init: bool, on: seq<bool>, off: seq<bool>, n: nat)
    requires n < |on| == |off|
    ensures LeftSet(init, on, off, n + 1) <==> on[n] || (LeftSet(init, on, off, n) && !off[n])
  {
    assert NoneFrom(off, n + 1, n + 1);
    if i :| 0 <= i < n && on[i] && NoneFrom(off, i + 1, n) {
      assert !off[n] ==> NoneFrom(off, i + 1, n + 1);
    }
    if i :| 0 <= i < n + 1 && on[i] && NoneFrom(off, i + 1, n + 1) {
      assert i < n ==> NoneFrom(off, i + 1, n);
    }
  }
}
