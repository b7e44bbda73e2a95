/** Positions on a circle of `n` elements, and the circle as seen from one of them. Reading the
    circle from the right place leaves no modular arithmetic to the proofs about rings. */
module Circle {

  /** The position after `i` in a circle of `n`: the `next` pointer. */
  function Next(i: nat, n: nat): (j: nat)
    requires i < n
    ensures j < n
  {
    if i + 1 == n then 0 else i + 1
  }

  /** The position `k` steps after `i`. */
  function Rot(i: nat, k: nat, n: nat): (j: nat)
    requires i < n && k <= n
    ensures j < n
  {
    if i + k < n then i + k else i + k - n
  }

  /** The number of steps from `i` forward to `j`. */
  function Gap(i: nat, j: nat, n: nat): (k: nat)
    requires i < n && j < n
    ensures k < n && Rot(i, k, n) == j
  {
    if i <= j then j - i else j + n - i
  }

  /** A circle read from position `t` on. */
  ghost function View<T>(s: seq<T>, t: nat): (v: seq<T>)
    requires t <= |s|
    ensures |v| == |s|
  {
    s[t..] + s[..t]
  }

  lemma ViewAt<T>(s: seq<T>, t: nat, k: nat)
    requires t < |s| && k < |s|
    ensures View(s, t)[k] == s[Rot(t, k, |s|)]
  {
  }

  lemma ViewUpdate<T>(s: seq<T>, t: nat, k: nat, x: T)
    requires t < |s| && k < |s|
    ensures View(s[Rot(t, k, |s|) := x], t) == View(s, t)[k := x]
  {
  }

  lemma ViewNext<T>(s: seq<T>, t: nat)
    requires t < |s|
    ensures View(s, Next(t, |s|)) == View(s, t)[1..] + [View(s, t)[0]]
  {
  }

  lemma ViewRot<T>(s: seq<T>, t: nat, j: nat)
    requires t < |s| && j <= |s|
    ensures View(s, Rot(t, j, |s|)) == View(s, t)[j..] + View(s, t)[..j]
  {
  }
}
